/** Prefix and suffix tests on strings, shared by the reply clean-up and
    the layout classes. */
module Strings {

  predicate HasPrefix(s: string, p: string)
  {
    |p| <= |s| && s[..|p|] == p
  }

  predicate HasSuffix(s: string, p: string)
  {
    |p| <= |s| && s[|s| - |p|..] == p
  }
}
