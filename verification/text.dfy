/** The text clean-up the service applies to the reply before parsing it:
    the global replacement of the pattern /```json\n?|\n?```/ by the empty
    string, followed by JavaScript's `String.prototype.trim`. */
module Text {
  import opened Strings

  /** The code points `trim` removes: ECMAScript WhiteSpace (tab, vertical
      tab, form feed, space, no-break space, byte order mark and the Unicode
      space separators) and LineTerminator (LF, CR, LS, PS). */
  predicate IsJsWhitespace(c: char)
  {
    var n := c as int;
    || n == 0x09 || n == 0x0B || n == 0x0C || n == 0x20 || n == 0xA0 || n == 0xFEFF
    || n == 0x1680 || (0x2000 <= n <= 0x200A) || n == 0x202F || n == 0x205F || n == 0x3000
    || n == 0x0A || n == 0x0D || n == 0x2028 || n == 0x2029
  }

  predicate NoBacktick(s: string)
  {
    forall i :: 0 <= i < |s| ==> s[i] != '`'
  }

  const Fence: string := "```"
  const JsonFence: string := "```json"

  /** Leading whitespace removed. */
  function TrimStart(s: string): (r: string)
    ensures |r| <= |s| && r == s[|s| - |r|..]
    ensures forall i :: 0 <= i < |s| - |r| ==> IsJsWhitespace(s[i])
    ensures |r| > 0 ==> !IsJsWhitespace(r[0])
  {
    if |s| > 0 && IsJsWhitespace(s[0]) then TrimStart(s[1..]) else s
  }

  /** Trailing whitespace removed. */
  function TrimEnd(s: string): (r: string)
    ensures |r| <= |s| && r == s[..|r|]
    ensures forall i :: |r| <= i < |s| ==> IsJsWhitespace(s[i])
    ensures |r| > 0 ==> !IsJsWhitespace(r[|r| - 1])
  {
    if |s| > 0 && IsJsWhitespace(s[|s| - 1]) then TrimEnd(s[..|s| - 1]) else s
  }

  /** `s.trim()`: leading and trailing whitespace removed. */
  function Trim(s: string): (r: string)
    ensures |r| <= |s|
    ensures |r| > 0 ==> !IsJsWhitespace(r[0]) && !IsJsWhitespace(r[|r| - 1])
  {
    TrimEnd(TrimStart(s))
  }

  /** `r` is `s[i..j]`, and everything before `i` and from `j` on is
      whitespace. */
  predicate CutAt(s: string, r: string, i: int, j: int)
  {
    && 0 <= i <= j <= |s| && r == s[i..j]
    && (forall k :: 0 <= k < i ==> IsJsWhitespace(s[k]))
    && (forall k :: j <= k < |s| ==> IsJsWhitespace(s[k]))
  }

  /** `r` is `s` with a whitespace-only prefix and suffix cut away. */
  ghost predicate CutsOnlyWhitespace(s: string, r: string)
  {
    exists i, j :: CutAt(s, r, i, j)
  }

  /** What `trim` cuts away is whitespace, and nothing else. */
  lemma TrimCutsOnlyWhitespace(s: string)
    ensures CutsOnlyWhitespace(s, Trim(s))
  {
    var t := TrimStart(s);
    var r := TrimEnd(t);
    var i, j := |s| - |t|, |s| - |t| + |r|;
    assert r == s[i..j];
    forall k | j <= k < |s| ensures IsJsWhitespace(s[k]) {
      assert s[k] == t[k - i];
    }
    assert CutAt(s, r, i, j);
  }

  /** Trimming a trimmed string changes nothing. */
  lemma TrimIdempotent(s: string)
    ensures Trim(Trim(s)) == Trim(s)
  {
    var r := Trim(s);
    assert TrimStart(r) == r;
    assert TrimEnd(r) == r;
  }

  /** The length of the match of /```json\n?|\n?```/ at the start of `s`,
      0 when it does not match there. The first alternative is tried before
      the second and `\n?` is greedy, so the match is "```json\n",
      "```json", "\n```" or "```", in that order of preference. */
  function FenceMatch(s: string): (k: nat)
    ensures k in {0, 3, 4, 7, 8} && k <= |s|
    ensures k == 0 <==> !HasPrefix(s, JsonFence) && !HasPrefix(s, Fence) && !HasPrefix(s, "\n" + Fence)
  {
    if HasPrefix(s, JsonFence + "\n") then 8
    else if HasPrefix(s, JsonFence) then 7
    else if HasPrefix(s, "\n" + Fence) then 4
    else if HasPrefix(s, Fence) then 3
    else 0
  }

  /** `s.replace(/```json\n?|\n?```/g, '')`: the pattern is tried at each
      position from left to right; a match is dropped and the scan resumes
      after it, otherwise the character is kept. */
  function StripFences(s: string): (r: string)
    ensures |r| <= |s|
    decreases |s|
  {
    if |s| == 0 then ""
    else
      var k := FenceMatch(s);
      if k > 0 then StripFences(s[k..]) else [s[0]] + StripFences(s[1..])
  }

  /** The text handed to the parser. */
  function Clean(reply: string): string
  {
    Trim(StripFences(reply))
  }

  /** At a position holding no backtick, and not followed by one, no
      alternative of the pattern matches: the character is kept. */
  lemma StripKeepsPlainChar(s: string)
    requires |s| > 0 && s[0] != '`'
    requires |s| >= 2 ==> s[1] != '`'
    ensures StripFences(s) == [s[0]] + StripFences(s[1..])
  {
    assert !HasPrefix(s, JsonFence) && !HasPrefix(s, Fence) by {
      assert JsonFence[0] == Fence[0] == '`';
    }
    assert !HasPrefix(s, "\n" + Fence) by {
      assert ("\n" + Fence)[1] == '`';
    }
    assert FenceMatch(s) == 0;
  }

  /** One step of the scan over backtick-free text followed by `rest`. */
  lemma StripStep(body: string, rest: string)
    requires |body| > 0 && NoBacktick(body)
    requires |rest| > 0 ==> rest[0] != '`'
    ensures StripFences(body + rest) == [body[0]] + StripFences(body[1..] + rest)
  {
    var s := body + rest;
    if |s| >= 2 {
      if |body| >= 2 { assert s[1] == body[1]; } else { assert s[1] == rest[0]; }
    }
    StripKeepsPlainChar(s);
    assert s[1..] == body[1..] + rest;
  }

  lemma ConsConcat(body: string, tail: string)
    requires |body| > 0
    ensures [body[0]] + (body[1..] + tail) == body + tail
  {
    assert body == [body[0]] + body[1..];
  }

  /** Text with no backtick passes the fence removal unchanged, whatever
      follows it, as long as what follows does not start with a backtick. */
  lemma {:induction false} StripKeepsBacktickFreePrefix(body: string, rest: string)
    requires NoBacktick(body)
    requires |rest| > 0 ==> rest[0] != '`'
    ensures StripFences(body + rest) == body + StripFences(rest)
    decreases |body|
  {
    if |body| > 0 {
      var tail := StripFences(rest);
      StripStep(body, rest);
      StripKeepsBacktickFreePrefix(body[1..], rest);
      ConsConcat(body, tail);
    } else {
      assert body + rest == rest;
    }
  }

  /** A reply without any backtick is only trimmed. */
  lemma NoBacktickOnlyTrimmed(reply: string)
    requires NoBacktick(reply)
    ensures Clean(reply) == Trim(reply)
  {
    StripKeepsBacktickFreePrefix(reply, "");
    assert reply + "" == reply;
  }

  /** A reply fenced as a JSON code block, whose body holds no backtick,
      comes out as the trimmed body. */
  lemma FencedReplyYieldsBody(body: string)
    requires NoBacktick(body)
    ensures Clean(JsonFence + "\n" + body + "\n" + Fence) == Trim(body)
  {
    var closing := "\n" + Fence;
    var s := JsonFence + "\n" + body + closing;
    assert JsonFence + "\n" + body + "\n" + Fence == s;
    assert HasPrefix(s, JsonFence + "\n");
    assert FenceMatch(s) == 8;
    assert s[8..] == body + closing;
    StripKeepsBacktickFreePrefix(body, closing);
    assert HasPrefix(closing, "\n" + Fence);
    assert !HasPrefix(closing, JsonFence) by { assert closing[0] != JsonFence[0]; }
    assert FenceMatch(closing) == 4;
    assert closing[4..] == "";
    assert StripFences(closing) == "";
    assert body + "" == body;
  }
}
