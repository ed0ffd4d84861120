/** The `Analysis` record the client and the server exchange. */
module Types {
  import opened Json

  /** One analysis. The TypeScript type promises a number for `overallScore`
      and a string for `suggestions`, but the service produces the record by
      a cast of whatever the reply held, so both are kept as JSON values here.
      `scores` is the reply's score object as it was (it has at least the five
      numeric category keys once validated), and `extra` holds every other
      key of the reply, which the object spread carries through untouched. */
  datatype Analysis = Analysis(
    location: string,
    department: string,
    workStation: string,
    overallScore: Json,
    scores: map<string, Json>,
    suggestions: Json,
    imageUrls: seq<string>,
    extra: map<string, Json>)

  /** The keys the record names; every other key of the runtime object lives in `extra`. */
  const NamedKeys: set<string> :=
    {"location", "department", "workStation", "overallScore", "scores", "suggestions", "imageUrls"}

  function UrlsAsJson(urls: seq<string>): (r: seq<Json>)
    ensures |r| == |urls|
    ensures forall i :: 0 <= i < |urls| ==> r[i] == JStr(urls[i])
  {
    if |urls| == 0 then [] else [JStr(urls[0])] + UrlsAsJson(urls[1..])
  }

  /** The plain JavaScript object the record stands for. */
  function ToObject(a: Analysis): map<string, Json>
  {
    a.extra + map[
      "location" := JStr(a.location),
      "department" := JStr(a.department),
      "workStation" := JStr(a.workStation),
      "overallScore" := a.overallScore,
      "scores" := JObj(a.scores),
      "suggestions" := a.suggestions,
      "imageUrls" := JArr(UrlsAsJson(a.imageUrls))]
  }
}
