/** `analyze5SFromImages`: send the prompt and the images to the vision
    model, then turn its reply into an `Analysis` or fail with one error.
    The SDK call and `JSON.parse` are parameters: `service` answers a request
    and `parse` stands for the parser, `None` meaning it threw. */
module Anthropic {
  import opened Wrappers
  import opened Json
  import opened Text
  import opened Types

  const ModelName: string := "claude-3-5-sonnet-20241022"
  const MaxTokens: nat := 1024
  const Temperature: real := 0.7

  /** The five score keys the reply must carry as numbers, in checking order. */
  const RequiredScores: seq<string> := ["sort", "setInOrder", "shine", "standardize", "sustain"]

  /** The one error the caller ever sees: the inner handler turns any parse
      or validation failure into "Failed to analyze images: Invalid response
      format", and the outer handler replaces that, and every other error,
      by this message. */
  const AnalysisFailed: string := "Failed to analyze images"

  datatype ImageSource = ImageSource(sourceType: string, mediaType: string, data: string)

  datatype ContentBlock =
    | TextBlock(text: string)
    | ImageBlock(source: ImageSource)

  datatype Message = Message(role: string, content: seq<ContentBlock>)

  datatype Request = Request(model: string, maxTokens: nat, temperature: real, messages: seq<Message>)

  /** A block of the model's answer: text, or any other kind of block. */
  datatype ReplyBlock = ReplyText(text: string) | ReplyOther

  /** What the SDK call yields: a thrown error, or the answer's blocks. */
  datatype ServiceReply = ServiceError | Reply(content: seq<ReplyBlock>)

  /** Why the reply was refused, before the handlers erase the reason. */
  datatype Fault =
    | NoReplyText        // `response.content[0].text` is missing
    | Unparsable         // `JSON.parse` threw
    | NullReply          // the reply parsed to `null`: reading a property throws
    | InvalidFormat      // 'Invalid response format'
    | InvalidScore(key: string)  // 'Missing or invalid score: <key>'

  function ImageBlockOf(data: string): ContentBlock
  {
    ImageBlock(ImageSource("base64", "image/jpeg", data))
  }

  /** `imageBase64Array.map(...)`: one JPEG image block per input, in order. */
  function ImageBlocks(images: seq<string>): (r: seq<ContentBlock>)
    ensures |r| == |images|
    ensures forall i :: 0 <= i < |images| ==> r[i] == ImageBlockOf(images[i])
  {
    if |images| == 0 then [] else [ImageBlockOf(images[0])] + ImageBlocks(images[1..])
  }

  /** The content of the single user message: the prompt first, then the images. */
  function BuildContent(prompt: string, images: seq<string>): (r: seq<ContentBlock>)
    ensures |r| == 1 + |images|
    ensures r[0] == TextBlock(prompt)
    ensures forall i :: 0 <= i < |images| ==>
              r[i + 1].ImageBlock? && r[i + 1].source.mediaType == "image/jpeg"
              && r[i + 1].source.sourceType == "base64" && r[i + 1].source.data == images[i]
  {
    [TextBlock(prompt)] + ImageBlocks(images)
  }

  /** The image data a content list carries, in order, text blocks skipped:
      what the receiving side reads back out of the message. */
  function ImagesCarried(content: seq<ContentBlock>): seq<string>
  {
    if |content| == 0 then []
    else if content[0].ImageBlock? then [content[0].source.data] + ImagesCarried(content[1..])
    else ImagesCarried(content[1..])
  }

  /** The text a content list carries, in order, image blocks skipped. */
  function TextsCarried(content: seq<ContentBlock>): seq<string>
  {
    if |content| == 0 then []
    else if content[0].TextBlock? then [content[0].text] + TextsCarried(content[1..])
    else TextsCarried(content[1..])
  }

  /** The message carries exactly the prompt as text and exactly the input
      images, in order, as images. */
  lemma {:induction false} ContentRoundTrip(prompt: string, images: seq<string>)
    ensures ImagesCarried(BuildContent(prompt, images)) == images
    ensures TextsCarried(BuildContent(prompt, images)) == [prompt]
  {
    var c := BuildContent(prompt, images);
    assert c[1..] == ImageBlocks(images);
    ImageBlocksRoundTrip(images);
  }

  lemma ImageBlocksRoundTrip(images: seq<string>)
    ensures ImagesCarried(ImageBlocks(images)) == images
    ensures TextsCarried(ImageBlocks(images)) == []
  {
    ImageBlocksCarryImages(images);
    ImageBlocksCarryNoText(images);
  }

  lemma {:induction false} ImageBlocksCarryImages(images: seq<string>)
    ensures ImagesCarried(ImageBlocks(images)) == images
  {
    if |images| > 0 {
      var rest := ImageBlocks(images[1..]);
      assert ImageBlocks(images) == [ImageBlockOf(images[0])] + rest;
      CarriedCons(ImageBlockOf(images[0]), rest);
      ImageBlocksCarryImages(images[1..]);
      assert [images[0]] + images[1..] == images;
    }
  }

  lemma {:induction false} ImageBlocksCarryNoText(images: seq<string>)
    ensures TextsCarried(ImageBlocks(images)) == []
  {
    if |images| > 0 {
      var rest := ImageBlocks(images[1..]);
      assert ImageBlocks(images) == [ImageBlockOf(images[0])] + rest;
      CarriedCons(ImageBlockOf(images[0]), rest);
      ImageBlocksCarryNoText(images[1..]);
    }
  }

  /** Reading back a content list whose first block is `head`. */
  lemma CarriedCons(head: ContentBlock, rest: seq<ContentBlock>)
    ensures ImagesCarried([head] + rest)
            == (if head.ImageBlock? then [head.source.data] else []) + ImagesCarried(rest)
    ensures TextsCarried([head] + rest)
            == (if head.TextBlock? then [head.text] else []) + TextsCarried(rest)
  {
    var c := [head] + rest;
    assert c[0] == head && c[1..] == rest;
  }

  function BuildRequest(prompt: string, images: seq<string>): Request
  {
    Request(ModelName, MaxTokens, Temperature, [Message("user", BuildContent(prompt, images))])
  }

  /** `response.content[0].text`. */
  function FirstText(reply: ServiceReply): Option<string>
  {
    if reply.Reply? && |reply.content| > 0 && reply.content[0].ReplyText?
    then Some(reply.content[0].text)
    else None
  }

  /** The shape the service accepts, stated on the parsed value: an object
      with a truthy `overallScore` of any type, a truthy `suggestions` of any
      type, and a `scores` object holding each of the five keys as a number.
      No range is imposed on any number. */
  predicate WellFormedReply(j: Json)
  {
    && j.JObj?
    && "overallScore" in j.fields && Truthy(j.fields["overallScore"])
    && "suggestions" in j.fields && Truthy(j.fields["suggestions"])
    && "scores" in j.fields && j.fields["scores"].JObj?
    && forall k :: k in RequiredScores ==>
         k in j.fields["scores"].fields && j.fields["scores"].fields[k].JNum?
  }

  /** The loop over the required keys: the first key, in order, whose value
      is not of type number. */
  function FirstBadScore(scores: Json, keys: seq<string>): (r: Option<string>)
    ensures r.None? <==> forall i :: 0 <= i < |keys| ==> IsNumber(Prop(scores, keys[i]))
    ensures r.Some? ==> exists i :: 0 <= i < |keys| && keys[i] == r.value
                          && !IsNumber(Prop(scores, keys[i]))
                          && forall l :: 0 <= l < i ==> IsNumber(Prop(scores, keys[l]))
  {
    if |keys| == 0 then None
    else if !IsNumber(Prop(scores, keys[0])) then Some(keys[0])
    else
      var r := FirstBadScore(scores, keys[1..]);
      assert r.Some? ==> exists i :: 1 <= i < |keys| && keys[i] == r.value
                          && !IsNumber(Prop(scores, keys[i]))
                          && forall l :: 0 <= l < i ==> IsNumber(Prop(scores, keys[l])) by {
        if r.Some? {
          var i :| 0 <= i < |keys| - 1 && keys[1..][i] == r.value
                   && !IsNumber(Prop(scores, keys[1..][i]))
                   && forall l :: 0 <= l < i ==> IsNumber(Prop(scores, keys[1..][l]));
          assert keys[i + 1] == r.value;
          forall l | 0 <= l < i + 1 ensures IsNumber(Prop(scores, keys[l])) {
            if l > 0 { assert keys[l] == keys[1..][l - 1]; }
          }
        }
      }
      assert r.None? ==> forall i :: 0 <= i < |keys| ==> IsNumber(Prop(scores, keys[i])) by {
        if r.None? {
          forall i | 0 <= i < |keys| ensures IsNumber(Prop(scores, keys[i])) {
            if i > 0 { assert keys[i] == keys[1..][i - 1]; }
          }
        }
      }
      r
  }

  /** The structural checks on the parsed reply. On success the object's own
      fields are returned; on failure, the reason, the score key named being
      the first one in `RequiredScores` that is not a number. */
  function Validate(j: Json): (r: Result<map<string, Json>, Fault>)
    ensures r.Success? <==> WellFormedReply(j)
    ensures r.Success? ==> j == JObj(r.value)
    ensures j.JNull? ==> r == Failure(NullReply)
    ensures (!j.JNull? && !(TruthyOpt(Prop(j, "overallScore")) && TruthyOpt(Prop(j, "scores"))
                            && TruthyOpt(Prop(j, "suggestions"))))
            ==> r == Failure(InvalidFormat)
    ensures r.Failure? && r.error.InvalidScore? ==>
              j.JObj? && "scores" in j.fields &&
              exists i :: 0 <= i < |RequiredScores| && r.error.key == RequiredScores[i]
                && (forall l :: 0 <= l < i ==> IsNumber(Prop(j.fields["scores"], RequiredScores[l])))
                && !IsNumber(Prop(j.fields["scores"], RequiredScores[i]))
  {
    if j.JNull? then Failure(NullReply)
    else if !TruthyOpt(Prop(j, "overallScore")) || !TruthyOpt(Prop(j, "scores"))
         || !TruthyOpt(Prop(j, "suggestions"))
    then Failure(InvalidFormat)
    else
      var scores := Prop(j, "scores").value;
      match FirstBadScore(scores, RequiredScores)
      case Some(k) => Failure(InvalidScore(k))
      case None =>
        assert forall k :: k in RequiredScores ==> IsNumber(Prop(scores, k)) by {
          forall k | k in RequiredScores ensures IsNumber(Prop(scores, k)) {
            var i :| 0 <= i < |RequiredScores| && RequiredScores[i] == k;
          }
        }
        Success(j.fields)
  }

  /** The overrides `{...result, location: '', department: '',
      workStation: '', imageUrls: []}` applies to the reply object. */
  const Overrides: map<string, Json> :=
    map["location" := JStr(""), "department" := JStr(""), "workStation" := JStr(""),
        "imageUrls" := JArr([])]

  /** The success value built from the validated reply object. */
  function Shape(fields: map<string, Json>): (a: Analysis)
    requires "overallScore" in fields && "suggestions" in fields
    requires "scores" in fields && fields["scores"].JObj?
    ensures a.overallScore == fields["overallScore"]
    ensures JObj(a.scores) == fields["scores"]
    ensures a.suggestions == fields["suggestions"]
    ensures a.location == "" && a.department == "" && a.workStation == "" && a.imageUrls == []
    ensures forall k :: k in fields && k !in NamedKeys ==> k in a.extra && a.extra[k] == fields[k]
  {
    Analysis("", "", "", fields["overallScore"], fields["scores"].fields, fields["suggestions"], [],
             map k | k in fields && k !in NamedKeys :: fields[k])
  }

  /** The record built by `Shape` is exactly the object the spread
      produces: the reply object with the four overrides on top. */
  lemma ShapeIsSpread(fields: map<string, Json>)
    requires "overallScore" in fields && "suggestions" in fields
    requires "scores" in fields && fields["scores"].JObj?
    ensures ToObject(Shape(fields)) == fields + Overrides
  {
  }

  /** The body of the inner `try`: clean the text, parse it, validate it
      and shape the result. */
  function Interpret(text: string, parse: string -> Option<Json>): (r: Result<Analysis, Fault>)
    ensures r.Success? <==> parse(Clean(text)).Some? && WellFormedReply(parse(Clean(text)).value)
    ensures parse(Clean(text)).None? ==> r == Failure(Unparsable)
    ensures r.Success? ==>
              var f := parse(Clean(text)).value.fields;
              && r.value.overallScore == f["overallScore"]
              && JObj(r.value.scores) == f["scores"]
              && r.value.suggestions == f["suggestions"]
              && r.value.location == "" && r.value.department == "" && r.value.workStation == ""
              && r.value.imageUrls == []
  {
    match parse(Clean(text))
    case None => Failure(Unparsable)
    case Some(j) =>
      match Validate(j)
      case Failure(fault) => Failure(fault)
      case Success(fields) => Success(Shape(fields))
  }

  /** Reading the reply text, outside the inner `try`, then the inner `try`. */
  function Evaluate(reply: ServiceReply, parse: string -> Option<Json>): Result<Analysis, Fault>
  {
    match FirstText(reply)
    case None => Failure(NoReplyText)
    case Some(text) => Interpret(text, parse)
  }

  /** The full call. Every failure, whether the SDK threw, the reply had no
      text, the text did not parse or the parsed value was refused, reaches
      the caller as `AnalysisFailed`. */
  function Analyze(prompt: string, images: seq<string>, service: Request -> ServiceReply,
                   parse: string -> Option<Json>): (r: Result<Analysis, string>)
    ensures r.Failure? ==> r.error == AnalysisFailed
    ensures r.Success? <==>
              var reply := service(BuildRequest(prompt, images));
              && FirstText(reply).Some?
              && parse(Clean(FirstText(reply).value)).Some?
              && WellFormedReply(parse(Clean(FirstText(reply).value)).value)
    ensures service(BuildRequest(prompt, images)).ServiceError? ==> r == Failure(AnalysisFailed)
    ensures r.Success? ==>
              var j := parse(Clean(FirstText(service(BuildRequest(prompt, images))).value)).value;
              WellFormedReply(j) && r.value == Shape(j.fields)
  {
    match Evaluate(service(BuildRequest(prompt, images)), parse)
    case Success(a) => Success(a)
    case Failure(_) => Failure(AnalysisFailed)
  }

  /** A reply with every required field set: the starting point of the
      examples below. */
  function SampleReply(overall: Json, scores: map<string, Json>, suggestions: Json): Json
  {
    JObj(map["overallScore" := overall, "scores" := JObj(scores), "suggestions" := suggestions])
  }

  function SampleScores(v: real): map<string, Json>
  {
    map["sort" := JNum(v), "setInOrder" := JNum(v), "shine" := JNum(v),
        "standardize" := JNum(v), "sustain" := JNum(v)]
  }

  lemma SampleWellFormed(overall: Json, v: real, suggestions: Json)
    requires Truthy(overall) && Truthy(suggestions)
    ensures WellFormedReply(SampleReply(overall, SampleScores(v), suggestions))
  {
    var j := SampleReply(overall, SampleScores(v), suggestions);
    assert j.fields["scores"] == JObj(SampleScores(v));
    forall k | k in RequiredScores
      ensures k in SampleScores(v) && SampleScores(v)[k].JNum?
    {
    }
  }

  /** Truthiness, not type, is what is checked of `overallScore` and
      `suggestions`: an overall score of 0 and empty suggestions are refused,
      while a string or array overall score is accepted. */
  lemma OverallScoreCheckedOnlyForTruthiness()
    ensures Validate(SampleReply(JNum(0.0), SampleScores(80.0), JStr("ok"))) == Failure(InvalidFormat)
    ensures Validate(SampleReply(JNum(80.0), SampleScores(80.0), JStr(""))) == Failure(InvalidFormat)
    ensures Validate(SampleReply(JStr("85"), SampleScores(80.0), JStr("ok"))).Success?
    ensures Validate(SampleReply(JArr([]), SampleScores(80.0), JBool(true))).Success?
  {
    assert Prop(SampleReply(JNum(0.0), SampleScores(80.0), JStr("ok")), "overallScore") == Some(JNum(0.0));
    assert Prop(SampleReply(JNum(80.0), SampleScores(80.0), JStr("")), "suggestions") == Some(JStr(""));
    SampleWellFormed(JStr("85"), 80.0, JStr("ok"));
    SampleWellFormed(JArr([]), 80.0, JBool(true));
  }

  /** The score check is `typeof === 'number'` with no bound: numbers far
      outside 0..100 pass. */
  lemma ScoresHaveNoRange()
    ensures Validate(SampleReply(JNum(1.0), SampleScores(-250.0), JStr("ok"))).Success?
    ensures Validate(SampleReply(JNum(1.0), SampleScores(1000.0), JStr("ok"))).Success?
  {
    SampleWellFormed(JNum(1.0), -250.0, JStr("ok"));
    SampleWellFormed(JNum(1.0), 1000.0, JStr("ok"));
  }

  /** A numeric string is not coerced to a number, and the key reported is
      the first one refused. */
  lemma NumericStringScoreRefused()
    ensures Validate(SampleReply(JNum(1.0), SampleScores(80.0)["shine" := JStr("80")], JStr("ok")))
            == Failure(InvalidScore("shine"))
  {
    var scores := JObj(SampleScores(80.0)["shine" := JStr("80")]);
    var j := SampleReply(JNum(1.0), scores.fields, JStr("ok"));
    assert Prop(j, "scores") == Some(scores);
    assert Prop(j, "overallScore") == Some(JNum(1.0));
    assert Prop(j, "suggestions") == Some(JStr("ok"));
    ShineIsFirstBadScore();
    ValidateRunsScoreLoop(j);
  }

  /** Once the three fields are truthy, the verdict is the score loop's. */
  lemma ValidateRunsScoreLoop(j: Json)
    requires j.JObj? && TruthyOpt(Prop(j, "overallScore")) && TruthyOpt(Prop(j, "suggestions"))
    requires TruthyOpt(Prop(j, "scores"))
    ensures FirstBadScore(Prop(j, "scores").value, RequiredScores).Some? ==>
              Validate(j) == Failure(InvalidScore(FirstBadScore(Prop(j, "scores").value, RequiredScores).value))
  {
  }

  /** The score loop over the sample with `shine` given as a string stops
      at `shine`, after passing `sort` and `setInOrder`. */
  lemma ShineIsFirstBadScore()
    ensures FirstBadScore(JObj(SampleScores(80.0)["shine" := JStr("80")]), RequiredScores) == Some("shine")
  {
    var scores := JObj(SampleScores(80.0)["shine" := JStr("80")]);
    assert Prop(scores, "shine") == Some(JStr("80"));
    assert FirstBadScore(scores, RequiredScores[2..]) == Some("shine");
    assert Prop(scores, "setInOrder") == Some(JNum(80.0));
    assert RequiredScores[2..] == RequiredScores[1..][1..];
    assert FirstBadScore(scores, RequiredScores[1..]) == Some("shine");
    assert Prop(scores, "sort") == Some(JNum(80.0));
  }


}
