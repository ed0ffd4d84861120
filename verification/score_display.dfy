/** The score panel: the fixed category list, the colour band of a score,
    the rows of the category breakdown and whether the suggestions card is
    shown. */
module ScoreDisplay {
  import opened Json
  import opened Types
  import opened Wrappers
  import Anthropic
  import Text

  datatype CategoryLabel = CategoryLabel(name: string, key: string)

  const Categories: seq<CategoryLabel> := [
    CategoryLabel("Sort", "sort"),
    CategoryLabel("Set in Order", "setInOrder"),
    CategoryLabel("Shine", "shine"),
    CategoryLabel("Standardize", "standardize"),
    CategoryLabel("Sustain", "sustain")
  ]

  const Green: string := "bg-green-500"
  const Yellow: string := "bg-yellow-500"
  const Red: string := "bg-red-500"

  /** The panel lists exactly the keys the service requires, in the same
      order, so every row it draws reads a key the service checked. */
  lemma CategoriesMatchRequiredScores()
    ensures |Categories| == |Anthropic.RequiredScores|
    ensures forall i :: 0 <= i < |Categories| ==> Categories[i].key == Anthropic.RequiredScores[i]
    ensures (set c | c in Categories :: c.key) == (set k | k in Anthropic.RequiredScores)
  {
  }

  /** `getScoreColor`: green from 90 up, yellow from 70 below 90, red below 70. */
  function ScoreColor(score: real): (cls: string)
    ensures cls == Green <==> score >= 90.0
    ensures cls == Yellow <==> 70.0 <= score < 90.0
    ensures cls == Red <==> score < 70.0
  {
    if score >= 90.0 then Green
    else if score >= 70.0 then Yellow
    else Red
  }

  /** How good a colour is: red below yellow below green. */
  function ColorRank(cls: string): nat
  {
    if cls == Green then 2 else if cls == Yellow then 1 else 0
  }

  /** A higher score never gets a worse colour. */
  lemma ScoreColorMonotone(s: real, t: real)
    requires s <= t
    ensures ColorRank(ScoreColor(s)) <= ColorRank(ScoreColor(t))
  {
  }

  /** One line of the category breakdown. */
  datatype Row = Row(name: string, score: real, color: string)

  /** The record holds a number under each listed key: what the breakdown
      reads with `analysis.scores[key]`. */
  predicate Displayable(a: Analysis)
  {
    forall i :: 0 <= i < |Categories| ==>
      Categories[i].key in a.scores && a.scores[Categories[i].key].JNum?
  }

  /** `categories.map(...)` over a list of categories. */
  function RowsFor(cats: seq<CategoryLabel>, scores: map<string, Json>): (rows: seq<Row>)
    requires forall i :: 0 <= i < |cats| ==> cats[i].key in scores && scores[cats[i].key].JNum?
    ensures |rows| == |cats|
    ensures forall i :: 0 <= i < |cats| ==>
              && rows[i].name == cats[i].name
              && scores[cats[i].key] == JNum(rows[i].score)
              && rows[i].color == ScoreColor(rows[i].score)
  {
    if |cats| == 0 then []
    else
      var v := scores[cats[0].key].n;
      [Row(cats[0].name, v, ScoreColor(v))] + RowsFor(cats[1..], scores)
  }

  /** The category breakdown: five rows in the fixed order, each with the
      category's score and its colour. */
  function CategoryRows(a: Analysis): (rows: seq<Row>)
    requires Displayable(a)
    ensures |rows| == 5
    ensures forall i :: 0 <= i < 5 ==>
              && rows[i].name == Categories[i].name
              && a.scores[Categories[i].key] == JNum(rows[i].score)
              && rows[i].color == ScoreColor(rows[i].score)
  {
    RowsFor(Categories, a.scores)
  }

  /** `{analysis.suggestions && <Card ...>}`. */
  predicate ShowsSuggestions(a: Analysis)
  {
    Truthy(a.suggestions)
  }

  /** Whatever the service accepts can be drawn: every category row has a
      number and the suggestions card is shown. */
  lemma AcceptedAnalysisDisplays(prompt: string, images: seq<string>,
                                 service: Anthropic.Request -> Anthropic.ServiceReply,
                                 parse: string -> Option<Json>)
    requires Anthropic.Analyze(prompt, images, service, parse).Success?
    ensures Displayable(Anthropic.Analyze(prompt, images, service, parse).value)
    ensures ShowsSuggestions(Anthropic.Analyze(prompt, images, service, parse).value)
  {
    var reply := service(Anthropic.BuildRequest(prompt, images));
    var j := parse(Text.Clean(Anthropic.FirstText(reply).value)).value;
    var a := Anthropic.Analyze(prompt, images, service, parse).value;
    assert Anthropic.Evaluate(reply, parse) == Anthropic.Interpret(Anthropic.FirstText(reply).value, parse);
    assert JObj(a.scores) == j.fields["scores"];
    forall i | 0 <= i < |Categories|
      ensures Categories[i].key in a.scores && a.scores[Categories[i].key].JNum?
    {
      CategoriesMatchRequiredScores();
      assert Categories[i].key in Anthropic.RequiredScores;
    }
  }

  /** The overall score is shown with `toFixed`, which only numbers have,
      yet the service lets a non-numeric overall score through. */
  lemma AcceptedOverallScoreNeedNotBeNumber()
    ensures var r := Anthropic.Analyze("", [], _ => Anthropic.Reply([Anthropic.ReplyText("{}")]),
                                       _ => Some(Anthropic.SampleReply(JStr("85"), Anthropic.SampleScores(80.0), JStr("ok"))));
            r.Success? && !r.value.overallScore.JNum?
  {
    Anthropic.OverallScoreCheckedOnlyForTruthiness();
  }
}
