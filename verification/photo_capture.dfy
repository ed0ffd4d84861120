/** The photo picker: which selections it keeps, what a submission sends,
    and the layout classes of the preview grid. The component's state is the
    pair (photos, loading); toasts are returned as notices, and the upload is
    a parameter `server` that answers one request. */
module PhotoCapture {
  import opened Wrappers
  import opened Json
  import opened Strings

  const MaxPhotos: nat := 4
  const ValidTypes: seq<string> := ["image/jpeg", "image/png", "image/heic", "image/heif"]

  /** A selected file; only its MIME type matters to the component. */
  datatype File = File(name: string, mimeType: string)

  datatype State = State(photos: seq<File>, loading: bool)

  /** The destructive toasts the component can show. */
  datatype Notice = TooManyPhotos | InvalidFileType | NoPhotosSelected | AnalysisError

  const Initial: State := State([], false)

  predicate IsValidType(f: File)
  {
    f.mimeType in ValidTypes
  }

  /** `files.filter(...)` on the MIME type whitelist. */
  function FilterValid(files: seq<File>): (r: seq<File>)
    ensures |r| <= |files|
    ensures forall i :: 0 <= i < |r| ==> IsValidType(r[i])
    ensures forall f :: multiset(r)[f] == if IsValidType(f) then multiset(files)[f] else 0
  {
    if |files| == 0 then []
    else
      var rest := FilterValid(files[1..]);
      assert files == [files[0]] + files[1..];
      assert multiset(files) == multiset{files[0]} + multiset(files[1..]);
      if IsValidType(files[0]) then [files[0]] + rest else rest
  }

  /** The filter works file by file: filtering a concatenation is
      concatenating the filtered parts, so the kept files stay in their
      original order. */
  lemma {:induction false} FilterDistributes(a: seq<File>, b: seq<File>)
    ensures FilterValid(a + b) == FilterValid(a) + FilterValid(b)
  {
    if |a| > 0 {
      assert (a + b)[1..] == a[1..] + b;
      assert (a + b)[0] == a[0];
      FilterDistributes(a[1..], b);
    } else {
      assert a + b == b;
    }
  }

  /** The filter keeps every file exactly when all are valid, and then it
      returns the selection itself, order included. */
  lemma FilterKeepsAllIffAllValid(files: seq<File>)
    ensures |FilterValid(files)| == |files| <==> forall i :: 0 <= i < |files| ==> IsValidType(files[i])
    ensures (forall i :: 0 <= i < |files| ==> IsValidType(files[i])) ==> FilterValid(files) == files
  {
    if AllValid(files) {
      FilterKeepsValid(files);
    } else {
      FilterDropsInvalid(files);
    }
  }

  lemma {:induction false} FilterKeepsValid(files: seq<File>)
    requires AllValid(files)
    ensures FilterValid(files) == files
  {
    if |files| > 0 {
      assert IsValidType(files[0]);
      assert AllValid(files[1..]) by {
        forall i | 0 <= i < |files[1..]| ensures IsValidType(files[1..][i]) {
          assert files[1..][i] == files[i + 1];
        }
      }
      FilterKeepsValid(files[1..]);
      assert [files[0]] + files[1..] == files;
    }
  }

  lemma {:induction false} FilterDropsInvalid(files: seq<File>)
    requires !AllValid(files)
    ensures |FilterValid(files)| < |files|
  {
    var i :| 0 <= i < |files| && !IsValidType(files[i]);
    if i > 0 {
      assert files[1..][i - 1] == files[i];
      FilterDropsInvalid(files[1..]);
    }
  }


  predicate AllValid(files: seq<File>)
  {
    forall i :: 0 <= i < |files| ==> IsValidType(files[i])
  }

  /** `handleFileSelect`: more than four files are refused first; then any
      file outside the whitelist refuses the whole selection; otherwise the
      selection replaces the photos. A refused selection changes nothing. */
  function SelectFiles(s: State, files: seq<File>): (r: (State, Option<Notice>))
    ensures |files| > MaxPhotos ==> r == (s, Some(TooManyPhotos))
    ensures |files| <= MaxPhotos && !AllValid(files) ==> r == (s, Some(InvalidFileType))
    ensures |files| <= MaxPhotos && AllValid(files) ==> r == (s.(photos := files), None)
  {
    if |files| > MaxPhotos then (s, Some(TooManyPhotos))
    else
      var valid := FilterValid(files);
      FilterKeepsAllIffAllValid(files);
      if |valid| != |files| then (s, Some(InvalidFileType))
      else (s.(photos := valid), None)
  }

  /** One entry of the form data: a field name and a file. */
  datatype FormEntry = FormEntry(field: string, file: File)

  /** The request the component sends. */
  datatype Upload = Upload(httpMethod: string, url: string, form: seq<FormEntry>)

  /** What `fetch` yields: a network error, or a response with its `ok`
      flag and the body `response.json()` produced (`None` if it threw). */
  datatype FetchOutcome = NetworkError | Response(ok: bool, body: Option<Json>)

  /** `photos.forEach(photo => formData.append('photos', photo))`. */
  function FormOf(photos: seq<File>): (r: seq<FormEntry>)
    ensures |r| == |photos|
    ensures forall i :: 0 <= i < |photos| ==> r[i] == FormEntry("photos", photos[i])
  {
    if |photos| == 0 then [] else [FormEntry("photos", photos[0])] + FormOf(photos[1..])
  }

  /** The files a form holds under `field`, in order: how the receiving
      side reads the upload back. */
  function FilesUnder(form: seq<FormEntry>, field: string): seq<File>
  {
    if |form| == 0 then []
    else if form[0].field == field then [form[0].file] + FilesUnder(form[1..], field)
    else FilesUnder(form[1..], field)
  }

  /** Reading the form back under `photos` gives exactly the photos, in
      order, and nothing is sent under any other field. */
  lemma FormRoundTrip(photos: seq<File>, other: string)
    requires other != "photos"
    ensures FilesUnder(FormOf(photos), "photos") == photos
    ensures FilesUnder(FormOf(photos), other) == []
  {
    FormCarriesPhotos(photos);
    FormCarriesNothingElse(photos, other);
  }

  lemma {:induction false} FormCarriesPhotos(photos: seq<File>)
    ensures FilesUnder(FormOf(photos), "photos") == photos
  {
    if |photos| > 0 {
      var head := FormEntry("photos", photos[0]);
      var rest := FormOf(photos[1..]);
      assert FormOf(photos) == [head] + rest;
      FilesUnderCons(head, rest, "photos");
      FormCarriesPhotos(photos[1..]);
      assert [photos[0]] + photos[1..] == photos;
    }
  }

  lemma {:induction false} FormCarriesNothingElse(photos: seq<File>, other: string)
    requires other != "photos"
    ensures FilesUnder(FormOf(photos), other) == []
  {
    if |photos| > 0 {
      var head := FormEntry("photos", photos[0]);
      var rest := FormOf(photos[1..]);
      assert FormOf(photos) == [head] + rest;
      FilesUnderCons(head, rest, other);
      FormCarriesNothingElse(photos[1..], other);
    }
  }

  /** Reading a form whose first entry is `head`. */
  lemma FilesUnderCons(head: FormEntry, rest: seq<FormEntry>, field: string)
    ensures FilesUnder([head] + rest, field)
            == (if head.field == field then [head.file] else []) + FilesUnder(rest, field)
  {
    var form := [head] + rest;
    assert form[0] == head && form[1..] == rest;
  }

  /** The first half of `handleSubmit`: with no photos it refuses and sends
      nothing; otherwise it raises `loading` and builds the upload. */
  function StartSubmit(s: State): (r: Result<(State, Upload), Notice>)
    ensures r.Failure? <==> |s.photos| == 0
    ensures r.Failure? ==> r.error == NoPhotosSelected
    ensures r.Success? ==> r.value.0 == s.(loading := true)
    ensures r.Success? ==> r.value.1.httpMethod == "POST" && r.value.1.url == "/api/analyze"
    ensures r.Success? ==>
              && |r.value.1.form| == |s.photos|
              && forall i :: 0 <= i < |s.photos| ==> r.value.1.form[i] == FormEntry("photos", s.photos[i])
  {
    if |s.photos| == 0 then Failure(NoPhotosSelected)
    else Success((s.(loading := true), Upload("POST", "/api/analyze", FormOf(s.photos))))
  }

  /** What a submission ends with: the analysis handed to the parent, or a
      notice. */
  datatype SubmitEnd = Completed(analysis: Json) | Refused(notice: Notice)

  /** The second half: a non-ok response, a network error or an unreadable
      body all end in the error toast; in every case the `finally` clears
      `loading` and the photos stay. */
  function FinishSubmit(s: State, outcome: FetchOutcome): (r: (State, SubmitEnd))
    ensures r.0 == s.(loading := false)
    ensures r.1.Completed? <==> outcome.Response? && outcome.ok && outcome.body.Some?
    ensures r.1.Completed? ==> r.1.analysis == outcome.body.value
    ensures r.1.Refused? ==> r.1.notice == AnalysisError
  {
    var finished := s.(loading := false);
    match outcome
    case NetworkError => (finished, Refused(AnalysisError))
    case Response(ok, body) =>
      if !ok then (finished, Refused(AnalysisError))
      else match body
        case None => (finished, Refused(AnalysisError))
        case Some(analysis) => (finished, Completed(analysis))
  }

  /** The upload a submission of `photos` sends. */
  function UploadOf(photos: seq<File>): Upload
  {
    Upload("POST", "/api/analyze", FormOf(photos))
  }

  /** `handleSubmit` run without interruption, `server` standing for the
      network. While the request is pending the picker buttons stay enabled,
      so a selection can fall between `StartSubmit` and `FinishSubmit`; that
      interleaving is stated by `SelectionDuringSubmit`. */
  function Submit(s: State, server: Upload -> FetchOutcome): (r: (State, SubmitEnd))
    ensures |s.photos| == 0 ==> r == (s, Refused(NoPhotosSelected))
    ensures |s.photos| > 0 ==> r.0 == s.(loading := false)
    ensures r.0.photos == s.photos
    ensures |s.photos| > 0 ==>
              var answer := server(UploadOf(s.photos));
              && (r.1.Completed? <==> answer.Response? && answer.ok && answer.body.Some?)
              && (r.1.Completed? ==> r.1.analysis == answer.body.value)
              && (r.1.Refused? ==> r.1.notice == AnalysisError)
  {
    match StartSubmit(s)
    case Failure(notice) => (s, Refused(notice))
    case Success(started) => FinishSubmit(started.0, server(started.1))
  }

  /** A submission that goes out sends every photo under `photos`, in
      order, and whatever the server answers, `loading` is false afterwards. */
  lemma SubmitSendsAllPhotosAndClearsLoading(s: State, server: Upload -> FetchOutcome)
    requires |s.photos| > 0
    ensures StartSubmit(s).Success?
    ensures StartSubmit(s).value.1.form == FormOf(s.photos)
    ensures !Submit(s, server).0.loading
    ensures var answer := server(StartSubmit(s).value.1);
            && (Submit(s, server).1.Completed? <==> answer.Response? && answer.ok && answer.body.Some?)
            && (Submit(s, server).1.Completed? ==> Submit(s, server).1.analysis == answer.body.value)
  {
  }

  /** The "Analyze Photos" button is rendered only with photos and is
      disabled while loading. */
  predicate AnalyzeEnabled(s: State)
  {
    |s.photos| > 0 && !s.loading
  }

  /** The button starts a submission every time it is enabled, and the
      submission disables it until it finishes, so no second request can be
      started through it while one is pending. */
  lemma AnalyzeButtonGuardsSubmission(s: State, outcome: FetchOutcome)
    requires AnalyzeEnabled(s)
    ensures StartSubmit(s).Success?
    ensures !AnalyzeEnabled(StartSubmit(s).value.0)
    ensures AnalyzeEnabled(FinishSubmit(StartSubmit(s).value.0, outcome).0)
  {
  }

  /** Every state the component can reach from its initial state holds at
      most four photos, all of whitelisted types, whether or not a request
      is pending. */
  predicate Reachable(s: State)
  {
    |s.photos| <= MaxPhotos && AllValid(s.photos)
  }

  /** Each event keeps `Reachable`, from any state, including a selection
      made while a request is pending. */
  lemma ReachableInvariant(s: State, files: seq<File>, outcome: FetchOutcome)
    requires Reachable(s)
    ensures Reachable(Initial)
    ensures Reachable(SelectFiles(s, files).0)
    ensures StartSubmit(s).Success? ==> Reachable(StartSubmit(s).value.0)
    ensures Reachable(FinishSubmit(s, outcome).0)
  {
  }

  /** A selection while a request is pending replaces the photos at once,
      keeps `loading` raised, and the request already sent still carries the
      earlier photos; when it finishes the component holds the new ones. */
  lemma SelectionDuringSubmit(s: State, files: seq<File>, outcome: FetchOutcome)
    requires |s.photos| > 0 && |files| <= MaxPhotos && AllValid(files)
    ensures var (pending, upload) := StartSubmit(s).value;
            var (during, _) := SelectFiles(pending, files);
            && upload == UploadOf(s.photos)
            && during == State(files, true)
            && FinishSubmit(during, outcome).0 == State(files, false)
  {
  }

  /** `getGridTemplate`: the four counts the picker allows have their own
      column classes; any other count falls back to two columns. */
  function GridTemplate(count: int): (cls: string)
    ensures count == 1 ==> cls == "grid-cols-1"
    ensures (count == 2 || count < 1 || count > 4) ==> cls == "grid-cols-2"
    ensures count == 3 ==> cls == "md:grid-cols-3 grid-cols-2"
    ensures count == 4 ==> cls == "grid-cols-2 md:grid-cols-4"
  {
    match count
    case 1 => "grid-cols-1"
    case 2 => "grid-cols-2"
    case 3 => "md:grid-cols-3 grid-cols-2"
    case 4 => "grid-cols-2 md:grid-cols-4"
    case _ => "grid-cols-2"
  }

  const SingleCard: string := "col-span-1 row-span-1 aspect-video"
  const SquareCard: string := "col-span-1 aspect-square"
  const WideCard: string := "col-span-2 md:col-span-2 aspect-video"

  /** How each of the three card classes reads: its column span and aspect. */
  lemma SingleCardShape()
    ensures HasPrefix(SingleCard, "col-span-1") && !HasPrefix(SingleCard, "col-span-2")
    ensures HasSuffix(SingleCard, "aspect-video") && !HasSuffix(SingleCard, "aspect-square")
  {
    var (span, aspect) := ("col-span-1", "aspect-video");
    assert SingleCard == span + " row-span-1 " + aspect;
    assert SingleCard[..10] == span && SingleCard[9] == '1';
    assert SingleCard[|SingleCard| - 12..] == aspect && SingleCard[|SingleCard| - 13] == ' ';
  }

  lemma SquareCardShape()
    ensures HasPrefix(SquareCard, "col-span-1") && !HasPrefix(SquareCard, "col-span-2")
    ensures HasSuffix(SquareCard, "aspect-square") && !HasSuffix(SquareCard, "aspect-video")
  {
    var (span, aspect) := ("col-span-1", "aspect-square");
    assert SquareCard == span + " " + aspect;
    assert SquareCard[..10] == span && SquareCard[9] == '1';
    assert SquareCard[|SquareCard| - 13..] == aspect && SquareCard[|SquareCard| - 12] == 's';
  }

  lemma WideCardShape()
    ensures HasPrefix(WideCard, "col-span-2") && !HasPrefix(WideCard, "col-span-1")
    ensures HasSuffix(WideCard, "aspect-video") && !HasSuffix(WideCard, "aspect-square")
  {
    var (span, aspect) := ("col-span-2", "aspect-video");
    assert WideCard == span + " md:col-span-2 " + aspect;
    assert WideCard[..10] == span && WideCard[9] == '2';
    assert WideCard[|WideCard| - 12..] == aspect && WideCard[|WideCard| - 13] == ' ';
  }

  /** `getCardSize`. */
  function CardSize(index: int, total: int): string
  {
    if total == 1 then SingleCard
    else if total == 2 then SquareCard
    else if total == 3 then (if index == 0 then WideCard else SquareCard)
    else if total == 4 then (if index == 0 then WideCard else SquareCard)
    else SquareCard
  }

  /** Only the first card of a three- or four-photo grid spans two columns;
      every other card spans one. */
  lemma CardSpans(index: int, total: int)
    ensures HasPrefix(CardSize(index, total), "col-span-2") <==> index == 0 && (total == 3 || total == 4)
    ensures HasPrefix(CardSize(index, total), "col-span-1") <==> !(index == 0 && (total == 3 || total == 4))
  {
    SingleCardShape();
    SquareCardShape();
    WideCardShape();
  }

  /** Wide-aspect cards are the first card of a three- or four-photo grid
      and the single photo of a one-photo grid; all others are square. */
  lemma CardAspects(index: int, total: int)
    ensures HasSuffix(CardSize(index, total), "aspect-video") <==> total == 1 || (index == 0 && (total == 3 || total == 4))
    ensures HasSuffix(CardSize(index, total), "aspect-square") <==> !(total == 1 || (index == 0 && (total == 3 || total == 4)))
  {
    SingleCardShape();
    SquareCardShape();
    WideCardShape();
  }

}
