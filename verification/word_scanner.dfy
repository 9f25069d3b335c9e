/**
 The `WordScanner` component of the mobile app: one press of "Take
 Picture" clears the previous result, captures a photo, posts it with
 `fetch`, and stores the words and the text only when the response has the
 expected shape. The camera and the network are parameters.
 */
module WordScanner {
  import opened Wrappers
  import opened Js
  import opened Ui
  import Dict

  const ApiUrl := "http://localhost:8000/api/v1/process-image"
  const NotReadyAlert := Alert("Error", "Camera is not ready")
  const FailureAlert := Alert("Error", "Failed to process image. Please try again.")

  /** The component state the handler writes. */
  datatype State = State(words: Value, originalText: Value, isProcessing: bool)

  /** The file part appended to the form under the name `image`. */
  datatype FilePart = FilePart(uri: Value, mimeType: string, name: string)

  datatype Request = Request(url: string, verb: string, field: string, part: FilePart,
                             contentType: string, accept: string)

  /** What awaiting `takePictureAsync` gives. */
  datatype Capture = Photo(uri: Value) | CaptureFailed

  /** A response body: JSON that `response.json()` parses, or anything else. */
  datatype Body = Json(value: Value) | NotJson

  /** What awaiting `fetch` gives: a response, or a rejection. */
  datatype FetchOutcome = Responded(status: int, body: Body) | Rejected

  /** What the handler does, in order. */
  datatype Event =
    | SetProcessing(processing: bool)
    | SetWords(words: Value)
    | SetOriginalText(text: Value)
    | Send(request: Request)
    | ShowAlert(alert: Alert)

  /** The state after one event: writes change their field, the rest nothing. */
  function ApplyOne(s: State, e: Event): State {
    match e
    case SetProcessing(p) => s.(isProcessing := p)
    case SetWords(w) => s.(words := w)
    case SetOriginalText(t) => s.(originalText := t)
    case _ => s
  }

  /** The state after the writes among `events`, in order. */
  function Apply(s: State, events: seq<Event>): State
    decreases |events|
  {
    if events == [] then s else Apply(ApplyOne(s, events[0]), events[1..])
  }

  lemma {:induction false} ApplyAppend(s: State, a: seq<Event>, b: seq<Event>)
    ensures Apply(s, a + b) == Apply(Apply(s, a), b)
    decreases |a|
  {
    if a != [] {
      assert (a + b)[0] == a[0] && (a + b)[1..] == a[1..] + b;
      ApplyAppend(ApplyOne(s, a[0]), a[1..], b);
    } else {
      assert a + b == b;
    }
  }

  /** The three writes that clear the previous result. */
  const Reset: seq<Event> := [SetProcessing(true), SetWords(EmptyObject), SetOriginalText(Str(""))]

  function BuildRequest(uri: Value): Request {
    Request(ApiUrl, "POST", "image", FilePart(uri, "image/jpeg", "photo.jpg"),
            "multipart/form-data", "application/json")
  }

  /** The response-format check: both fields truthy, so `{}` passes and `''` does not. */
  predicate Accepted(result: Value) {
    !IsNullish(result) && Truthy(Get(result, "complex_words")) && Truthy(Get(result, "original_text"))
  }

  /** A response the handler keeps: 2xx, parsed as JSON, and of the
      expected shape. */
  predicate Valid(outcome: FetchOutcome) {
    outcome.Responded? && IsSuccessStatus(outcome.status) && outcome.body.Json? && Accepted(outcome.body.value)
  }

  /** What the handler does with the outcome of `fetch`: the two result
      writes for a valid response, the failure alert otherwise. */
  function Handle(outcome: FetchOutcome): seq<Event> {
    if Valid(outcome) then
      [SetWords(Get(outcome.body.value, "complex_words")), SetOriginalText(Get(outcome.body.value, "original_text"))]
    else [ShowAlert(FailureAlert)]
  }

  /** The events between the reset and the final write: the request, if one
      is made, then the two result writes or the failure alert. */
  function Middle(capture: Capture, fetch: Request -> FetchOutcome): seq<Event> {
    match capture
    case CaptureFailed => [ShowAlert(FailureAlert)]
    case Photo(uri) => [Send(BuildRequest(uri))] + Handle(fetch(BuildRequest(uri)))
  }

  /** `takePicture`. */
  function TakePicture(cameraReady: bool, capture: Capture, fetch: Request -> FetchOutcome): (events: seq<Event>)
    ensures !cameraReady ==> events == [ShowAlert(NotReadyAlert)]
    ensures cameraReady ==> |events| > 3 && events[..3] == Reset && events[|events| - 1] == SetProcessing(false)
  {
    if !cameraReady then [ShowAlert(NotReadyAlert)]
    else Reset + Middle(capture, fetch) + [SetProcessing(false)]
  }

  /** The photo was taken, sent, answered with a 2xx status and parsed, and
      the payload passed the format check. */
  predicate Succeeds(capture: Capture, fetch: Request -> FetchOutcome) {
    capture.Photo? && Valid(fetch(BuildRequest(capture.uri)))
  }

  /** Without a camera, only the "not ready" alert: no state changes. */
  lemma NotReadyChangesNothing(s: State, capture: Capture, fetch: Request -> FetchOutcome)
    ensures Apply(s, TakePicture(false, capture, fetch)) == s
    ensures TakePicture(false, capture, fetch) == [ShowAlert(NotReadyAlert)]
  {
  }

  /** The state right after the reset, whatever it was before. */
  const Cleared := State(EmptyObject, Str(""), true)

  lemma ResetClears(s: State)
    ensures Apply(s, Reset) == Cleared
  {
    assert Reset == [Reset[0]] + ([Reset[1]] + [Reset[2]]);
    ApplyAppend(s, [Reset[0]], [Reset[1]] + [Reset[2]]);
    ApplyAppend(ApplyOne(s, Reset[0]), [Reset[1]], [Reset[2]]);
  }

  /** Requests and alerts leave the state as it is. */
  lemma {:induction false} NoWritesKeepState(s: State, events: seq<Event>)
    requires forall i :: 0 <= i < |events| ==> events[i].Send? || events[i].ShowAlert?
    ensures Apply(s, events) == s
    decreases |events|
  {
    if events != [] {
      NoWritesKeepState(s, events[1..]);
    }
  }

  /** A valid response writes its two fields into the cleared state. */
  lemma HandleValid(outcome: FetchOutcome)
    requires Valid(outcome)
    ensures Apply(Cleared, Handle(outcome))
         == State(Get(outcome.body.value, "complex_words"), Get(outcome.body.value, "original_text"), true)
  {
    var words := Get(outcome.body.value, "complex_words");
    var text := Get(outcome.body.value, "original_text");
    var h := Handle(outcome);
    assert h == [SetWords(words), SetOriginalText(text)];
    var s1 := State(words, Str(""), true);
    assert Apply(Cleared, h) == Apply(s1, h[1..]);
    assert Apply(s1, h[1..]) == Apply(State(words, text, true), h[1..][1..]);
    assert h[1..][1..] == [];
  }

  lemma MiddleOnSuccess(capture: Capture, fetch: Request -> FetchOutcome)
    requires Succeeds(capture, fetch)
    ensures var result := fetch(BuildRequest(capture.uri)).body.value;
            Apply(Cleared, Middle(capture, fetch))
              == State(Get(result, "complex_words"), Get(result, "original_text"), true)
  {
    var request := BuildRequest(capture.uri);
    ApplyAppend(Cleared, [Send(request)], Handle(fetch(request)));
    HandleValid(fetch(request));
  }

  lemma MiddleOnFailure(capture: Capture, fetch: Request -> FetchOutcome)
    requires !Succeeds(capture, fetch)
    ensures Apply(Cleared, Middle(capture, fetch)) == Cleared
  {
    var m := Middle(capture, fetch);
    assert forall i :: 0 <= i < |m| ==> m[i].Send? || m[i].ShowAlert?;
    NoWritesKeepState(Cleared, m);
  }

  /** Between reset and the final write, only a successful response writes. */
  lemma MiddleState(capture: Capture, fetch: Request -> FetchOutcome)
    ensures Succeeds(capture, fetch) ==>
              var result := fetch(BuildRequest(capture.uri)).body.value;
              Apply(Cleared, Middle(capture, fetch))
                == State(Get(result, "complex_words"), Get(result, "original_text"), true)
    ensures !Succeeds(capture, fetch) ==> Apply(Cleared, Middle(capture, fetch)) == Cleared
  {
    if Succeeds(capture, fetch) {
      MiddleOnSuccess(capture, fetch);
    } else {
      MiddleOnFailure(capture, fetch);
    }
  }

  /** With a camera, the handler ends with `isProcessing` false; on success
      the words and the text come from the response; on any failure,
      whatever its cause, the result stays cleared. */
  lemma TakePictureFinalState(s: State, capture: Capture, fetch: Request -> FetchOutcome)
    ensures var final := Apply(s, TakePicture(true, capture, fetch));
            && !final.isProcessing
            && (Succeeds(capture, fetch) ==>
                  var result := fetch(BuildRequest(capture.uri)).body.value;
                  final.words == Get(result, "complex_words") && final.originalText == Get(result, "original_text"))
            && (!Succeeds(capture, fetch) ==> final.words == EmptyObject && final.originalText == Str(""))
  {
    var middle := Middle(capture, fetch);
    ApplyAppend(s, Reset, middle + [SetProcessing(false)]);
    ResetClears(s);
    ApplyAppend(Cleared, middle, [SetProcessing(false)]);
    MiddleState(capture, fetch);
    assert TakePicture(true, capture, fetch) == Reset + (middle + [SetProcessing(false)]);
  }

  /** The alerts among `events`, in order. */
  function Alerts(events: seq<Event>): seq<Alert> {
    if events == [] then []
    else (if events[0].ShowAlert? then [events[0].alert] else []) + Alerts(events[1..])
  }

  lemma {:induction false} AlertsAppend(a: seq<Event>, b: seq<Event>)
    ensures Alerts(a + b) == Alerts(a) + Alerts(b)
  {
    if a == [] {
      assert a + b == b;
    } else {
      assert (a + b)[0] == a[0] && (a + b)[1..] == a[1..] + b;
      AlertsAppend(a[1..], b);
    }
  }

  lemma {:induction false} NoAlerts(events: seq<Event>)
    requires forall i :: 0 <= i < |events| ==> !events[i].ShowAlert?
    ensures Alerts(events) == []
  {
    if events != [] {
      NoAlerts(events[1..]);
    }
  }

  lemma HandleAlerts(outcome: FetchOutcome)
    ensures Valid(outcome) ==> Alerts(Handle(outcome)) == []
    ensures !Valid(outcome) ==> Alerts(Handle(outcome)) == [FailureAlert]
  {
    if Valid(outcome) {
      NoAlerts(Handle(outcome));
    } else {
      assert Handle(outcome)[1..] == [];
    }
  }

  lemma MiddleAlerts(capture: Capture, fetch: Request -> FetchOutcome)
    ensures Succeeds(capture, fetch) ==> Alerts(Middle(capture, fetch)) == []
    ensures !Succeeds(capture, fetch) ==> Alerts(Middle(capture, fetch)) == [FailureAlert]
  {
    match capture
    case CaptureFailed =>
      assert Middle(capture, fetch)[1..] == [];
    case Photo(uri) =>
      var request := BuildRequest(uri);
      HandleAlerts(fetch(request));
      AlertsAppend([Send(request)], Handle(fetch(request)));
      assert [Send(request)][1..] == [];
  }

  /** With a camera, a success shows no alert and any failure, whatever its
      cause, shows exactly one, always the same. */
  lemma TakePictureAlerts(capture: Capture, fetch: Request -> FetchOutcome)
    ensures Succeeds(capture, fetch) ==> Alerts(TakePicture(true, capture, fetch)) == []
    ensures !Succeeds(capture, fetch) ==> Alerts(TakePicture(true, capture, fetch)) == [FailureAlert]
  {
    var middle := Middle(capture, fetch);
    assert TakePicture(true, capture, fetch) == (Reset + middle) + [SetProcessing(false)];
    AlertsAppend(Reset + middle, [SetProcessing(false)]);
    AlertsAppend(Reset, middle);
    NoAlerts(Reset);
    NoAlerts([SetProcessing(false)]);
    MiddleAlerts(capture, fetch);
  }

  /** `{}` is an acceptable `complex_words`, an empty `original_text` is not. */
  lemma FormatCheckExamples(text: string)
    requires text != []
    ensures Accepted(Obj([("complex_words", EmptyObject), ("original_text", Str(text))]))
    ensures !Accepted(Obj([("complex_words", Obj([("ephemeral", Str("lasting a very short time"))])),
                           ("original_text", Str(""))]))
  {
    var ok := Obj([("complex_words", EmptyObject), ("original_text", Str(text))]);
    assert Dict.Get(ok.fields, "original_text") == Dict.Get(ok.fields[1..], "original_text");
    var bad := Obj([("complex_words", Obj([("ephemeral", Str("lasting a very short time"))])),
                    ("original_text", Str(""))]);
    assert Dict.Get(bad.fields, "original_text") == Dict.Get(bad.fields[1..], "original_text");
  }
}
