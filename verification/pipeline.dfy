/**
 The hand-off between the backend and the two clients. FastAPI encodes
 whatever `process_image` returns as JSON with status 200, so the
 `({"error": ...}, code)` pairs reach the clients as a two-element JSON
 array, not as an error status; an exception that escapes the handler
 becomes a plain-text 500 response.
 */
module Pipeline {
  import opened Wrappers
  import opened Js
  import Dict
  import Text
  import ProcessImage
  import WordProcessing
  import UploadScreen
  import ResultScreen
  import WordScanner

  datatype HttpBody = JsonBody(value: Value) | TextBody(text: string)
  datatype HttpResponse = HttpResponse(status: int, body: HttpBody)

  /** A dictionary of strings as JSON object properties, in the same order. */
  function StrValues(d: Dict.Dict<string>): (fields: Dict.Dict<Value>)
    ensures |fields| == |d|
    ensures forall i :: 0 <= i < |d| ==> fields[i] == (d[i].0, Str(d[i].1))
  {
    if d == [] then [] else [(d[0].0, Str(d[0].1))] + StrValues(d[1..])
  }

  /** The JSON object of a successful reply, with keys in insertion order. */
  function FoundJson(complexWords: Dict.Dict<string>, originalText: string): Value {
    Obj([("complex_words", Obj(StrValues(complexWords))), ("original_text", Str(originalText))])
  }

  /** How the framework turns a reply into an HTTP response. */
  function Encode(r: ProcessImage.Reply): (resp: HttpResponse)
    ensures r.Uncaught? <==> resp.status == 500
    ensures !r.Uncaught? ==> resp.status == 200 && resp.body.JsonBody?
    ensures r.ErrorPair? ==> resp.body.value.Arr?
  {
    match r
    case Found(complexWords, originalText) => HttpResponse(200, JsonBody(FoundJson(complexWords, originalText)))
    case ErrorPair(error, code) =>
      HttpResponse(200, JsonBody(Arr([Obj([("error", Str(error))]), Num(code as real)])))
    case Uncaught => HttpResponse(500, TextBody("Internal Server Error"))
  }

  /** What axios makes of a response: the parsed JSON, or the raw text. */
  function ToAxios(resp: HttpResponse): UploadScreen.Transport {
    UploadScreen.Received(resp.status, match resp.body
      case JsonBody(v) => v
      case TextBody(t) => Str(t))
  }

  /** What `fetch` and `response.json()` make of a response. */
  function ToFetch(resp: HttpResponse): WordScanner.FetchOutcome {
    WordScanner.Responded(resp.status, match resp.body
      case JsonBody(v) => WordScanner.Json(v)
      case TextBody(_) => WordScanner.NotJson)
  }

  /** The route parameters `navigate('Result', { data })` passes. */
  function ResultParams(data: Value): Value {
    Obj([("data", data)])
  }

  lemma FoundJsonFields(complexWords: Dict.Dict<string>, originalText: string)
    ensures Get(FoundJson(complexWords, originalText), "complex_words") == Obj(StrValues(complexWords))
    ensures Get(FoundJson(complexWords, originalText), "original_text") == Str(originalText)
    ensures Get(FoundJson(complexWords, originalText), "definitions") == Undefined
  {
    var fields := FoundJson(complexWords, originalText).fields;
    assert Dict.Get(fields, "original_text") == Dict.Get(fields[1..], "original_text");
    assert Dict.Get(fields, "definitions") == Dict.Get(fields[1..], "definitions");
  }

  lemma StrValuesDistinct(d: Dict.Dict<string>)
    requires Dict.DistinctKeys(d)
    ensures Dict.DistinctKeys(StrValues(d))
  {
  }

  /** A successful reply has something to show exactly when it holds a
      complex word. */
  lemma FoundJsonHasWords(complexWords: Dict.Dict<string>, originalText: string)
    ensures UploadScreen.HasWords(FoundJson(complexWords, originalText)) <==> complexWords != []
  {
    FoundJsonFields(complexWords, originalText);
    NoKeysCases(Obj(StrValues(complexWords)));
  }

  /** An error pair is an array, which has neither `complex_words` nor
      `definitions`. */
  lemma ErrorPairHasNoWords(error: string, code: int)
    ensures !UploadScreen.HasWords(Encode(ProcessImage.ErrorPair(error, code)).body.value)
  {
  }

  /** Every error the backend reports, a refused content type, an empty OCR
      result or an exception, reaches the upload screen as a successful
      exchange with no words and is shown as "No Text Detected". */
  lemma BackendErrorShowsNoText(params: Value, baseUrl: string, r: ProcessImage.Reply)
    requires Truthy(UploadScreen.ImageUri(params))
    requires r.ErrorPair?
    ensures UploadScreen.UploadImage(params, baseUrl, _ => ToAxios(Encode(r))).effects
         == [UploadScreen.ShowAlert(UploadScreen.NoTextAlert)]
  {
    var post: UploadScreen.Request -> UploadScreen.Transport := _ => ToAxios(Encode(r));
    assert post(UploadScreen.BuildRequest(baseUrl, UploadScreen.ImageUri(params))) == ToAxios(Encode(r));
    ErrorPairHasNoWords(r.error, r.code);
    UploadScreen.SuccessOutcome(params, baseUrl, post);
  }

  /** An exception that escapes the handler is shown as "Upload Failed". */
  lemma UncaughtShowsUploadFailed(params: Value, baseUrl: string)
    requires Truthy(UploadScreen.ImageUri(params))
    ensures UploadScreen.UploadImage(params, baseUrl, _ => ToAxios(Encode(ProcessImage.Uncaught))).effects
         == [UploadScreen.ShowAlert(UploadScreen.UploadFailedAlert)]
  {
    UploadScreen.UploadOutcome(params, baseUrl, _ => ToAxios(Encode(ProcessImage.Uncaught)));
  }

  /** A successful reply navigates to the result list exactly when it holds
      at least one complex word, and shows "No Text Detected" otherwise. */
  lemma FoundNavigatesWhenWords(params: Value, baseUrl: string, complexWords: Dict.Dict<string>, text: string)
    requires Truthy(UploadScreen.ImageUri(params))
    ensures var r := ProcessImage.Found(complexWords, text);
            var effects := UploadScreen.UploadImage(params, baseUrl, _ => ToAxios(Encode(r))).effects;
            && (complexWords == [] ==> effects == [UploadScreen.ShowAlert(UploadScreen.NoTextAlert)])
            && (complexWords != [] ==>
                  effects == [UploadScreen.Navigate(UploadScreen.ResultRoute, FoundJson(complexWords, text))])
  {
    var r := ProcessImage.Found(complexWords, text);
    var post: UploadScreen.Request -> UploadScreen.Transport := _ => ToAxios(Encode(r));
    assert post(UploadScreen.BuildRequest(baseUrl, UploadScreen.ImageUri(params)))
        == UploadScreen.Received(200, FoundJson(complexWords, text));
    FoundJsonHasWords(complexWords, text);
    UploadScreen.SuccessOutcome(params, baseUrl, post);
  }

  /** The result list of a successful reply has one row per complex word,
      showing its definition, and nothing else. */
  lemma FoundListsEveryWordOnce(complexWords: Dict.Dict<string>, text: string)
    requires Dict.DistinctKeys(complexWords)
    ensures var view := ResultScreen.Render(ResultParams(FoundJson(complexWords, text)));
            && view.WordList?
            && multiset(view.rows) == multiset(StrValues(complexWords))
            && Dict.DistinctKeys(view.rows)
  {
    var data := FoundJson(complexWords, text);
    FoundJsonFields(complexWords, text);
    StrValuesDistinct(complexWords);
    assert ResultScreen.Data(ResultParams(data)) == data;
    forall e | e in StrValues(complexWords)
      ensures Renderable(e.1)
    {
      var i :| 0 <= i < |StrValues(complexWords)| && StrValues(complexWords)[i] == e;
    }
    ResultScreen.OneRowPerEntry(ResultParams(data));
  }

  /** End to end: whatever image the backend processes successfully, the
      upload screen lists its complex words, each once with its definition,
      or reports "No Text Detected" when there are none. */
  lemma ProcessedImageReachesResultList(params: Value, baseUrl: string, ocr: ProcessImage.Ocr,
                                        wordnet: WordProcessing.WordNet, image: ProcessImage.UploadFile)
    requires Truthy(UploadScreen.ImageUri(params))
    requires ProcessImage.Process(ocr, wordnet, image).Found?
    ensures var r := ProcessImage.Process(ocr, wordnet, image);
            var data := FoundJson(r.complexWords, r.originalText);
            var effects := UploadScreen.UploadImage(params, baseUrl, _ => ToAxios(Encode(r))).effects;
            var view := ResultScreen.Render(ResultParams(data));
            && (r.complexWords == [] ==> effects == [UploadScreen.ShowAlert(UploadScreen.NoTextAlert)])
            && (r.complexWords != [] ==>
                  && effects == [UploadScreen.Navigate(UploadScreen.ResultRoute, data)]
                  && view.WordList?
                  && multiset(view.rows) == multiset(StrValues(r.complexWords))
                  && Dict.DistinctKeys(view.rows))
  {
    var r := ProcessImage.Process(ocr, wordnet, image);
    ProcessImage.ComplexWordsOfText(wordnet, r.originalText);
    FoundNavigatesWhenWords(params, baseUrl, r.complexWords, r.originalText);
    FoundListsEveryWordOnce(r.complexWords, r.originalText);
  }

  /** The scanner's verdict on a reply: it stores a success whose text is
      non-empty, `{}` words included, and rejects every error pair and every
      escaped exception. */
  lemma ScannerVerdict(r: ProcessImage.Reply, uri: Value)
    requires r.Found? ==> r.originalText != ""
    ensures WordScanner.Succeeds(WordScanner.Photo(uri), _ => ToFetch(Encode(r))) <==> r.Found?
  {
    match r
    case Found(complexWords, originalText) =>
      FoundJsonFields(complexWords, originalText);
    case ErrorPair(_, _) =>
    case Uncaught =>
  }

  /** The scanner stores every successful reply of the backend, since the
      OCR text of a success is never empty, and nothing else. */
  lemma ScannerAcceptsExactlyFound(ocr: ProcessImage.Ocr, wordnet: WordProcessing.WordNet,
                                   image: ProcessImage.UploadFile, uri: Value)
    ensures var r := ProcessImage.Process(ocr, wordnet, image);
            WordScanner.Succeeds(WordScanner.Photo(uri), _ => ToFetch(Encode(r))) <==> r.Found?
  {
    ScannerVerdict(ProcessImage.Process(ocr, wordnet, image), uri);
  }

  /** A payload with only `definitions` passes the upload
      screen but shows "No results found". */
  lemma DefinitionsOnlyShowsNoResults(definitions: Dict.Dict<Value>)
    requires definitions != []
    ensures var payload := Obj([("definitions", Obj(definitions))]);
            && UploadScreen.HasWords(payload)
            && ResultScreen.Render(ResultParams(payload)) == ResultScreen.NoResults
  {
    var payload := Obj([("definitions", Obj(definitions))]);
    assert Dict.Get(payload.fields[1..], "complex_words") == None;
    assert Get(payload, "complex_words") == Undefined;
    assert Get(payload, "definitions") == Obj(definitions);
    NoKeysCases(Obj(definitions));
    assert ResultScreen.Data(ResultParams(payload)) == payload;
  }

  /** A payload with `complex_words: {}` beside a non-empty `definitions`
      passes the upload screen and shows the list header with no rows. */
  lemma EmptyWordsShowsEmptyList(definitions: Dict.Dict<Value>)
    requires definitions != []
    ensures var payload := Obj([("complex_words", EmptyObject), ("definitions", Obj(definitions))]);
            && UploadScreen.HasWords(payload)
            && ResultScreen.Render(ResultParams(payload)) == ResultScreen.WordList([])
  {
    var payload := Obj([("complex_words", EmptyObject), ("definitions", Obj(definitions))]);
    assert Get(payload, "complex_words") == EmptyObject;
    assert Dict.Get(payload.fields, "definitions") == Dict.Get(payload.fields[1..], "definitions");
    assert Get(payload, "definitions") == Obj(definitions);
    NoKeysCases(Obj(definitions));
    assert ResultScreen.Data(ResultParams(payload)) == payload;
    ResultScreen.EmptyWordsListNothing(ResultParams(payload));
  }

  /** The two screens disagree on what counts as "no words": payloads that
      the upload screen accepts because of `definitions` show "No results
      found", or the header with no rows, on the result screen. */
  lemma HandOffMismatch(definitions: Dict.Dict<Value>)
    requires definitions != []
    ensures var onlyDefinitions := Obj([("definitions", Obj(definitions))]);
            && UploadScreen.HasWords(onlyDefinitions)
            && ResultScreen.Render(ResultParams(onlyDefinitions)) == ResultScreen.NoResults
    ensures var emptyWords := Obj([("complex_words", EmptyObject), ("definitions", Obj(definitions))]);
            && UploadScreen.HasWords(emptyWords)
            && ResultScreen.Render(ResultParams(emptyWords)) == ResultScreen.WordList([])
  {
    DefinitionsOnlyShowsNoResults(definitions);
    EmptyWordsShowsEmptyList(definitions);
  }
}
