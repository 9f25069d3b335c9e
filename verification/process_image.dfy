/**
 The `process_image` endpoint of `app/main.py`: validate the declared content
 type, run OCR on the uploaded bytes, and collect the complex words of the
 text together with their definitions.

 OCR and WordNet are parameters: `ocr` stands for
 `ocr.process_image_file`, which may raise, and `wordnet` for the corpus
 behind `get_word_definition`.
 */
module ProcessImage {
  import opened Wrappers
  import opened Text
  import opened Dict
  import opened WordProcessing

  newtype byte = x: int | 0 <= x < 256

  /** The exceptions the endpoint tells apart: a `ValueError` with its
      message, and anything else. */
  datatype Exception = ValueError(message: string) | OtherException

  /** The outcome of a Python call that may raise. */
  datatype Raising<T> = Returned(value: T) | Raised(exception: Exception)

  /** The uploaded part: its declared content type (`None` when the part has
      no Content-Type header) and what reading its bytes gives. */
  datatype UploadFile = UploadFile(contentType: Option<string>, content: Raising<seq<byte>>)

  /** What `process_image` hands back to the framework: the success
      dictionary, an `({"error": ...}, code)` pair, or an exception that
      escapes the handler. */
  datatype Reply =
    | Found(complexWords: Dict<string>, originalText: string)
    | ErrorPair(error: string, code: int)
    | Uncaught

  type Ocr = seq<byte> -> Raising<string>

  const NotAnImageMessage := "Uploaded file must be an image"
  const NoTextMessage := "No text could be extracted from the image"
  const UnexpectedMessage := "An unexpected error occurred while processing the image"

  predicate StartsWith(s: string, prefix: string) {
    |prefix| <= |s| && s[..|prefix|] == prefix
  }

  /** The key a token of the OCR text is filed under: `word.strip().lower()`. */
  function Candidate(token: string): string {
    Lower(Strip(token))
  }

  /** A key is kept when it is complex and WordNet gives it a non-empty definition. */
  predicate Qualifies(wordnet: WordNet, key: string) {
    IsComplexWord(key) && IsDefinition(GetWordDefinition(wordnet, key))
  }

  /** The definition stored for a qualifying key. */
  function Definition(wordnet: WordNet, key: string): string
    requires Qualifies(wordnet, key)
  {
    GetWordDefinition(wordnet, key).value
  }

  /** The keys the tokens are filed under, token by token. */
  function Candidates(tokens: seq<string>): (keys: seq<string>)
    ensures |keys| == |tokens|
    ensures forall i :: 0 <= i < |tokens| ==> keys[i] == Candidate(tokens[i])
  {
    seq(|tokens|, i requires 0 <= i < |tokens| => Candidate(tokens[i]))
  }

  /** One iteration of the loop, once the token has become its key. */
  function Step(wordnet: WordNet, cw: Dict<string>, key: string): Dict<string> {
    if Qualifies(wordnet, key) then Put(cw, key, Definition(wordnet, key)) else cw
  }

  /** The dictionary after the loop has run over the given keys. */
  function Collect(wordnet: WordNet, keys: seq<string>): Dict<string> {
    if keys == [] then []
    else Step(wordnet, Collect(wordnet, keys[..|keys| - 1]), keys[|keys| - 1])
  }

  /** The `complex_words` dictionary after the loop over `tokens`. */
  function ComplexWords(wordnet: WordNet, tokens: seq<string>): Dict<string> {
    Collect(wordnet, Candidates(tokens))
  }

  /** Reference definition: the qualifying keys, one per qualifying token,
      repeats included, in token order. */
  function QualifyingKeys(wordnet: WordNet, keys: seq<string>): seq<string> {
    if keys == [] then []
    else
      var key := keys[|keys| - 1];
      QualifyingKeys(wordnet, keys[..|keys| - 1]) + (if Qualifies(wordnet, key) then [key] else [])
  }

  /** Each element at its first occurrence only. */
  function FirstOccurrences(xs: seq<string>): seq<string> {
    if xs == [] then []
    else
      var init := xs[..|xs| - 1];
      FirstOccurrences(init) + (if xs[|xs| - 1] in init then [] else [xs[|xs| - 1]])
  }

  predicate Distinct(xs: seq<string>) {
    forall i, j :: 0 <= i < j < |xs| ==> xs[i] != xs[j]
  }

  /** Dropping repeats keeps every element, once. */
  lemma {:induction false} FirstOccurrencesSpec(xs: seq<string>)
    ensures forall x :: x in FirstOccurrences(xs) <==> x in xs
    ensures Distinct(FirstOccurrences(xs))
  {
    if xs != [] {
      var init := xs[..|xs| - 1];
      FirstOccurrencesSpec(init);
      assert xs == init + [xs[|xs| - 1]];
    }
  }

  /** A key is among the qualifying keys exactly when it occurs and qualifies. */
  lemma {:induction false} QualifyingKeysMembers(wordnet: WordNet, keys: seq<string>, key: string)
    ensures key in QualifyingKeys(wordnet, keys) <==> key in keys && Qualifies(wordnet, key)
  {
    if keys != [] {
      var init := keys[..|keys| - 1];
      QualifyingKeysMembers(wordnet, init, key);
      assert keys == init + [keys[|keys| - 1]];
    }
  }

  /** The loop keeps exactly the first occurrence of each qualifying key, in
      order, and stores with each key its own definition. */
  lemma {:induction false} CollectAgreesWithReference(wordnet: WordNet, keys: seq<string>)
    ensures Keys(Collect(wordnet, keys)) == FirstOccurrences(QualifyingKeys(wordnet, keys))
    ensures forall e :: e in Collect(wordnet, keys) ==>
              Qualifies(wordnet, e.0) && e.1 == Definition(wordnet, e.0)
  {
    if keys != [] {
      var init := keys[..|keys| - 1];
      var key := keys[|keys| - 1];
      var cw := Collect(wordnet, init);
      CollectAgreesWithReference(wordnet, init);
      var q := QualifyingKeys(wordnet, init);
      FirstOccurrencesSpec(q);
      if Qualifies(wordnet, key) {
        var q' := q + [key];
        assert QualifyingKeys(wordnet, keys) == q';
        assert q'[..|q'| - 1] == q;
        PutEntries(cw, key, Definition(wordnet, key));
      } else {
        assert QualifyingKeys(wordnet, keys) == q;
      }
    }
  }

  /** The stored dictionary has no repeated key. */
  lemma CollectDistinct(wordnet: WordNet, keys: seq<string>)
    ensures DistinctKeys(Collect(wordnet, keys))
  {
    var cw := Collect(wordnet, keys);
    CollectAgreesWithReference(wordnet, keys);
    FirstOccurrencesSpec(QualifyingKeys(wordnet, keys));
    assert forall i :: 0 <= i < |cw| ==> cw[i].0 == Keys(cw)[i];
  }

  /** Seen as a map, the dictionary holds exactly the qualifying keys, each
      with its definition: nothing missing, nothing extra. */
  lemma CollectAsMap(wordnet: WordNet, keys: seq<string>)
    ensures forall key :: key in ToMap(Collect(wordnet, keys)) <==> key in keys && Qualifies(wordnet, key)
    ensures forall key :: key in ToMap(Collect(wordnet, keys)) ==>
              Qualifies(wordnet, key) && ToMap(Collect(wordnet, keys))[key] == Definition(wordnet, key)
  {
    var cw := Collect(wordnet, keys);
    CollectAgreesWithReference(wordnet, keys);
    FirstOccurrencesSpec(QualifyingKeys(wordnet, keys));
    forall key
      ensures key in ToMap(cw) <==> key in keys && Qualifies(wordnet, key)
    {
      QualifyingKeysMembers(wordnet, keys, key);
    }
    forall key | key in ToMap(cw)
      ensures Qualifies(wordnet, key) && ToMap(cw)[key] == Definition(wordnet, key)
    {
      GetIsEntry(cw, key);
    }
  }

  /** How the two `except` clauses turn an exception into a reply. */
  function Caught(e: Exception): (r: Reply)
    ensures r.ErrorPair?
    ensures e.ValueError? ==> r == ErrorPair(e.message, 400)
    ensures e.OtherException? ==> r == ErrorPair(UnexpectedMessage, 500)
  {
    match e
    case ValueError(message) => ErrorPair(message, 400)
    case OtherException => ErrorPair(UnexpectedMessage, 500)
  }

  /** `process_image`. */
  function Process(ocr: Ocr, wordnet: WordNet, image: UploadFile): (r: Reply)
    ensures r.Uncaught? <==> image.contentType.None?
    ensures image.contentType.Some? && !StartsWith(image.contentType.value, "image/") ==>
              r == ErrorPair(NotAnImageMessage, 400)
    ensures r.Found? <==>
              && image.contentType.Some? && StartsWith(image.contentType.value, "image/")
              && image.content.Returned?
              && ocr(image.content.value).Returned?
              && ocr(image.content.value).value != ""
    ensures r.Found? ==> r.originalText == ocr(image.content.value).value
    ensures r.Found? ==> r.complexWords == ComplexWords(wordnet, Split(r.originalText))
    ensures r.ErrorPair? ==> r.code == 400 || (r.code == 500 && r.error == UnexpectedMessage)
  {
    match image.contentType
    case None => Uncaught
    case Some(contentType) =>
      if !StartsWith(contentType, "image/") then ErrorPair(NotAnImageMessage, 400)
      else
        match image.content
        case Raised(e) => Caught(e)
        case Returned(bytes) =>
          match ocr(bytes)
          case Raised(e) => Caught(e)
          case Returned(text) =>
            if text == "" then ErrorPair(NoTextMessage, 400)
            else Found(ComplexWords(wordnet, Split(text)), text)
  }

  /** A part that is not declared as an image is refused before its bytes are
      read or OCR runs: the reply does not depend on either. */
  lemma NonImageNeverReadsOrOcrs(ocr1: Ocr, ocr2: Ocr, wordnet: WordNet, contentType: string,
                                 content1: Raising<seq<byte>>, content2: Raising<seq<byte>>)
    requires !StartsWith(contentType, "image/")
    ensures Process(ocr1, wordnet, UploadFile(Some(contentType), content1))
         == Process(ocr2, wordnet, UploadFile(Some(contentType), content2))
         == ErrorPair(NotAnImageMessage, 400)
  {
  }

  /** Empty OCR text gives the "no text" error and no `complex_words` at all. */
  lemma EmptyTextIsAnError(ocr: Ocr, wordnet: WordNet, image: UploadFile)
    requires image.contentType.Some? && StartsWith(image.contentType.value, "image/")
    requires image.content.Returned? && ocr(image.content.value) == Returned("")
    ensures Process(ocr, wordnet, image) == ErrorPair(NoTextMessage, 400)
  {
  }

  /** A `ValueError` reaches the caller as its message with code 400, any
      other exception as the fixed message with code 500. */
  lemma OcrExceptionMapping(ocr: Ocr, wordnet: WordNet, image: UploadFile, e: Exception)
    requires image.contentType.Some? && StartsWith(image.contentType.value, "image/")
    requires image.content.Returned? && ocr(image.content.value) == Raised(e)
    ensures e.ValueError? ==> Process(ocr, wordnet, image) == ErrorPair(e.message, 400)
    ensures e.OtherException? ==> Process(ocr, wordnet, image) == ErrorPair(UnexpectedMessage, 500)
  {
  }

  /** The tokens, lower-cased. */
  function LowerAll(tokens: seq<string>): (lowered: seq<string>)
    ensures |lowered| == |tokens|
    ensures forall i :: 0 <= i < |tokens| ==> lowered[i] == Lower(tokens[i])
  {
    seq(|tokens|, i requires 0 <= i < |tokens| => Lower(tokens[i]))
  }

  /** On the tokens of `split()`, `strip().lower()` is just `lower()`. */
  lemma CandidatesOfSplit(text: string)
    ensures Candidates(Split(text)) == LowerAll(Split(text))
  {
    var tokens := Split(text);
    forall i | 0 <= i < |tokens|
      ensures Candidate(tokens[i]) == Lower(tokens[i])
    {
      StripOfNoSpace(tokens[i]);
    }
  }

  /** The complex words of a text: every key is a lower-cased token of
      `text.split()` (punctuation stays), longer than six characters, stored
      with its non-empty WordNet definition; every such token is present;
      repeated tokens share one key. */
  lemma ComplexWordsOfText(wordnet: WordNet, text: string)
    ensures var cw := ComplexWords(wordnet, Split(text));
            && DistinctKeys(cw)
            && (forall key :: key in ToMap(cw) <==>
                  key in LowerAll(Split(text)) && |key| > 6 && IsDefinition(GetWordDefinition(wordnet, key)))
            && (forall key :: key in ToMap(cw) ==>
                  Some(ToMap(cw)[key]) == GetWordDefinition(wordnet, key) && ToMap(cw)[key] != "")
  {
    var keys := Candidates(Split(text));
    CandidatesOfSplit(text);
    CollectDistinct(wordnet, keys);
    CollectAsMap(wordnet, keys);
  }
}
