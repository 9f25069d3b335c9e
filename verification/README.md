# SnapDict in Dafny

SnapDict turns a photo of printed text into a short glossary: the mobile app
takes a picture and posts it to a FastAPI backend. The backend OCRs the image,
splits the text into words, keeps the words longer than six characters that
WordNet can define, and answers with those words and the text.

This project models the decision logic on both sides of that exchange:

- **`ProcessImage`, with `WordProcessing`, `Text` and `Dict`.** The backend
  handler `process_image` covers:
  - the content-type guard;
  - the empty-text guard;
  - the word loop, with Python's `split()`, `strip()` and `lower()`;
  - how the two `except` clauses map exceptions to replies.

  OCR is a parameter that returns text or raises. The WordNet corpus is a
  parameter that maps a word to its senses.
- **`UploadScreen`.** `uploadImage` covers the missing-image guard, the request
  it builds, the emptiness check, the error classification and the `loading`
  flag. axios is a parameter that gives a response, a network failure or a
  timeout for a request.
- **`ResultScreen`.** Covers the no-results guard and the rows it lists, in
  JavaScript's property enumeration order (`PropertyOrder`).
- **`WordDetailScreen`.** Covers the missing-parameter guard, the spelling-out
  of part-of-speech codes and when each optional section is shown.
- **`HomeScreen`.** Covers the permission alert on mount and the first-asset
  choice of `takePhoto`.
- **`WordScanner`.** `takePicture` in the app's component is modelled as the
  trace of state writes, requests and alerts it performs. A fold (`Apply`)
  gives the state that results.
- **`Js`.** JavaScript values as the screens receive them, with truthiness,
  `||`, property reads and `Object.entries`.
- **`Pipeline`.** How FastAPI puts a reply on the wire, and end-to-end lemmas
  from the backend's reply to what each client shows.

Behaviour of the code a reader may not expect:

- The backend does not normalise words beyond `strip().lower()`. A token
  keeps its punctuation, so `ephemeral,` is looked up as it is. WordNet has
  no entry for it, so the word is left out of `complex_words`.
- The upload screen reports no upload progress. It has no separate "timeout"
  or "malformed response" outcome. A timeout has no response, so it is shown
  as "Connection Error". A malformed payload is shown as "No Text Detected".
- The upload timeout is 130000 ms.
- The error replies `({"error": ...}, 400)` are ordinary return values in
  FastAPI. They are sent as a two-element JSON array with status 200, not as
  an HTTP 400. As a result, every backend error reaches the upload screen as
  the non-empty array `[{"error": ...}, code]`. An array has neither
  `complex_words` nor `definitions`, so the payload has no words and is shown
  as "No Text Detected". It reaches the scanner as a failed format check.
- `WordDetailScreen` is not registered as a route in `snapdict-ui/App.js`. It
  is modelled as a screen in its own right.

## Model

| member | source | states |
|---|---|---|
| Text.Split | snapdict-core/app/main.py:32 | `text.split()` yields only non-empty tokens that contain no whitespace, in Python's full `isspace` sense |
| Text.SplitKeepsAllNonSpace | snapdict-core/app/main.py:32 | splitting loses exactly the whitespace: the tokens concatenated are the text's non-whitespace characters in order |
| Text.SplitInterleaveRoundTrip | snapdict-core/app/main.py:32 | `split()` cuts at every non-empty whitespace run and nowhere else: words laid between whitespace runs, with any whitespace before the first and after the last, come back exactly |
| Text.SplitJoinRoundTrip | snapdict-core/app/main.py:32 | splitting the blank-joined tokens gives back any token list `split()` could have produced |
| Text.Strip | snapdict-core/app/main.py:33 | `strip()` returns a slice of its input that cuts only whitespace and neither starts nor ends with whitespace |
| Text.StripOfNoSpace | snapdict-core/app/main.py:32-33 | `strip()` leaves a token from `split()` unchanged |
| Text.Lower | snapdict-core/app/main.py:33 | `lower()` keeps the length, leaves no upper-case ASCII letter, shifts each upper-case letter to its lower-case form and keeps every other character, punctuation included |
| Text.LowerIdempotent | snapdict-core/app/main.py:33 | lowering twice is the same as lowering once |
| Text.LowerKeepsNoSpace | snapdict-core/app/main.py:33 | lowering a token never creates whitespace inside it |
| Dict.Put | snapdict-core/app/main.py:37 | `complex_words[word] = definition` keeps the key order for a present key and appends a new key last |
| Dict.PutGet | snapdict-core/app/main.py:37 | after the assignment the key reads the new definition and every other key reads as before |
| Dict.PutEntries | snapdict-core/app/main.py:37 | after the assignment every entry is the new pair or an entry that was there before |
| Dict.PutDistinct | snapdict-core/app/main.py:37 | assignment never creates a repeated key |
| WordProcessing.ComplexBoundary | snapdict-core/app/services/word_processing.py:5-7 | a six-character word is not complex and a seven-character word is |
| WordProcessing.ComplexIgnoresCase | snapdict-core/app/services/word_processing.py:7 | lower-casing a word never changes whether it is complex |
| WordProcessing.GetWordDefinition | snapdict-core/app/services/word_processing.py:9-14 | the lookup is `None` exactly when WordNet has no sense of the word, and otherwise the definition of the first sense |
| ProcessImage.FirstOccurrencesSpec | snapdict-core/app/main.py:31-37 | the reference order of keys holds every word it is given, once each |
| ProcessImage.CollectAgreesWithReference | snapdict-core/app/main.py:31-37 | the loop's dictionary has as keys the first occurrences of the qualifying lowered tokens, in order of first appearance, each stored with its own definition |
| ProcessImage.CollectDistinct | snapdict-core/app/main.py:31-37 | no key is stored twice: repeated tokens collapse to one key |
| ProcessImage.CollectAsMap | snapdict-core/app/main.py:31-37 | seen as a map, the result holds exactly the qualifying candidates, each with its definition, with nothing missing and nothing extra |
| ProcessImage.CandidatesOfSplit | snapdict-core/app/main.py:32-33 | on the tokens of `split()`, `strip().lower()` amounts to `lower()` |
| ProcessImage.ComplexWordsOfText | snapdict-core/app/main.py:31-37 | a word is a key exactly when it is a lower-cased token of the text, longer than six characters, with a truthy definition; its value is that definition and is non-empty; keys are distinct |
| ProcessImage.Caught | snapdict-core/app/main.py:44-51 | a `ValueError` becomes its own message with 400; any other exception becomes the fixed "unexpected error" message with 500 |
| ProcessImage.Process | snapdict-core/app/main.py:17-51 | a missing content type escapes the handler; a non-image type gives the "must be an image" error; success holds exactly when the type is an image, the read and OCR return and the text is non-empty, and then it carries the OCR text unchanged and the words of that text; every error pair has code 400, or 500 with the fixed message |
| ProcessImage.NonImageNeverReadsOrOcrs | snapdict-core/app/main.py:17-20 | for a non-image type the reply is the same whatever the file's content and whatever OCR would do |
| ProcessImage.EmptyTextIsAnError | snapdict-core/app/main.py:24-29 | empty OCR text gives the "No text could be extracted" error and no word map |
| ProcessImage.OcrExceptionMapping | snapdict-core/app/main.py:44-51 | an exception raised by OCR gives the reply of the matching `except` clause |
| Js.Or | snapdict-ui/screens/UploadScreen.js:8 | `params \|\| {}` is the parameters when they are truthy and the empty object otherwise |
| Js.Get | snapdict-ui/screens/ResultScreen.js:6-9 | a property read gives the object's own value for the key, and `undefined` when there is none |
| Js.Entries | snapdict-ui/screens/ResultScreen.js:24 | `Object.entries` of an object is a rearrangement of its properties with none lost or added; for an array or a string, entry `i` is the decimal string of `i` paired with element `i` (a one-character string for a string) |
| Js.NoKeysCases | snapdict-ui/screens/UploadScreen.js:38-40 | `Object.keys(x \|\| {}).length === 0` holds of an object exactly when it is `{}`, and of every falsy value |
| PropertyOrder.Ordered | snapdict-ui/screens/ResultScreen.js:24 | enumeration lists array-index keys in ascending numeric order first, then every other key in creation order, losing and adding nothing |
| UploadScreen.Classify | snapdict-ui/screens/UploadScreen.js:50-70 | the `catch` block checks, in order, for the no-text marker, status 413, a missing response, and anything else, and picks the alert for the first that holds |
| UploadScreen.UploadImage | snapdict-ui/screens/UploadScreen.js:11-73 | without an image: only the "No Image" alert, with no request and no write to `loading`; with one: the request to the endpoint with one `image` part `photo.jpg` of type `image/jpeg` and a 130000 ms timeout, `loading` set true then false, and exactly one effect |
| UploadScreen.UploadOutcome | snapdict-ui/screens/UploadScreen.js:37-70 | each network outcome has its own effect, as an if-and-only-if: a 2xx with words navigates to "Result" with the data unchanged; a 2xx without words gives "No Text Detected"; 413 gives "Image Too Large"; no response, timeouts included, gives "Connection Error"; any other status gives "Upload Failed" |
| UploadScreen.NoTextIsCheckedFirst | snapdict-ui/screens/UploadScreen.js:41-64 | the no-text error carries no response, so it is classified as "No Text Detected" only because that check comes first |
| UploadScreen.LoadingEndsFalse | snapdict-ui/screens/UploadScreen.js:12-73 | the early return at lines 12-15 leaves `loading` untouched; after `setLoading(true)` the `finally` at lines 71-73 makes it end false, whatever the outcome |
| UploadScreen.Render | snapdict-ui/screens/UploadScreen.js:76-102 | without an image only the message is shown; the upload button is shown exactly when there is an image and no upload is running |
| ResultScreen.Render | snapdict-ui/screens/ResultScreen.js:6-27 | "No results found" appears exactly when `data` or `data.complex_words` is falsy; otherwise rendering fails exactly when some entry's value is a plain object, or an array holding one, which React refuses as a child; the list has one row per key of `complex_words`, each with a renderable value |
| ResultScreen.OneRowPerEntry | snapdict-ui/screens/ResultScreen.js:19-27 | for a `complex_words` object the list appears exactly when every value can be rendered, and fails exactly when one cannot; the rows are then a rearrangement of the entries: each word once, with its value as received |
| WordDetailScreen.ExpandPartOfSpeech | snapdict-ui/screens/WordDetailScreen.js:41-44 | `n`, `v`, `a` and `r` are spelled out as noun, verb, adjective and adverb; any other value is shown as it is |
| WordDetailScreen.ExpandIsIdempotent | snapdict-ui/screens/WordDetailScreen.js:41-44 | spelling out twice is the same as spelling out once, and only the four codes change |
| WordDetailScreen.ListSection | snapdict-ui/screens/WordDetailScreen.js:63-93 | a list section shows chips exactly when its list is a non-empty array, one per element in order |
| WordDetailScreen.Render | snapdict-ui/screens/WordDetailScreen.js:7-93 | "No word details found." appears exactly when `word` or `info` is falsy; otherwise rendering fails exactly when `pos`, `example`, `synonyms` or `antonyms` is `0`, which `&&` leaves as stray text outside `<Text>`, or the word, the definition, a truthy part of speech or a truthy example is a plain object React refuses as a child, or a shown list has no `map`, or a list element is such an object; the details then shown are all renderable |
| WordDetailScreen.SectionVisibility | snapdict-ui/screens/WordDetailScreen.js:38-93 | the part-of-speech line appears exactly when `pos` is truthy; the definition always appears; the example appears exactly when it is truthy; each list appears exactly when it is a non-empty array |
| WordDetailScreen.ObjectDefinitionFails | snapdict-ui/screens/WordDetailScreen.js:51 | a definition that is a plain object makes the screen fail instead of showing details |
| WordDetailScreen.ZeroPartOfSpeechFails | snapdict-ui/screens/WordDetailScreen.js:37-46 | a part of speech of `0` makes the screen fail instead of showing the word without a part-of-speech line |
| WordDetailScreen.StringInfoShowsNoDefinition | snapdict-ui/screens/WordDetailScreen.js:51-61 | a bare definition string given as `info` renders with an undefined definition and no optional section |
| HomeScreen.OnMount | snapdict-ui/screens/HomeScreen.js:8-19 | the "Permission Denied" alert appears exactly when the status is not `granted` |
| HomeScreen.TakePhoto | snapdict-ui/screens/HomeScreen.js:21-38 | one press has at most one effect |
| HomeScreen.TakePhotoOutcome | snapdict-ui/screens/HomeScreen.js:21-38 | navigation to "Upload" happens exactly when the capture is not cancelled and has assets, and then with the first asset's URI; a cancelled or empty capture does nothing; a camera failure gives "Camera Error" and no navigation |
| HomeScreen.PermissionDoesNotDisableTakePhoto | snapdict-ui/screens/HomeScreen.js:8-38 | what "Take Photo" does does not depend on the permission status |
| WordScanner.TakePicture | snapdict-ui/components/WordScanner.js:35-92 | without a camera only the "not ready" alert; with one the handler starts with the reset writes and ends with `isProcessing` false |
| WordScanner.NotReadyChangesNothing | snapdict-ui/components/WordScanner.js:36-39 | without a camera, `words`, `originalText` and `isProcessing` are unchanged |
| WordScanner.ResetClears | snapdict-ui/components/WordScanner.js:42-44 | before any request, the state becomes `{}` words, empty text and processing |
| WordScanner.MiddleState | snapdict-ui/components/WordScanner.js:46-81 | between the reset and the final write, only a 2xx JSON response with both fields truthy writes, and then both fields come from the response |
| WordScanner.TakePictureFinalState | snapdict-ui/components/WordScanner.js:35-92 | after an attempt with a camera `isProcessing` is false; on success the words and the text come from the response; on any failure both stay cleared |
| WordScanner.TakePictureAlerts | snapdict-ui/components/WordScanner.js:70-91 | success shows no alert; every failure, an invalid format included, shows the same single alert |
| WordScanner.FormatCheckExamples | snapdict-ui/components/WordScanner.js:76-81 | `{}` words pass the format check and an empty `original_text` fails it |
| Pipeline.Encode | snapdict-core/app/main.py:17-51 | a reply that escapes the handler becomes a 500; every other reply is JSON with status 200, the error pairs as arrays |
| Pipeline.FoundJsonFields | snapdict-core/app/main.py:39-42 | a successful reply carries `complex_words` and `original_text` and nothing under `definitions` |
| Pipeline.BackendErrorShowsNoText | snapdict-ui/screens/UploadScreen.js:37-54 | every backend error pair reaches the upload screen as a payload without words and is shown as "No Text Detected" |
| Pipeline.UncaughtShowsUploadFailed | snapdict-ui/screens/UploadScreen.js:46-70 | an exception that escapes the backend handler is shown as "Upload Failed" |
| Pipeline.FoundNavigatesWhenWords | snapdict-ui/screens/UploadScreen.js:37-45 | a successful reply navigates to the result list exactly when it holds a word, and shows "No Text Detected" otherwise |
| Pipeline.FoundListsEveryWordOnce | snapdict-ui/screens/ResultScreen.js:19-27 | the result list of a successful reply renders, since every definition is a string, and has one row per complex word, showing its definition |
| Pipeline.ProcessedImageReachesResultList | snapdict-core/app/main.py:31-42 | a successfully processed image ends on the result list, with each complex word once and its definition, or on "No Text Detected" when there are none |
| Pipeline.ScannerAcceptsExactlyFound | snapdict-ui/components/WordScanner.js:70-81 | the scanner stores a backend reply exactly when it is a success; every error pair and escaped exception is rejected |
| Pipeline.HandOffMismatch | snapdict-ui/screens/ResultScreen.js:9-24 | payloads the upload screen accepts because of `definitions` show "No results found", or the header with no rows, on the result screen |

## Left out

- Text.Lower: `lower()` is modelled for ASCII letters only. Python's full Unicode case mapping, which can change a string's length, is not modelled.
- OCR and image decoding (`snapdict-core/app/services/ocr.py`) are a parameter. They can return text or raise `ValueError` or another exception.
- The WordNet corpus and the NLTK setup (`snapdict-core/setup_nltk.py`, `snapdict-core/app/config.py`) are left out. The corpus is a parameter, and the setup has only download and filesystem effects. Exceptions raised inside the definition lookup are not modelled: the model assumes the lookup returns.
- Reading the upload (`await image.read()`) is a parameter that returns bytes or raises.
- `snapdict-core/palash.py` is a scratch script and is not part of the model.
- Navigation wiring (`snapdict-ui/App.js`, `App.js`) is framework configuration. The route names the screens use are kept as constants.
- `components/WordScanner.js` is an earlier prototype of the scanner without response validation, and is not part of the model.
- The transports are outcomes, not protocols: FastAPI, axios, `fetch`, multipart encoding and HTTP itself. So are the camera and the permission prompts, and the components' mount effects beyond the permission alert.
- React scheduling is not modelled. State writes take effect in the order the handler issues them, and the screens are pure functions of their parameters.
- Styles, layout and logging (`console.log`, `console.error`) are presentation only. Whether React Native accepts a child is modelled: a plain object anywhere (`Js.Renderable`), and a `0` left by `x && (…)` outside `<Text>` (`WordDetailScreen.StrayText`). How an accepted child looks is not modelled.
- WordDetailScreen.Render: a list whose `length` property is a numeric string, such as `{length: "2"}`, is shown by the JavaScript comparison `"2" > 0`, and `.map` then throws. The model does not convert strings to numbers (see `WordDetailScreen.LengthPositive`), so it hides that section instead of failing.
- WordDetailScreen.LengthPositive: `length > 0` on an object compares its `length` property only when it is a number or `true`. String and other operands are not converted to numbers.
- Js.Value: numbers are exact reals. `NaN`, `-0` and IEEE rounding do not occur in the JSON the screens receive and are not modelled. Strings are sequences of code points, not UTF-16 units.
- Js.Get: property reads on arrays, strings, numbers and booleans give `undefined`. The screens read no such property except `length`, which `WordDetailScreen.LengthPositive` models for arrays and strings.
