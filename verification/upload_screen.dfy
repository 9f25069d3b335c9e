/**
 `UploadScreen`: previews the photo and, on request, posts it to the backend
 with axios, then either navigates to the result list or shows exactly one
 alert. The network is a parameter: `post` says what axios reports for a
 request.
 */
module UploadScreen {
  import opened Wrappers
  import opened Js
  import opened Ui
  import PropertyOrder

  const Endpoint := "/api/v1/process-image"
  const TimeoutMs: nat := 130000
  const NoTextFound := "NO_TEXT_FOUND"
  const ResultRoute := "Result"

  const NoImageAlert := Alert("No Image", "Please go back and take a photo first.")
  const NoTextAlert := Alert("No Text Detected",
    "We couldn't find any text in your image. Please make sure the image contains clear, readable text and try again.")
  const TooLargeAlert := Alert("Image Too Large", "The image file is too large. Please try with a smaller image.")
  const ConnectionAlert := Alert("Connection Error", "Please check your internet connection and try again.")
  const UploadFailedAlert := Alert("Upload Failed", "Could not process the image. Please try again.")

  /** The file part appended to the form under the name `image`. */
  datatype FilePart = FilePart(uri: Value, name: string, mimeType: string)

  /** The POST the screen issues. */
  datatype Request = Request(url: string, field: string, part: FilePart, contentType: string, timeoutMs: nat)

  /** What axios observes: a response with its status and parsed body, a
      transport failure with no response, or the timeout expiring first. */
  datatype Transport = Received(status: int, data: Value) | NetworkFailure | TimedOut

  /** An error as the `catch` block sees it: `error.message` and
      `error.response?.status`. */
  datatype Thrown = Thrown(message: string, responseStatus: Option<int>)

  datatype Effect = ShowAlert(alert: Alert) | Navigate(screen: string, data: Value)

  /** One press of the upload button: the request issued, if any, the
      effects in order, and the values written to `loading` in order. */
  datatype Attempt = Attempt(request: Option<Request>, effects: seq<Effect>, loadingWrites: seq<bool>)

  /** The screen's `imageUri`, read from `route.params || {}`. */
  function ImageUri(params: Value): Value {
    Get(Or(params, EmptyObject), "imageUri")
  }

  /** The request built for an image. */
  function BuildRequest(baseUrl: string, imageUri: Value): Request {
    Request(baseUrl + Endpoint, "image", FilePart(imageUri, "photo.jpg", "image/jpeg"),
            "multipart/form-data", TimeoutMs)
  }

  /** The error object axios rejects with. */
  function AxiosError(t: Transport): Thrown
    requires !(t.Received? && IsSuccessStatus(t.status))
  {
    match t
    case Received(status, _) => Thrown("Request failed with status code " + StatusText(status), Some(status))
    case NetworkFailure => Thrown("Network Error", None)
    case TimedOut => Thrown("timeout of 130000ms exceeded", None)
  }

  /** The decimal text of a status code, as in axios's error message. */
  function StatusText(n: int): string {
    if n < 0 then "-" + PropertyOrder.Decimal(-n) else PropertyOrder.Decimal(n)
  }

  /** The payload has something to show: `response.data` is truthy and
      `complex_words` or `definitions` has at least one key. */
  predicate HasWords(data: Value) {
    Truthy(data) && !(NoKeys(Get(data, "complex_words")) && NoKeys(Get(data, "definitions")))
  }

  /** The chain of checks in the `catch` block, in source order. */
  function Classify(e: Thrown): (a: Alert)
    ensures e.message == NoTextFound ==> a == NoTextAlert
    ensures e.message != NoTextFound && e.responseStatus == Some(413) ==> a == TooLargeAlert
    ensures e.message != NoTextFound && e.responseStatus.None? ==> a == ConnectionAlert
    ensures e.message != NoTextFound && e.responseStatus.Some? && e.responseStatus.value != 413 ==>
              a == UploadFailedAlert
  {
    if e.message == NoTextFound then NoTextAlert
    else if e.responseStatus == Some(413) then TooLargeAlert
    else if e.responseStatus.None? then ConnectionAlert
    else UploadFailedAlert
  }

  /** `uploadImage`. */
  function UploadImage(params: Value, baseUrl: string, post: Request -> Transport): (a: Attempt)
    ensures !Truthy(ImageUri(params)) ==> a == Attempt(None, [ShowAlert(NoImageAlert)], [])
    ensures Truthy(ImageUri(params)) ==>
              && a.request == Some(BuildRequest(baseUrl, ImageUri(params)))
              && a.loadingWrites == [true, false]
              && |a.effects| == 1
  {
    var imageUri := ImageUri(params);
    if !Truthy(imageUri) then Attempt(None, [ShowAlert(NoImageAlert)], [])
    else
      var request := BuildRequest(baseUrl, imageUri);
      var t := post(request);
      var effect :=
        if t.Received? && IsSuccessStatus(t.status) then
          if !HasWords(t.data) then ShowAlert(Classify(Thrown(NoTextFound, None)))
          else Navigate(ResultRoute, t.data)
        else ShowAlert(Classify(AxiosError(t)));
      Attempt(Some(request), [effect], [true, false])
  }

  /** The outcome of an attempt, stated on what the network did: a 2xx
      response navigates with its data unchanged when there are words and
      reports "No Text Detected" otherwise; 413 reports "Image Too Large";
      no response at all, timeouts included, reports "Connection Error";
      every other status reports "Upload Failed". */
  lemma UploadOutcome(params: Value, baseUrl: string, post: Request -> Transport)
    requires Truthy(ImageUri(params))
    ensures var t := post(BuildRequest(baseUrl, ImageUri(params)));
            var effects := UploadImage(params, baseUrl, post).effects;
            && (t.Received? && IsSuccessStatus(t.status) && HasWords(t.data) <==>
                  t.Received? && effects == [Navigate(ResultRoute, t.data)])
            && (t.Received? && IsSuccessStatus(t.status) && !HasWords(t.data) <==>
                  effects == [ShowAlert(NoTextAlert)])
            && (t.Received? && t.status == 413 <==> effects == [ShowAlert(TooLargeAlert)])
            && (!t.Received? <==> effects == [ShowAlert(ConnectionAlert)])
            && (t.Received? && !IsSuccessStatus(t.status) && t.status != 413 <==>
                  effects == [ShowAlert(UploadFailedAlert)])
  {
    var t := post(BuildRequest(baseUrl, ImageUri(params)));
    if t.Received? && !IsSuccessStatus(t.status) {
      assert AxiosError(t).message != NoTextFound by {
        var m := AxiosError(t).message;
        assert m[0] == 'R' != NoTextFound[0];
      }
    }
  }

  /** A 2xx response navigates with its data when it has words and reports
      "No Text Detected" otherwise. */
  lemma SuccessOutcome(params: Value, baseUrl: string, post: Request -> Transport)
    requires Truthy(ImageUri(params))
    requires post(BuildRequest(baseUrl, ImageUri(params))).Received?
    requires IsSuccessStatus(post(BuildRequest(baseUrl, ImageUri(params))).status)
    ensures var data := post(BuildRequest(baseUrl, ImageUri(params))).data;
            UploadImage(params, baseUrl, post).effects
              == if HasWords(data) then [Navigate(ResultRoute, data)] else [ShowAlert(NoTextAlert)]
  {
  }

  /** The order of the checks matters: the error thrown for an empty payload
      carries no response, so any order that asked "is there no response?"
      first would report it as a connection failure. */
  lemma NoTextIsCheckedFirst()
    ensures Thrown(NoTextFound, None).responseStatus.None?
    ensures Classify(Thrown(NoTextFound, None)) == NoTextAlert != ConnectionAlert
  {
  }

  /** `loading` is back to false after every attempt that got past the
      image check, whatever happened, and untouched otherwise. */
  lemma LoadingEndsFalse(params: Value, baseUrl: string, post: Request -> Transport, loading: bool)
    ensures var w := UploadImage(params, baseUrl, post).loadingWrites;
            (if w == [] then loading else w[|w| - 1]) == (loading && !Truthy(ImageUri(params)))
  {
  }

  /** What the screen shows. */
  datatype View = NoImageMessage | Spinner | UploadButton

  /** Without an image there is only a message; while loading the button is
      replaced by a spinner, so a second upload cannot start. */
  function Render(params: Value, loading: bool): (v: View)
    ensures v == UploadButton <==> Truthy(ImageUri(params)) && !loading
    ensures v == NoImageMessage <==> !Truthy(ImageUri(params))
  {
    if !Truthy(ImageUri(params)) then NoImageMessage
    else if loading then Spinner
    else UploadButton
  }
}
