/**
 `HomeScreen`: asks for camera permission when it mounts and, on "Take
 Photo", opens the camera and hands the first captured asset to the upload
 screen. The camera is a parameter: the model receives what
 `launchCameraAsync` resolved to, or that it threw.
 */
module HomeScreen {
  import opened Wrappers
  import opened Js
  import opened Ui

  const UploadRoute := "Upload"
  const PermissionDeniedAlert := Alert("Permission Denied", "Camera permissions are required to use this app.")
  const CameraErrorAlert := Alert("Camera Error", "There was an error accessing the camera.")

  /** One captured image. */
  datatype Asset = Asset(uri: Value)

  /** The picker's result: whether the user cancelled, and the assets, which
      may be missing. */
  datatype PickerResult = PickerResult(canceled: bool, assets: Option<seq<Asset>>)

  /** What awaiting `launchCameraAsync` gives. */
  datatype CameraOutcome = Captured(result: PickerResult) | CameraThrew

  datatype Effect = ShowAlert(alert: Alert) | Navigate(screen: string, imageUri: Value)

  /** The effect of the permission request on mount. */
  function OnMount(status: string): (effects: seq<Effect>)
    ensures effects == [] <==> status == "granted"
    ensures effects != [] ==> effects == [ShowAlert(PermissionDeniedAlert)]
  {
    if status != "granted" then [ShowAlert(PermissionDeniedAlert)] else []
  }

  /** `takePhoto`. */
  function TakePhoto(outcome: CameraOutcome): (effects: seq<Effect>)
    ensures |effects| <= 1
  {
    match outcome
    case CameraThrew => [ShowAlert(CameraErrorAlert)]
    case Captured(photo) =>
      if !photo.canceled && photo.assets.Some? && |photo.assets.value| > 0
      then [Navigate(UploadRoute, photo.assets.value[0].uri)]
      else []
  }

  /** The screen navigates exactly when the capture was not cancelled and
      produced at least one asset, and then with the first asset's URI; a
      cancelled or empty capture does nothing at all; a camera failure shows
      one alert and never navigates. */
  lemma TakePhotoOutcome(outcome: CameraOutcome)
    ensures var effects := TakePhoto(outcome);
            && ((exists imageUri :: effects == [Navigate(UploadRoute, imageUri)]) <==>
                  outcome.Captured? && !outcome.result.canceled
                  && outcome.result.assets.Some? && outcome.result.assets.value != [])
            && (outcome.Captured? && !outcome.result.canceled && outcome.result.assets.Some?
                && outcome.result.assets.value != [] ==>
                  effects == [Navigate(UploadRoute, outcome.result.assets.value[0].uri)])
            && (outcome.CameraThrew? <==> effects == [ShowAlert(CameraErrorAlert)])
            && (effects == [] <==>
                  outcome.Captured? && (outcome.result.canceled || outcome.result.assets.None?
                                        || outcome.result.assets.value == []))
  {
  }

  /** A mounted screen followed by one press of "Take Photo". */
  function Session(status: string, outcome: CameraOutcome): seq<Effect> {
    OnMount(status) + TakePhoto(outcome)
  }

  /** A refused permission only adds the alert: the button still works, and
      what it does does not depend on the permission. */
  lemma PermissionDoesNotDisableTakePhoto(status1: string, status2: string, outcome: CameraOutcome)
    ensures Session(status1, outcome)[|OnMount(status1)|..] == Session(status2, outcome)[|OnMount(status2)|..]
  {
    assert Session(status1, outcome)[|OnMount(status1)|..] == TakePhoto(outcome);
    assert Session(status2, outcome)[|OnMount(status2)|..] == TakePhoto(outcome);
  }
}
