/** iOS camera permission: the authorisation status decides the single outcome. */
module PermissionManager {
  import opened Wrappers

  /** `AVAuthorizationStatus`, with room for values a later SDK may add. */
  datatype AuthorizationStatus = Authorized | NotDetermined | Denied | Restricted | UnknownStatus(raw: int)

  datatype PermissionError = CameraNotAuthorized | CameraRestricted | CameraNotAvailable

  /** `requestCameraPermission`: the outcome its completion is called with. `granted` is
      the user's answer to the access prompt, consulted only when the status is not
      determined yet. */
  function RequestCameraPermission(status: AuthorizationStatus, granted: bool): (r: Outcome<PermissionError>)
    ensures r.Pass? <==> status.Authorized? || (status.NotDetermined? && granted)
    ensures r == Fail(CameraNotAuthorized) <==> status.Denied? || (status.NotDetermined? && !granted)
    ensures r == Fail(CameraRestricted) <==> status.Restricted?
    ensures r == Fail(CameraNotAvailable) <==> status.UnknownStatus?
  {
    match status
    case Authorized => Pass
    case NotDetermined => if granted then Pass else Fail(CameraNotAuthorized)
    case Denied => Fail(CameraNotAuthorized)
    case Restricted => Fail(CameraRestricted)
    case UnknownStatus(_) => Fail(CameraNotAvailable)
  }

  /** `isCameraAuthorized`: the camera is authorised exactly when a permission request
      succeeds without the user's consent at the prompt. */
  function IsCameraAuthorized(status: AuthorizationStatus): (b: bool)
    ensures b <==> RequestCameraPermission(status, false).Pass?
    ensures b ==> forall granted :: RequestCameraPermission(status, granted).Pass?
  {
    status == Authorized
  }

  /** An authorised camera is always granted; any other grant came from the prompt;
      and the prompt's answer matters only while the status is undetermined. */
  lemma AuthorizedAgreesWithRequest(status: AuthorizationStatus, granted: bool, other: bool)
    ensures IsCameraAuthorized(status) ==> RequestCameraPermission(status, granted) == Pass
    ensures RequestCameraPermission(status, granted).Pass? && !IsCameraAuthorized(status) ==>
      status == NotDetermined && granted
    ensures !status.NotDetermined? ==>
      RequestCameraPermission(status, granted) == RequestCameraPermission(status, other)
  {
  }
}
