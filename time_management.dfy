/** The controller behind the time-clock screen,
    frontend/src/hooks/useTimeManagement.ts: four state cells driven by button
    clicks and by the outcome of a login. Navigation and alerts become the
    effect a handler returns; the ring-sale access check is an input. */
module TimeManagement {
  import opened Wrappers
  import opened JsValues

  datatype DialogContext = TimePunchDialog | RingSaleDialog
  datatype LoginPurpose = PunchPurpose | RingSalePurpose
  datatype View = TimePunchView | ClockSummaryView

  /** What handleButtonClick is called with; `NullAction` is `null`. */
  datatype ButtonAction = TimePunchAction | RingSaleAction | TimeClockSummaryAction | NullAction

  /** How `validateRingSaleAccess(...).unwrap()` ended: with a value, or by
      throwing an error with an optional message. */
  datatype Validation = Validated(value: bool) | ValidationFailed(message: Option<string>)

  /** What a handler does beyond its state cells. */
  datatype Effect = NoEffect | Navigate(path: string) | Alert(message: string)

  /** The open dialog and the login purpose always belong together. */
  predicate Paired(dialog: Option<DialogContext>, purpose: Option<LoginPurpose>) {
    match dialog
    case None => purpose.None?
    case Some(TimePunchDialog) => purpose == Some(PunchPurpose)
    case Some(RingSaleDialog) => purpose == Some(RingSalePurpose)
  }

  /** The effect of the ring-sale branch once access has been checked. */
  function RingSaleEffect(validation: Validation): (e: Effect)
    ensures validation == Validated(true) <==> e == Navigate("/dashboard")
    ensures validation != Validated(true) ==> e.Alert?
    ensures validation == Validated(false) ==> e == Alert("You need to clock in")
    ensures validation.ValidationFailed? ==> e == Alert(OrElse(validation.message, "Access denied."))
    ensures e.Alert? ==> e.message != ""
  {
    match validation
    case Validated(ok) => if ok then Navigate("/dashboard") else Alert("You need to clock in")
    case ValidationFailed(message) => Alert(OrElse(message, "Access denied."))
  }

  /** The error validateRingSaleAccess throws for a user not clocked in. */
  const RingSaleRefusal: string := "You must be clocked in to access Ring Sale."

  /** validateRingSaleAccess once the current user has been fetched and the
      store holds the clockIn slice under `clock`: the check
      reads the mirror's `isClockedIn` flag for the user (`None` when the user has
      no entry) and throws unless it is true. */
  function RingSaleAccess(isClockedIn: Option<bool>): (v: Validation)
    ensures v == Validated(true) <==> isClockedIn == Some(true)
    ensures v != Validated(false)
    ensures v.ValidationFailed? ==> v.message == Some(RingSaleRefusal)
  {
    if isClockedIn == Some(true) then Validated(true) else ValidationFailed(Some(RingSaleRefusal))
  }

  /** Once the flag is read, a user not clocked in is refused with the check's
      own message; the "You need to clock in" alert is never reached. */
  lemma NotClockedInSeesRefusal(isClockedIn: Option<bool>)
    ensures isClockedIn == Some(true) ==> RingSaleEffect(RingSaleAccess(isClockedIn)) == Navigate("/dashboard")
    ensures isClockedIn != Some(true) ==> RingSaleEffect(RingSaleAccess(isClockedIn)) == Alert(RingSaleRefusal)
    ensures RingSaleEffect(RingSaleAccess(isClockedIn)) != Alert("You need to clock in")
  {
  }

  /** How the app wires the access check: whether the hook passes the session's
      token to it, and whether the store mounts the clockIn slice under `clock`,
      the key the check reads. */
  datatype Wiring = Wiring(tokenSent: bool, clockMounted: bool)

  /** As shipped: the hook dispatches `{ userID: id }` with no token, and the
      store registers only `auth` and `categories`. */
  const ShippedWiring := Wiring(false, false)

  /** validateRingSaleAccess run end to end under a wiring. Without a token the
      current-user request carries `Bearer undefined`, the server leaves the
      request without a user and refuses it, and the check rethrows that
      rejection (`fetchError`) before it reads any flag. With a token but no
      `clock` slice, reading `usersClockData` of `undefined` throws
      (`readError`). Only with both does the flag decide. */
  function RingSaleCheck(wiring: Wiring, fetchError: Option<string>, readError: Option<string>, isClockedIn: Option<bool>): (v: Validation)
    ensures v == Validated(true) <==> wiring.tokenSent && wiring.clockMounted && isClockedIn == Some(true)
    ensures v != Validated(false)
    ensures !wiring.tokenSent ==> v == ValidationFailed(fetchError)
    ensures wiring.tokenSent && !wiring.clockMounted ==> v == ValidationFailed(readError)
    ensures wiring.tokenSent && wiring.clockMounted ==> v == RingSaleAccess(isClockedIn)
  {
    if !wiring.tokenSent then ValidationFailed(fetchError)
    else if !wiring.clockMounted then ValidationFailed(readError)
    else RingSaleAccess(isClockedIn)
  }

  /** As shipped, no ring-sale login reaches /dashboard, clocked in or not:
      every attempt alerts the current-user request's rejection. */
  lemma ShippedRingSaleCheckAlwaysAlerts(fetchError: Option<string>, readError: Option<string>, isClockedIn: Option<bool>)
    ensures RingSaleEffect(RingSaleCheck(ShippedWiring, fetchError, readError, isClockedIn)) == Alert(OrElse(fetchError, "Access denied."))
    ensures RingSaleEffect(RingSaleCheck(ShippedWiring, fetchError, readError, isClockedIn)) != Navigate("/dashboard")
  {
  }

  /** Passing the token alone is not enough: without the `clock` slice every
      attempt alerts the failed read. */
  lemma TokenWithoutClockSliceAlwaysAlerts(fetchError: Option<string>, readError: Option<string>, isClockedIn: Option<bool>)
    ensures RingSaleEffect(RingSaleCheck(Wiring(true, false), fetchError, readError, isClockedIn)) == Alert(OrElse(readError, "Access denied."))
  {
  }

  /** Wired as intended, the check is the flag check, so a clocked-in user
      reaches /dashboard and anyone else sees the refusal. */
  lemma IntendedWiringDecidesByFlag(fetchError: Option<string>, readError: Option<string>, isClockedIn: Option<bool>)
    ensures RingSaleEffect(RingSaleCheck(Wiring(true, true), fetchError, readError, isClockedIn)) ==
      if isClockedIn == Some(true) then Navigate("/dashboard") else Alert(RingSaleRefusal)
  {
    NotClockedInSeesRefusal(isClockedIn);
  }

  class Controller {
    var dialogContext: Option<DialogContext>
    var loginPurpose: Option<LoginPurpose>
    var userID: string
    var activeComponent: View

    /** The cells stay coherent: dialog and purpose are paired, and the punch
        dialog is only ever open over the punch view. */
    ghost predicate Valid()
      reads this
    {
      && Paired(dialogContext, loginPurpose)
      && (dialogContext == Some(TimePunchDialog) ==> activeComponent == TimePunchView)
    }

    /** The initial state of the four cells. */
    constructor ()
      ensures Valid()
      ensures dialogContext == None && loginPurpose == None && userID == "" && activeComponent == ClockSummaryView
    {
      dialogContext := None;
      loginPurpose := None;
      userID := "";
      activeComponent := ClockSummaryView;
    }

    /** closeDialog: clears dialog and purpose, and switches the view only when a
        fallback is given. */
    method CloseDialog(fallbackView: Option<View>)
      requires Valid()
      modifies this
      ensures Valid()
      ensures dialogContext == None && loginPurpose == None && userID == old(userID)
      ensures activeComponent == fallbackView.GetOr(old(activeComponent))
    {
      dialogContext := None;
      loginPurpose := None;
      if fallbackView.Some? {
        activeComponent := fallbackView.value;
      }
    }

    /** handleButtonClick */
    method HandleButtonClick(action: ButtonAction)
      requires Valid()
      modifies this
      ensures Valid()
      ensures action == TimePunchAction ==>
        && userID == "" && loginPurpose == Some(PunchPurpose)
        && dialogContext == Some(TimePunchDialog) && activeComponent == TimePunchView
      ensures action == RingSaleAction ==>
        && userID == "" && loginPurpose == Some(RingSalePurpose)
        && dialogContext == Some(RingSaleDialog) && activeComponent == old(activeComponent)
      ensures action == TimeClockSummaryAction ==>
        && dialogContext == None && loginPurpose == None
        && activeComponent == ClockSummaryView && userID == old(userID)
      ensures action == NullAction ==>
        && dialogContext == old(dialogContext) && loginPurpose == old(loginPurpose)
        && userID == old(userID) && activeComponent == old(activeComponent)
    {
      match action
      case TimePunchAction =>
        userID := "";
        loginPurpose := Some(PunchPurpose);
        dialogContext := Some(TimePunchDialog);
        activeComponent := TimePunchView;
      case TimeClockSummaryAction =>
        CloseDialog(None);
        activeComponent := ClockSummaryView;
      case RingSaleAction =>
        userID := "";
        loginPurpose := Some(RingSalePurpose);
        dialogContext := Some(RingSaleDialog);
      case NullAction =>
    }

    /** handleLoginSuccess. A missing (null or empty) id or token resets the user
        and falls back to the summary; on the punch path the dialog closes over
        the current view; on the ring-sale path the access check decides the
        effect and the dialog always closes onto the summary. */
    method HandleLoginSuccess(id: Option<string>, token: Option<string>, validation: Validation) returns (effect: Effect)
      requires Valid()
      modifies this
      ensures Valid()
      ensures dialogContext == None && loginPurpose == None
      ensures !Truthy(id) || !Truthy(token) ==>
        userID == "" && activeComponent == ClockSummaryView && effect == NoEffect
      ensures Truthy(id) && Truthy(token) ==> userID == id.value
      ensures Truthy(id) && Truthy(token) && old(loginPurpose) == Some(RingSalePurpose) ==>
        activeComponent == ClockSummaryView && effect == RingSaleEffect(validation)
      ensures Truthy(id) && Truthy(token) && old(loginPurpose) != Some(RingSalePurpose) ==>
        activeComponent == old(activeComponent) && effect == NoEffect
    {
      if !Truthy(id) || !Truthy(token) {
        userID := "";
        CloseDialog(Some(ClockSummaryView));
        return NoEffect;
      }
      userID := id.value;
      if loginPurpose == Some(RingSalePurpose) {
        effect := RingSaleEffect(validation);
        CloseDialog(Some(ClockSummaryView));
      } else {
        CloseDialog(None);
        effect := NoEffect;
      }
    }
  }
}
