/**
 * The landing page's interactive state: the waitlist form and its submit
 * handler, the single custom alert, and the cookie notice.
 *
 * The document is abstracted to the fields the handlers read and write.
 * The network is not modelled: a request is recorded in `sent`, and how its
 * promise chain ends is a `Response` the caller supplies to `Settle`.
 */
module Landing {
  import Email
  import Config

  datatype Option<T> = None | Some(value: T)

  /** The `type` argument of `showAlert`; the handlers use `success` and
      `error`, and `info` is the default. */
  datatype AlertType = Info | Success | Error

  datatype Alert = Alert(message: string, kind: AlertType)

  /** What `FormData.get` and the checkbox give at submit time: `None` for a
      field the form does not have (`FormData.get` returns null). */
  datatype FormFields = FormFields(
    name: Option<string>, email: Option<string>, message: Option<string>, emailUpdates: bool)

  /** The JSON body posted to the endpoint. */
  datatype Payload = Payload(name: string, email: string, message: string, emailUpdates: bool)

  /** Which way the submit handler goes. */
  datatype Decision = MissingRequired | MalformedEmail | Accepted(payload: Payload)

  /** How the request's promise chain ends: a status that is not ok; a body
      whose `success` is not truthy; any thrown error (network failure, a
      body that is not JSON); the abort fired by the timeout; or a body with a
      truthy `success`. */
  datatype Response = NotOk | ReportedFailure | Threw | Aborted | Confirmed

  /** The `display` style of the cookie notice element. */
  datatype Display = Unset | Shown | Hidden

  const REQUIRED_FIELDS_MESSAGE := "Please fill in all required fields."
  const INVALID_EMAIL_MESSAGE := "Please enter a valid email address."

  /** JavaScript truthiness of a `FormData.get` result: null and `''` are
      falsy. */
  predicate Filled(v: Option<string>): (r: bool)
    ensures v.None? ==> !r
    ensures v.Some? ==> (r <==> |v.value| > 0)
  {
    v.Some? && v.value != ""
  }

  /** `message || ''`. */
  function MessageOrEmpty(v: Option<string>): (m: string)
    ensures v.Some? ==> m == v.value
    ensures v.None? ==> m == ""
  {
    if Filled(v) then v.value else ""
  }

  /** The submit handler's choice, read off the form at submit time. */
  function Decide(f: FormFields): (d: Decision)
    ensures d == MissingRequired <==> !Filled(f.name) || !Filled(f.email)
    ensures d == MalformedEmail <==>
      Filled(f.name) && Filled(f.email) && !Email.MatchesShape(f.email.value)
    ensures d.Accepted? ==>
      d.payload.name == f.name.value && d.payload.name != ""
      && d.payload.email == f.email.value && Email.MatchesShape(d.payload.email)
      && d.payload.message == (if f.message.Some? then f.message.value else "")
      && d.payload.emailUpdates == f.emailUpdates
  {
    if !Filled(f.name) || !Filled(f.email) then
      MissingRequired
    else
      if !Email.IsValidEmail(f.email.value) then MalformedEmail
      else Accepted(Payload(f.name.value, f.email.value, MessageOrEmpty(f.message), f.emailUpdates))
  }

  /** The alerts in the document after `showAlert(a)`: the first existing one
      is removed and `a` is appended. */
  function Presented(alerts: seq<Alert>, a: Alert): (r: seq<Alert>)
    ensures |alerts| <= 1 ==> r == [a]
    ensures |r| == if alerts == [] then 1 else |alerts|
    ensures r[|r| - 1] == a && r[..|r| - 1] == if alerts == [] then [] else alerts[1..]
  {
    (if alerts == [] then [] else alerts[1..]) + [a]
  }

  class Page {
    const config: Config.Settings
    /** The values `form.reset()` restores. */
    const formDefaults: FormFields
    /** Whether the document has the `cookieNotice` element. */
    const hasCookieNotice: bool
    /** The submit button's label in the markup. */
    const initialButtonLabel: string

    var form: FormFields
    var buttonLabel: string
    var buttonDisabled: bool
    /** The `.custom-alert` elements, in document order. */
    var alerts: seq<Alert>
    /** The bodies of the requests posted so far, in order. */
    var sent: seq<Payload>
    /** Requests whose promise chain has not settled yet. */
    var inFlight: nat
    /** The `cookieAccepted` entry of local storage is set. */
    var cookieAccepted: bool
    var cookieNoticeDisplay: Display

    /** At most one alert is shown, and every pending request was sent. */
    ghost predicate Valid()
      reads this
    {
      |alerts| <= 1 && inFlight <= |sent|
    }

    /** Loading the page: the `DOMContentLoaded` handler shows or hides the
        cookie notice from the stored flag. */
    constructor Load(config: Config.Settings, formDefaults: FormFields, hasCookieNotice: bool,
                     storedAccepted: bool, initialButtonLabel: string)
      ensures Valid()
      ensures this.config == config && this.formDefaults == formDefaults
      ensures this.hasCookieNotice == hasCookieNotice && this.initialButtonLabel == initialButtonLabel
      ensures form == formDefaults && buttonLabel == initialButtonLabel && !buttonDisabled
      ensures alerts == [] && sent == [] && inFlight == 0 && cookieAccepted == storedAccepted
      ensures cookieNoticeDisplay == if !hasCookieNotice then Unset
                                     else if storedAccepted then Hidden else Shown
    {
      this.config := config;
      this.formDefaults := formDefaults;
      this.hasCookieNotice := hasCookieNotice;
      this.initialButtonLabel := initialButtonLabel;
      form := formDefaults;
      buttonLabel := initialButtonLabel;
      buttonDisabled := false;
      alerts := [];
      sent := [];
      inFlight := 0;
      cookieAccepted := storedAccepted;
      cookieNoticeDisplay := Unset;
      new;
      ShowCookieNotice();
    }

    /** `showAlert(message, type)`: the new alert replaces the one shown. */
    method ShowAlert(message: string, kind: AlertType)
      modifies this`alerts
      ensures alerts == Presented(old(alerts), Alert(message, kind))
      ensures old(|alerts|) <= 1 ==> alerts == [Alert(message, kind)]
    {
      if alerts != [] {
        alerts := alerts[1..];
      }
      alerts := alerts + [Alert(message, kind)];
    }

    /** `showCookieNotice()`: shown unless the flag is stored, when the
        element exists. */
    method ShowCookieNotice()
      modifies this`cookieNoticeDisplay
      ensures hasCookieNotice ==> cookieNoticeDisplay == if cookieAccepted then Hidden else Shown
      ensures !hasCookieNotice ==> cookieNoticeDisplay == old(cookieNoticeDisplay)
    {
      if !cookieAccepted && hasCookieNotice {
        cookieNoticeDisplay := Shown;
      } else if hasCookieNotice {
        cookieNoticeDisplay := Hidden;
      }
    }

    /** `acceptCookies()`: hides the notice and stores the flag, but only when
        the element exists. */
    method AcceptCookies()
      modifies this`cookieNoticeDisplay, this`cookieAccepted
      ensures hasCookieNotice ==> cookieAccepted && cookieNoticeDisplay == Hidden
      ensures !hasCookieNotice ==>
        cookieAccepted == old(cookieAccepted) && cookieNoticeDisplay == old(cookieNoticeDisplay)
    {
      if hasCookieNotice {
        cookieNoticeDisplay := Hidden;
        cookieAccepted := true;
      }
    }

    /** Loading the page again: only the stored flag survives. */
    method Reload() returns (next: Page)
      ensures fresh(next) && next.Valid()
      ensures next.cookieAccepted == cookieAccepted && next.hasCookieNotice == hasCookieNotice
      ensures hasCookieNotice ==> next.cookieNoticeDisplay == if cookieAccepted then Hidden else Shown
      ensures next.alerts == [] && next.sent == [] && next.form == formDefaults
    {
      next := new Page.Load(config, formDefaults, hasCookieNotice, cookieAccepted, initialButtonLabel);
    }

    /** The synchronous part of the submit handler: validate, then show the
        thank-you alert, reset the form, mark the button and post the body. */
    method Submit() returns (d: Decision)
      requires Valid()
      modifies this`form, this`buttonLabel, this`buttonDisabled, this`alerts, this`sent, this`inFlight
      ensures Valid()
      ensures d == Decide(old(form))
      ensures d == MissingRequired ==> alerts == [Alert(REQUIRED_FIELDS_MESSAGE, Error)]
      ensures d == MalformedEmail ==> alerts == [Alert(INVALID_EMAIL_MESSAGE, Error)]
      ensures !d.Accepted? ==>
        form == old(form) && buttonLabel == old(buttonLabel) && buttonDisabled == old(buttonDisabled)
        && sent == old(sent) && inFlight == old(inFlight)
      ensures d.Accepted? ==>
        alerts == [Alert(config.ui.formSuccessMessage, Success)] && form == formDefaults
        && buttonLabel == config.ui.buttonStates.success && buttonDisabled
        && sent == old(sent) + [d.payload] && inFlight == old(inFlight) + 1
    {
      var f := form;
      var name, email, message, emailUpdates := f.name, f.email, f.message, f.emailUpdates;
      if !Filled(name) || !Filled(email) {
        assert Decide(f) == MissingRequired;
        ShowAlert(REQUIRED_FIELDS_MESSAGE, Error);
        return MissingRequired;
      }
      if !Email.IsValidEmail(email.value) {
        assert Decide(f) == MalformedEmail;
        ShowAlert(INVALID_EMAIL_MESSAGE, Error);
        return MalformedEmail;
      }
      ShowAlert(config.ui.formSuccessMessage, Success);
      form := formDefaults;
      buttonLabel := config.ui.buttonStates.success;
      buttonDisabled := true;
      var payload := Payload(name.value, email.value, MessageOrEmpty(message), emailUpdates);
      assert Decide(f) == Accepted(payload);
      sent := sent + [payload];
      inFlight := inFlight + 1;
      d := Accepted(payload);
    }

    /** The end of one request's promise chain: every failure shows the same
        error alert; a confirmation shows nothing more.  The form is not
        restored. */
    method Settle(r: Response)
      requires Valid() && inFlight > 0
      modifies this`alerts, this`inFlight
      ensures Valid()
      ensures inFlight == old(inFlight) - 1
      ensures r == Confirmed ==> alerts == old(alerts)
      ensures r != Confirmed ==> alerts == [Alert(config.ui.formErrorMessage, Error)]
      ensures form == old(form) && sent == old(sent)
    {
      inFlight := inFlight - 1;
      if r != Confirmed {
        ShowAlert(config.ui.formErrorMessage, Error);
      }
    }

    /** The whole submit handler, with the request's outcome `r` given. */
    method HandleSubmit(r: Response) returns (d: Decision)
      requires Valid()
      modifies this`form, this`buttonLabel, this`buttonDisabled, this`alerts, this`sent, this`inFlight
      ensures Valid() && d == Decide(old(form)) && inFlight == old(inFlight)
      ensures d == MissingRequired ==> alerts == [Alert(REQUIRED_FIELDS_MESSAGE, Error)]
      ensures d == MalformedEmail ==> alerts == [Alert(INVALID_EMAIL_MESSAGE, Error)]
      ensures !d.Accepted? ==>
        form == old(form) && sent == old(sent)
        && buttonLabel == old(buttonLabel) && buttonDisabled == old(buttonDisabled)
      ensures d.Accepted? ==>
        form == formDefaults && sent == old(sent) + [d.payload]
        && buttonLabel == config.ui.buttonStates.success && buttonDisabled
        && alerts == [if r == Confirmed then Alert(config.ui.formSuccessMessage, Success)
                      else Alert(config.ui.formErrorMessage, Error)]
    {
      d := Submit();
      if d.Accepted? {
        Settle(r);
      }
    }
  }
}
