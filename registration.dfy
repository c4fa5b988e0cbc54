/** The registration page (src/pages/Register.js) as a stateful component: the form,
    the referral timer, the validation record, and the submit path. */
module Registration {
  import opened Wrappers
  import opened JsStrings
  import opened Referral
  import Gateway
  import Session

  const FieldName := "name"
  const FieldEmail := "email"
  const FieldPassword := "password"
  const FieldConfirm := "confirmPassword"
  const FieldReferral := "referralId"
  const FormFields := {FieldName, FieldEmail, FieldPassword, FieldConfirm, FieldReferral}

  const PasswordMismatch := "Passwords do not match"
  const RegistrationFailed := "Registration failed"
  const RegisterEndpoint := "/auth/register"
  const HomePath := "/"

  /** The initial `formData`: every field empty. */
  const EmptyForm := map[FieldName := "", FieldEmail := "", FieldPassword := "",
                         FieldConfirm := "", FieldReferral := ""]

  /** The body of the registration request. */
  datatype Payload = Payload(name: string, email: string, password: string, referralId: Option<string>)

  /** The registration `fetch`: its URL and body (its only header is the JSON content type). */
  datatype RegisterRequest = RegisterRequest(url: string, payload: Payload)

  /** How the registration request ends: an ok reply with the session, a non-ok reply
      with its `message` (absent when missing), or a thrown error with its message (a
      transport failure, or a body that is not JSON). */
  datatype RegisterReply = Registered(token: string, user: Session.Profile)
                         | Refused(message: Option<string>)
                         | Broken(reason: string)

  /** A pending debounce timer: when it is due and the field value it captured. */
  datatype Timer = Timer(due: int, value: string)

  /** A referral check handed to the gateway, tagged with its validation cycle. */
  datatype ValidationRequest = ValidationRequest(cycle: nat, call: Gateway.Call)

  /** The body sent on submit: the three fields as typed, and the referral code as typed
      (not trimmed), or `null` when the field is empty. */
  function BuildPayload(form: map<string, string>): (p: Payload)
    requires FormFields <= form.Keys
    ensures p.name == form[FieldName] && p.email == form[FieldEmail] && p.password == form[FieldPassword]
    ensures p.referralId.None? <==> form[FieldReferral] == ""
    ensures p.referralId.Some? ==> p.referralId.value == form[FieldReferral]
  {
    Payload(form[FieldName], form[FieldEmail], form[FieldPassword],
            if form[FieldReferral] == "" then None else Some(form[FieldReferral]))
  }

  /** A non-empty code of blanks is never validated, yet it is sent on submit as typed. */
  lemma BlankReferralIsSentUnvalidated(form: map<string, string>, prev: ReferralValidation)
    requires FormFields <= form.Keys
    requires form[FieldReferral] != "" && AllWhite(form[FieldReferral])
    ensures Begin(prev, form[FieldReferral]) == (Untouched, None)
    ensures BuildPayload(form).referralId == Some(form[FieldReferral])
  {
  }

  /** The registration URL as written: `process.env.REACT_APP_API_URL + '/auth/register'`,
      where an unset variable reads as the string "undefined". */
  function RegisterUrlAsWritten(env: Option<string>): (u: string)
    ensures |u| >= |RegisterEndpoint| && u[|u| - |RegisterEndpoint|..] == RegisterEndpoint
  {
    (if env.None? then "undefined" else env.value) + RegisterEndpoint
  }

  /** Without the variable, the page posts to "undefined/auth/register" (a relative path)
      while every other call goes to the default base URL. */
  lemma RegisterUrlIgnoresDefault()
    ensures RegisterUrlAsWritten(None) == "undefined/auth/register"
    ensures RegisterUrlAsWritten(Some("")) == "/auth/register"
    ensures Gateway.BaseUrl(None) + RegisterEndpoint == "http://localhost:3001/auth/register"
    ensures RegisterUrlAsWritten(None) != Gateway.BaseUrl(None) + RegisterEndpoint
  {
  }

  /** The registration URL built from the same base as every other call. */
  function RegisterUrl(env: Option<string>): (u: string)
    ensures Truthy(env) ==> u == RegisterUrlAsWritten(env)
    ensures !Truthy(env) ==> u == "http://localhost:3001/auth/register"
  {
    Gateway.BaseUrl(env) + RegisterEndpoint
  }

  class RegisterPage {
    var form: map<string, string>
    var error: string
    var loading: bool
    var validation: ReferralValidation
    var timer: Option<Timer>
    /** Validation cycles started so far; a reply counts only for the latest one. */
    var cycle: nat
    var navigatedTo: Option<string>

    ghost predicate Valid()
      reads this
    {
      FormFields <= form.Keys && WellFormed(validation)
    }

    constructor ()
      ensures Valid()
      ensures form == EmptyForm && error == "" && !loading && validation == Untouched
      ensures timer == None && cycle == 0 && navigatedTo == None
    {
      form := EmptyForm;
      error := "";
      loading := false;
      validation := Untouched;
      timer := None;
      cycle := 0;
      navigatedTo := None;
    }

    /** `handleChange`: the field the event names takes the event's value; every other
        field (and everything else on the page) stays. */
    method HandleChange(name: string, value: string)
      requires Valid()
      modifies this`form
      ensures Valid()
      ensures form == old(form)[name := value]
      ensures forall k :: k in old(form) && k != name ==> k in form && form[k] == old(form)[k]
    {
      form := form[name := value];
    }

    /** The referral effect, run when `referralId` changed at time `now`: the previous
        timer is cleared and a new one, due 500 ms later, captures the current value. */
    method ReferralEffect(now: int)
      requires Valid()
      modifies this`timer
      ensures Valid()
      ensures timer == Some(Timer(now + QuietMs, form[FieldReferral]))
    {
      timer := Some(Timer(now + QuietMs, form[FieldReferral]));
    }

    /** Time passes to `now`. A due timer fires: a value that trims to nothing resets the
        record and sends nothing; otherwise `isValidating` is raised and the trimmed
        code is sent, tagged with the new cycle. */
    method Tick(now: int) returns (fired: Option<string>, request: Option<ValidationRequest>)
      requires Valid()
      modifies this`timer, this`validation, this`cycle
      ensures Valid()
      ensures old(timer).Some? && old(timer).value.due <= now ==>
        fired == Some(old(timer).value.value) && timer == None && cycle == old(cycle) + 1 &&
        validation == Begin(old(validation), fired.value).0 &&
        request == match Begin(old(validation), fired.value).1
                   case None => None
                   case Some(code) => Some(ValidationRequest(cycle, Gateway.ValidateReferralCode(code)))
      ensures !(old(timer).Some? && old(timer).value.due <= now) ==>
        fired == None && request == None && timer == old(timer) &&
        validation == old(validation) && cycle == old(cycle)
    {
      fired, request := None, None;
      if timer.Some? && timer.value.due <= now {
        var raw := timer.value.value;
        timer := None;
        fired := Some(raw);
        cycle := cycle + 1;
        var next := Begin(validation, raw);
        CycleKeepsWellFormed(validation, raw, Invalid);
        validation := next.0;
        if next.1.Some? {
          request := Some(ValidationRequest(cycle, Gateway.ValidateReferralCode(next.1.value)));
        }
      }
    }

    /** A reply to the request of cycle `c` arrives; only the latest cycle's reply is
        applied. */
    method Settle(c: nat, o: Outcome)
      requires Valid()
      modifies this`validation
      ensures Valid()
      ensures validation == if c == cycle then Settled(o) else old(validation)
    {
      CycleKeepsWellFormed(validation, "", o);
      if c == cycle {
        validation := Settled(o);
      }
    }

    /** Unmounting clears the pending timer. */
    method Unmount()
      modifies this`timer
      ensures timer == None
    {
      timer := None;
    }

    /** `handleSubmit` up to the request: the error is cleared; mismatched passwords set
        the mismatch error and send nothing; otherwise loading starts and the request
        carries the payload, whatever the validation record says. */
    method Submit(env: Option<string>) returns (request: Option<RegisterRequest>)
      requires Valid()
      modifies this`error, this`loading
      ensures Valid()
      ensures form[FieldPassword] != form[FieldConfirm] ==>
        error == PasswordMismatch && request == None && loading == old(loading)
      ensures form[FieldPassword] == form[FieldConfirm] ==>
        error == "" && loading && request == Some(RegisterRequest(RegisterUrl(env), BuildPayload(form)))
    {
      error := "";
      if form[FieldPassword] != form[FieldConfirm] {
        error := PasswordMismatch;
        return None;
      }
      loading := true;
      request := Some(RegisterRequest(RegisterUrl(env), BuildPayload(form)));
    }

    /** The rest of `handleSubmit`: a successful reply logs in and goes home; a refusal
        shows its message or a generic one; a thrown error shows its message. Loading
        ends in every case. */
    method Finish(reply: RegisterReply, auth: Session.AuthProvider)
      requires Valid() && auth.Valid()
      modifies this`error, this`loading, this`navigatedTo, auth, auth.storage
      ensures Valid() && auth.Valid() && !loading
      ensures auth.loading == old(auth.loading)
      ensures reply.Registered? ==>
        auth.token == Some(reply.token) && auth.user == Some(reply.user) &&
        auth.storage.items == old(auth.storage.items)[Session.TokenKey := reply.token][Session.UserKey := auth.encode(reply.user)] &&
        navigatedTo == Some(HomePath) && error == old(error)
      ensures reply.Refused? ==>
        error == (if Truthy(reply.message) then reply.message.value else RegistrationFailed) &&
        auth.storage.items == old(auth.storage.items) && navigatedTo == old(navigatedTo)
      ensures reply.Broken? ==>
        error == reply.reason && auth.storage.items == old(auth.storage.items) && navigatedTo == old(navigatedTo)
      ensures !reply.Registered? ==> auth.token == old(auth.token) && auth.user == old(auth.user)
    {
      match reply {
        case Registered(t, u) =>
          auth.Login(t, u);
          navigatedTo := Some(HomePath);
        case Refused(m) =>
          error := if Truthy(m) then m.value else RegistrationFailed;
        case Broken(m) =>
          error := m;
      }
      loading := false;
    }
  }

  /** Drives a page through a sequence of referral edits — each one typed into the field
      and followed by the effect — letting due timers fire in between, then either
      unmounts at `unmountAt` or lets the last timer run. The values validated are
      exactly those the debounce rule `Fired` selects. */
  method ReplayReferralEdits(p: RegisterPage, edits: seq<Edit>, unmountAt: Option<int>)
    returns (fired: seq<string>)
    requires p.Valid() && p.timer == None
    modifies p
    ensures p.Valid()
    ensures fired == Fired(edits, unmountAt)
    ensures p.timer == None
  {
    fired := [];
    var i := 0;
    while i < |edits|
      invariant 0 <= i <= |edits|
      invariant p.Valid()
      invariant fired == Decided(edits, i)
      invariant i == 0 ==> p.timer == None
      invariant i > 0 ==> p.timer == Some(Timer(edits[i - 1].at + QuietMs, edits[i - 1].value))
    {
      var f, _ := p.Tick(edits[i].at);
      if f.Some? {
        fired := fired + [f.value];
      }
      p.HandleChange(FieldReferral, edits[i].value);
      p.ReferralEffect(edits[i].at);
      i := i + 1;
    }
    if edits != [] {
      var last := edits[|edits| - 1];
      var f, _ := p.Tick(if unmountAt.Some? then unmountAt.value else last.at + QuietMs);
      if f.Some? {
        fired := fired + [f.value];
      }
    }
    p.Unmount();
  }
}
