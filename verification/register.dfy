/**
 The registration form (frontend/src/pages/Register.tsx): the
 password-mismatch message kept up to date while typing, and the submit
 guard and payload.
 */
module Register {
  import opened Wrappers
  import Forms

  const MismatchMessage := "Las contrase\U{00F1}as no coinciden"

  datatype Field = Name | Email | Password | ConfirmPassword

  datatype Form = Form(name: string, email: string, password: string, confirmPassword: string)

  /** The form and the mismatch message ("" when none). */
  datatype RegisterForm = RegisterForm(form: Form, passwordError: string)

  const Initial := RegisterForm(Form("", "", "", ""), "")

  function SetField(f: Form, field: Field, v: string): Form {
    match field
    case Name => f.(name := v)
    case Email => f.(email := v)
    case Password => f.(password := v)
    case ConfirmPassword => f.(confirmPassword := v)
  }

  /** `handleChange`: the field takes the value; an edit of either password
      field compares the new value with the other field's current value
      and sets or clears the message; other fields leave it alone. */
  function HandleChange(st: RegisterForm, field: Field, v: string): (r: RegisterForm)
    ensures r.form == SetField(st.form, field, v)
    ensures field == ConfirmPassword ==> (r.passwordError == MismatchMessage <==> v != st.form.password)
    ensures field == Password ==> (r.passwordError == MismatchMessage <==> v != st.form.confirmPassword)
    ensures (field == Password || field == ConfirmPassword) ==> r.passwordError in {"", MismatchMessage}
    ensures (field == Name || field == Email) ==> r.passwordError == st.passwordError
  {
    var form := SetField(st.form, field, v);
    if field == ConfirmPassword || field == Password then
      if field == ConfirmPassword && v != st.form.password then RegisterForm(form, MismatchMessage)
      else if field == Password && v != st.form.confirmPassword then RegisterForm(form, MismatchMessage)
      else RegisterForm(form, "")
    else RegisterForm(form, st.passwordError)
  }

  /** The message is shown exactly when the two password fields differ. */
  predicate Consistent(st: RegisterForm) {
    (st.passwordError != "") <==> st.form.password != st.form.confirmPassword
  }

  /** What `register` is dispatched with: the form without
      confirmPassword. */
  datatype Credentials = Credentials(name: string, email: string, password: string)

  /** The outcome of a submit: the new form state, the dispatched
      credentials (if any) and the route navigated to (if any). */
  datatype Submission = Submission(state: RegisterForm, dispatched: Option<Credentials>, navigate: Option<string>)

  /** `handleSubmit`: a mismatch sets the message and stops; otherwise
      `register` is dispatched and the page goes to "/". The dispatched
      thunk resolves whether or not registration succeeds, so the
      navigation does not depend on the outcome. */
  function HandleSubmit(st: RegisterForm): (r: Submission)
    ensures st.form.password != st.form.confirmPassword ==>
      r.dispatched.None? && r.navigate.None? && r.state == st.(passwordError := MismatchMessage)
    ensures st.form.password == st.form.confirmPassword ==>
      r.state == st && r.navigate == Some("/") &&
      r.dispatched == Some(Credentials(st.form.name, st.form.email, st.form.password))
  {
    if st.form.password != st.form.confirmPassword then
      Submission(st.(passwordError := MismatchMessage), None, None)
    else
      Submission(st, Some(Credentials(st.form.name, st.form.email, st.form.password)), Some("/"))
  }

  /** The submit button is disabled while loading or while a message is
      shown. */
  predicate SubmitDisabled(st: RegisterForm, loading: bool) {
    loading || st.passwordError != ""
  }

  /** What the browser checks before `submit` fires: all four fields are
      `required`, and the email field is `type="email"`. The form does not
      opt out with `noValidate`. */
  predicate NativeValid(f: Form) {
    && Forms.RequiredFilled(f.name)
    && Forms.RequiredFilled(f.email) && Forms.EmailConforms(f.email)
    && Forms.RequiredFilled(f.password)
    && Forms.RequiredFilled(f.confirmPassword)
  }

  /** Pressing the enabled submit button: the browser refuses a form that
      fails its own check, and then nothing changes and nothing is sent;
      otherwise `handleSubmit` runs. Whatever is dispatched has a name, a
      password and a valid e-mail address. */
  function SubmitForm(st: RegisterForm): (r: Submission)
    ensures !NativeValid(st.form) ==> r == Submission(st, None, None)
    ensures NativeValid(st.form) ==> r == HandleSubmit(st)
    ensures r.dispatched.Some? ==>
      && r.dispatched.value.name != "" && r.dispatched.value.password != ""
      && Forms.ValidEmail(r.dispatched.value.email)
  {
    if NativeValid(st.form) then HandleSubmit(st) else Submission(st, None, None)
  }

  datatype Event = Edit(field: Field, value: string) | Submit

  function Step(st: RegisterForm, ev: Event): RegisterForm {
    match ev
    case Edit(f, v) => HandleChange(st, f, v)
    case Submit => SubmitForm(st).state
  }

  function Run(st: RegisterForm, evs: seq<Event>): RegisterForm
    decreases |evs|
  {
    if |evs| == 0 then st else Run(Step(st, evs[0]), evs[1..])
  }

  /** Each edit and each submit keeps the message in step with the two
      password fields. */
  lemma StepKeepsConsistent(st: RegisterForm, ev: Event)
    requires Consistent(st)
    ensures Consistent(Step(st, ev))
  {
  }

  /** From the empty form, after any edits and submits the message is
      shown exactly when the passwords differ. So, when not loading, the
      button is enabled exactly when `handleSubmit` would dispatch, and a
      press dispatches exactly when the button is enabled and the browser
      accepts the fields. */
  lemma {:induction false} MessageTracksMismatch(evs: seq<Event>)
    ensures Consistent(Run(Initial, evs))
    ensures var st := Run(Initial, evs);
      !SubmitDisabled(st, false) <==> HandleSubmit(st).dispatched.Some?
    ensures var st := Run(Initial, evs);
      (!SubmitDisabled(st, false) && NativeValid(st.form)) <==> SubmitForm(st).dispatched.Some?
  {
    RunKeepsConsistent(Initial, evs);
  }

  /** A form whose email holds no "@" (the untouched form among them) is
      stopped by the browser: nothing is dispatched and the page stays. */
  lemma EmailWithoutAtIsRefused(st: RegisterForm)
    requires forall i :: 0 <= i < |st.form.email| ==> st.form.email[i] != '@'
    ensures SubmitForm(st) == Submission(st, None, None)
  {
    Forms.NoAtNoEmail(st.form.email);
  }

  /** A filled-in form with a valid address and matching passwords is
      dispatched and navigates to "/". */
  lemma WellFormedFormIsSent(name: string, email: string, password: string)
    requires name != "" && password != "" && Forms.ValidEmail(email)
    ensures var st := RegisterForm(Form(name, email, password, password), "");
      SubmitForm(st) == Submission(st, Some(Credentials(name, email, password)), Some("/"))
  {
  }

  lemma {:induction false} RunKeepsConsistent(st: RegisterForm, evs: seq<Event>)
    requires Consistent(st)
    ensures Consistent(Run(st, evs))
    decreases |evs|
  {
    if |evs| > 0 {
      StepKeepsConsistent(st, evs[0]);
      RunKeepsConsistent(Step(st, evs[0]), evs[1..]);
    }
  }
}
