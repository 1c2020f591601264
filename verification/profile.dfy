/**
 The profile page (frontend/src/pages/Profile.tsx): the form filled in from
 the signed-in user, and the submit guard and payload for updateProfile.
 */
module Profile {
  import opened Wrappers
  import AuthSlice
  import Forms

  const MismatchMessage := "Las contrase\U{00F1}as no coinciden"

  datatype Form = Form(name: string, email: string, password: string, confirmPassword: string)

  /** The page state besides the store: the form, its error, and whether
      the form is open for editing. */
  datatype ProfilePage = ProfilePage(form: Form, formError: string, isEditing: bool)

  const Initial := ProfilePage(Form("", "", "", ""), "", false)

  /** The effect on the user: a visitor is sent to "/login" and the form is
      left alone; otherwise the form takes the user's name and email (or
      "" for a missing one) and both password fields are emptied. */
  function LoadUser(pg: ProfilePage, user: Option<AuthSlice.User>): (r: (ProfilePage, Option<string>))
    ensures user.None? ==> r == (pg, Some("/login"))
    ensures user.Some? ==> r.1.None? && r.0.formError == pg.formError && r.0.isEditing == pg.isEditing
    ensures user.Some? ==> r.0.form.password == "" && r.0.form.confirmPassword == ""
    ensures user.Some? && user.value.name.Some? ==> r.0.form.name == user.value.name.value
    ensures user.Some? && user.value.email.Some? ==> r.0.form.email == user.value.email.value
    ensures user.Some? && user.value.name.None? ==> r.0.form.name == ""
    ensures user.Some? && user.value.email.None? ==> r.0.form.email == ""
  {
    match user
    case None => (pg, Some("/login"))
    case Some(u) => (pg.(form := Form(OrElse(u.name, ""), OrElse(u.email, ""), "", "")), None)
  }

  /** The updateProfile argument: an absent field means "no change". */
  datatype ProfileUpdate = ProfileUpdate(name: Option<string>, email: Option<string>, password: Option<string>)

  /** `handleSubmit`: the error is cleared first; a mismatch sets it and
      stops. Otherwise updateProfile is dispatched with the name, the email
      and the password (absent when empty), and editing ends. The
      dispatched thunk resolves whether or not the update succeeds, so the
      catch branch never runs and editing ends in both cases. */
  function HandleSubmit(pg: ProfilePage): (r: (ProfilePage, Option<ProfileUpdate>))
    ensures pg.form.password != pg.form.confirmPassword ==>
      r == (pg.(formError := MismatchMessage), None)
    ensures pg.form.password == pg.form.confirmPassword ==>
      r.1.Some? && r.0 == pg.(formError := "", isEditing := false)
    ensures r.1.Some? ==> r.1.value.name == Some(pg.form.name) && r.1.value.email == Some(pg.form.email)
    ensures r.1.Some? ==> (r.1.value.password.None? <==> pg.form.password == "")
    ensures r.1.Some? && r.1.value.password.Some? ==>
      r.1.value.password.value == pg.form.password == pg.form.confirmPassword
  {
    var cleared := pg.(formError := "");
    if cleared.form.password != cleared.form.confirmPassword then
      (cleared.(formError := MismatchMessage), None)
    else
      var pw := if cleared.form.password == "" then None else Some(cleared.form.password);
      (cleared.(isEditing := false), Some(ProfileUpdate(Some(cleared.form.name), Some(cleared.form.email), pw)))
  }

  /** What the browser checks before `submit` fires: no field is
      `required`, and the email field is `type="email"`, so an empty email
      passes and any other must be a valid address. */
  predicate NativeValid(f: Form) {
    Forms.EmailConforms(f.email)
  }

  /** Pressing "Guardar Cambios". The button exists only while editing and
      is disabled while the store is loading; with no usable submit button
      the form, holding several text fields, is not submitted by Enter
      either. A form the browser refuses changes nothing and sends
      nothing; otherwise `handleSubmit` runs. Whatever is sent carries an
      empty email or a valid address. */
  function SubmitForm(pg: ProfilePage, loading: bool): (r: (ProfilePage, Option<ProfileUpdate>))
    ensures !pg.isEditing || loading || !NativeValid(pg.form) ==> r == (pg, None)
    ensures pg.isEditing && !loading && NativeValid(pg.form) ==> r == HandleSubmit(pg)
    ensures r.1.Some? ==> r.1.value.email.Some? && Forms.EmailConforms(r.1.value.email.value)
  {
    if pg.isEditing && !loading && NativeValid(pg.form) then HandleSubmit(pg) else (pg, None)
  }

  /** A non-empty email without an "@" is stopped by the browser. */
  lemma EmailWithoutAtIsRefused(pg: ProfilePage, loading: bool)
    requires pg.form.email != ""
    requires forall i :: 0 <= i < |pg.form.email| ==> pg.form.email[i] != '@'
    ensures SubmitForm(pg, loading) == (pg, None)
  {
    Forms.NoAtNoEmail(pg.form.email);
  }

  /** The store merges the server's reply to the update, not the form:
      every field the reply carries wins over the signed-in user's, the
      others survive, and with no user left in the store the reply becomes
      the user. */
  lemma StoreFollowsReply(st: AuthSlice.AuthState, reply: AuthSlice.User)
    ensures var u := AuthSlice.Reduce(st, AuthSlice.UpdateProfileFulfilled(reply)).user.value;
      && (st.user.None? ==> u == reply)
      && (reply.name.Some? ==> u.name == reply.name)
      && (reply.email.Some? ==> u.email == reply.email)
      && (st.user.Some? && reply.name.None? ==> u.name == st.user.value.name)
      && (st.user.Some? && reply.email.None? ==> u.email == st.user.value.email)
      && (st.user.Some? && reply.id.None? ==> u.id == st.user.value.id)
      && (st.user.Some? && reply.isAdmin.None? ==> u.isAdmin == st.user.value.isAdmin)
  {
  }

  /** When the server's reply echoes the submitted name and email, they
      reach the signed-in user in the store, and the user's id and admin
      flag survive unless the reply carries them. */
  lemma SubmittedNameReachesStore(pg: ProfilePage, st: AuthSlice.AuthState, reply: AuthSlice.User)
    requires pg.form.password == pg.form.confirmPassword
    requires var upd := HandleSubmit(pg).1.value; reply.name == upd.name && reply.email == upd.email
    ensures var u := AuthSlice.Reduce(st, AuthSlice.UpdateProfileFulfilled(reply)).user.value;
      && u.name == Some(pg.form.name) && u.email == Some(pg.form.email)
      && (st.user.Some? && reply.id.None? ==> u.id == st.user.value.id)
      && (st.user.Some? && reply.isAdmin.None? ==> u.isAdmin == st.user.value.isAdmin)
  {
    StoreFollowsReply(st, reply);
  }

  /** An untouched form loaded from a user whose name and email are set
      submits them back unchanged and asks for no password change. */
  lemma ReloadedFormSubmitsNoPasswordChange(pg: ProfilePage, u: AuthSlice.User)
    requires u.name.Some? && u.email.Some?
    ensures var loaded := LoadUser(pg, Some(u)).0;
      HandleSubmit(loaded).1 == Some(ProfileUpdate(u.name, u.email, None))
  {
  }
}
