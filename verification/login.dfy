/**
 `LoginTab` (app/page.tsx): a form with two text fields and a modal that
 echoes them. Submitting opens the modal without any validation; closing it
 clears both fields. The browser's default submission is suppressed and is
 not modelled.
 */
module Login {
  import opened Options

  datatype LoginState = LoginState(open: bool, userId: string, password: string)

  function InitialLogin(): LoginState
  {
    LoginState(false, "", "")
  }

  /** `onChange` of the user-id field. */
  function SetUserId(s: LoginState, v: string): (r: LoginState)
    ensures r.userId == v && r.password == s.password && r.open == s.open
  {
    s.(userId := v)
  }

  /** `onChange` of the password field. */
  function SetPassword(s: LoginState, v: string): (r: LoginState)
    ensures r.password == v && r.userId == s.userId && r.open == s.open
  {
    s.(password := v)
  }

  /** `handleSubmit`, which calls `openModal` and checks nothing. */
  function Submit(s: LoginState): (r: LoginState)
    ensures r.open && r.userId == s.userId && r.password == s.password
  {
    s.(open := true)
  }

  /** `closeModal`. */
  function Close(s: LoginState): (r: LoginState)
    ensures !r.open && r.userId == "" && r.password == ""
  {
    LoginState(false, "", "")
  }

  /** The label/value pairs the modal shows, when it is open. */
  function LoginModal(s: LoginState): (r: Option<seq<(string, string)>>)
    ensures r.Some? <==> s.open
    ensures r.Some? ==> |r.value| == 2 && r.value[0].1 == s.userId && r.value[1].1 == s.password
  {
    if s.open then Some([("User ID", s.userId), ("Password", s.password)]) else None
  }

  // ---------------------------------------------------------------------

  /** Editing a field changes that field and nothing else, and edits of the
      two fields do not interfere. */
  lemma EditFrames(s: LoginState, u: string, p: string)
    ensures SetUserId(s, u).userId == u && SetUserId(s, u).password == s.password
    ensures SetUserId(s, u).open == s.open
    ensures SetPassword(s, p).password == p && SetPassword(s, p).userId == s.userId
    ensures SetPassword(s, p).open == s.open
    ensures SetPassword(SetUserId(s, u), p) == SetUserId(SetPassword(s, p), u)
  {
  }

  /** `handleSubmit` opens the modal without looking at the fields, keeps
      both fields, and the modal shows them verbatim. (The browser's check
      of the `required` inputs, which runs before it, is not modelled.) */
  lemma SubmitEchoes(s: LoginState)
    ensures Submit(s).open
    ensures Submit(s).userId == s.userId && Submit(s).password == s.password
    ensures LoginModal(Submit(s)) == Some([("User ID", s.userId), ("Password", s.password)])
  {
  }

  /** Closing from any state hides the modal and clears both fields. */
  lemma CloseResets(s: LoginState)
    ensures Close(s) == InitialLogin()
    ensures LoginModal(Close(s)) == None
    ensures Close(s).userId == "" && Close(s).password == ""
  {
  }

  /** The whole session: type a user id and a password, submit, see them,
      close, and the form is back to empty. */
  lemma LoginSession(u: string, p: string)
    ensures var typed := SetPassword(SetUserId(InitialLogin(), u), p);
      && LoginModal(typed) == None
      && LoginModal(Submit(typed)) == Some([("User ID", u), ("Password", p)])
      && Close(Submit(typed)) == InitialLogin()
  {
  }
}
