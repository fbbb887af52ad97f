/** The login form: validation, then binding the identity in the store. */
module Login {
  import opened Wrappers
  import opened Text
  import opened Store
  import Wire

  const EmptyUsernameError := "Username cannot be empty"
  const LoginFailedError := "Login failed"

  class LoginForm {
    const store: AppStore
    var input: string
    var error: string
    var loading: bool

    constructor (store: AppStore)
      ensures this.store == store && input == "" && error == "" && !loading
    {
      this.store := store;
      input, error, loading := "", "", false;
    }

    /** `handleSubmit`. A blank input sets the empty-username error and makes
        no call. Otherwise the raw, untrimmed input is sent; on success the
        store username becomes that input and the error stays cleared, on
        failure the error reads "Login failed" and the store is untouched.
        `loading` is false once the call completes. Returns the request sent. */
    method HandleSubmit(loginOk: bool) returns (sent: Option<Wire.LoginRequest>)
      modifies this, store
      ensures input == old(input)
      ensures sent.Some? <==> !Blank(old(input))
      ensures sent.None? ==>
        error == EmptyUsernameError && loading == old(loading) && store.State() == old(store.State())
      ensures sent.Some? ==> sent.value == Wire.LoginRequest(input) && !loading
      ensures sent.Some? && loginOk ==>
        error == "" && store.State() == old(store.State()).(username := Some(input))
      ensures sent.Some? && !loginOk ==> error == LoginFailedError && store.State() == old(store.State())
    {
      error := "";
      if Blank(input) {
        error := EmptyUsernameError;
        return None;
      }
      loading := true;
      sent := Some(Wire.LoginRequest(input));
      if loginOk {
        store.SetUsername(input);
      } else {
        error := LoginFailedError;
      }
      loading := false;
    }
  }
}
