/**
 * The sign-in / sign-up form (components/SignIn/SignInForm/SignInForm.tsx).
 * Sign-up has no backend call yet, so submitting in that mode only toggles
 * the loading flag.
 */
module SignInForm {
  import opened Wrappers
  import opened JsString
  import opened Effects
  import opened UserTypes
  import opened QueryKeys
  import opened QueryCache
  import opened AuthContext
  import ManageTokens
  import UseLogin

  const ErrorTitle := "Error"
  const MissingFields := "Please fill in all required fields"
  const MissingName := "Please enter your name"
  const SignUpFailed := "Failed to create account"
  const SignInFailed := "Failed to sign in"

  /** The checks at the top of `handleSubmit`: the alert text of the first one that fails. */
  function ValidationError(email: string, password: string, name: string, isSignUp: bool): (r: Option<string>)
    ensures IsBlank(email) || IsBlank(password) ==> r == Some(MissingFields)
    ensures !IsBlank(email) && !IsBlank(password) && isSignUp && IsBlank(name) ==> r == Some(MissingName)
    ensures r.None? <==> !IsBlank(email) && !IsBlank(password) && (!isSignUp || !IsBlank(name))
  {
    if IsBlank(email) || IsBlank(password) then Some(MissingFields)
    else if isSignUp && IsBlank(name) then Some(MissingName)
    else None
  }

  /** The alert shown when the submit throws, by mode. */
  function FailureMessage(isSignUp: bool): (m: string)
    ensures isSignUp ==> m == SignUpFailed
    ensures !isSignUp ==> m == SignInFailed
  {
    if isSignUp then SignUpFailed else SignInFailed
  }

  /**
   * What a valid sign-in sends: the email trimmed (and so non-empty and
   * trimmed), the password exactly as typed, even with surrounding spaces.
   */
  lemma SignInCredentials(email: string, password: string, name: string)
    requires ValidationError(email, password, name, false).None?
    ensures Trim(email) != "" && Trim(Trim(email)) == Trim(email)
    ensures password != ""
  {
    TrimIdempotent(email);
  }

  class SignInFormState {
    var email: string
    var password: string
    var name: string
    var isSignUp: bool
    var isLoading: bool

    constructor (signUp: bool)
      ensures email == password == name == "" && isSignUp == signUp && !isLoading
    {
      email, password, name := "", "", "";
      isSignUp := signUp;
      isLoading := false;
    }

    /**
     * `handleSubmit`. A failed check alerts and leaves everything as it was,
     * including `isLoading`. Otherwise sign-in runs `login` with the trimmed
     * email and the raw password and alerts on rejection; sign-up calls
     * nothing. Either way `isLoading` ends false.
     */
    method HandleSubmit(auth: AuthProvider, response: Result<User, Thrown>) returns (effects: seq<Effect>)
      modifies this`isLoading, auth.store`items, auth.cache
      ensures var invalid := ValidationError(email, password, name, isSignUp);
        && (invalid.Some? ==> effects == [Alert(ErrorTitle, invalid.value)] && isLoading == old(isLoading)
                              && auth.store.items == old(auth.store.items) && auth.cache.entries == old(auth.cache.entries))
        && (invalid.None? ==> !isLoading)
        && (invalid.None? && isSignUp ==>
              effects == [] && auth.store.items == old(auth.store.items) && auth.cache.entries == old(auth.cache.entries))
        && (invalid.None? && !isSignUp ==>
              effects == UseLogin.LoginEffects(Trim(email), password, response)
                         + (if response.Err? then [Alert(ErrorTitle, SignInFailed)] else []))
        && (invalid.None? && !isSignUp && response.Ok? ==>
              auth.store.items == ManageTokens.WithTokens(old(auth.store.items), response.value.tokens)
              && auth.cache.entries == Invalidated(old(auth.cache.entries), UserQueryKeys))
        && (invalid.None? && !isSignUp && response.Err? ==>
              auth.store.items == ManageTokens.WithoutTokens(old(auth.store.items))
              && auth.cache.entries == Removed(old(auth.cache.entries), UserQueryKeys))
    {
      var invalid := ValidationError(email, password, name, isSignUp);
      if invalid.Some? {
        effects := [Alert(ErrorTitle, invalid.value)];
      } else {
        effects := Authenticate(auth, response);
      }
    }

    /** The `try`/`catch`/`finally` of `handleSubmit`, once the checks have passed. */
    method Authenticate(auth: AuthProvider, response: Result<User, Thrown>) returns (effects: seq<Effect>)
      modifies this`isLoading, auth.store`items, auth.cache
      ensures !isLoading
      ensures isSignUp ==>
                effects == [] && auth.store.items == old(auth.store.items) && auth.cache.entries == old(auth.cache.entries)
      ensures !isSignUp ==>
                effects == UseLogin.LoginEffects(Trim(email), password, response)
                           + (if response.Err? then [Alert(ErrorTitle, SignInFailed)] else [])
      ensures !isSignUp && response.Ok? ==>
                auth.store.items == ManageTokens.WithTokens(old(auth.store.items), response.value.tokens)
                && auth.cache.entries == Invalidated(old(auth.cache.entries), UserQueryKeys)
      ensures !isSignUp && response.Err? ==>
                auth.store.items == ManageTokens.WithoutTokens(old(auth.store.items))
                && auth.cache.entries == Removed(old(auth.cache.entries), UserQueryKeys)
    {
      isLoading := true;
      effects := [];
      if !isSignUp {
        var result;
        effects, result := auth.Login(Trim(email), password, response);
        if result.Err? {
          effects := effects + [Alert(ErrorTitle, FailureMessage(isSignUp))];
        }
      }
      isLoading := false;
    }

    /** `toggleMode`: switches between sign-in and sign-up and clears the three fields. */
    method ToggleMode()
      modifies this
      ensures isSignUp == !old(isSignUp)
      ensures email == password == name == ""
      ensures isLoading == old(isLoading)
    {
      isSignUp := !isSignUp;
      email, password, name := "", "", "";
    }
  }
}
