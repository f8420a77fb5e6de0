/**
 * `LoginViewModel`: the typed credentials, the profile fetched for the
 * signed-in user, and the sequence of `LoginUiState` values it emits. The
 * service calls are inputs: the login answer (or how it failed) and the
 * profile answer.
 */
module LoginViewModels {
  import opened Wrappers
  import opened UserHelpers

  datatype LoginUiState = Error | Loading | HasLogin | NoLogin | UserInvalid

  datatype UserInfoModel = UserInfoModel(description: Option<string>, posts: Option<int>, comments: Option<int>,
                                         postKarma: Option<int>, commentKarma: Option<int>)

  /** How `apiService.login` ended: an answer (possibly null), an HTTP error with its code, or any other exception */
  datatype LoginAnswer = Answered(model: Option<UserModel>) | HttpFailure(code: int) | OtherFailure

  const UNKNOWN_ERROR: string := "Unknown error"
  const NOT_FOUND: int := 404

  /**
   * The states `login()` emits, its own `Loading` first, for a login
   * answer and a profile answer. `crashed` is the one path that ends in an
   * uncaught exception: a profile call that returns null, which `it!!`
   * rejects outside any `runCatching`.
   */
  function LoginEmissions(answer: LoginAnswer, info: Outcome<Option<UserInfoModel>>): (r: (seq<LoginUiState>, bool))
    ensures |r.0| > 0 && r.0[0] == Loading
    ensures answer.Answered? && answer.model.None? ==> r == ([Loading], false)
    ensures answer.Answered? && answer.model.Some? && info.Returned? && info.value.Some? ==>
      r == ([Loading, Loading, HasLogin], false)
    ensures r.1 <==> answer.Answered? && answer.model.Some? && info == Returned(None)
    ensures answer.HttpFailure? ==> r == ([Loading, if answer.code == NOT_FOUND then UserInvalid else Error], false)
    ensures answer.OtherFailure? ==> r == ([Loading, Error], false)
    ensures !r.1 && |r.0| > 1 ==> r.0[|r.0| - 1] in {Error, HasLogin, UserInvalid}
  {
    match answer
    case Answered(model) =>
      if model.None? then ([Loading], false)
      else if info.Threw? then ([Loading, Loading, Error], false)
      else if info.value.None? then ([Loading, Loading], true)
      else ([Loading, Loading, HasLogin], false)
    case HttpFailure(code) => ([Loading, if code == NOT_FOUND then UserInvalid else Error], false)
    case OtherFailure => ([Loading, Error], false)
  }

  class LoginViewModel {
    const user: UserHelper
    var email: string
    var pwd: string
    var userInfo: Option<UserInfoModel>
    /** Every state emitted, the initial one first */
    var states: seq<LoginUiState>
    /** Every toast shown, in order */
    var toasts: seq<string>

    ghost predicate Valid()
      reads this, user
    {
      user.Valid() && |states| > 0
    }

    /** The initial state: `HasLogin` when a session exists, else `NoLogin` */
    constructor (user: UserHelper)
      requires user.Valid()
      modifies user
      ensures Valid() && this.user == user && user.Session() == old(user.Session()) && user.store == old(user.store)
      ensures email == "" && pwd == "" && userInfo.None? && toasts == []
      ensures states == [if old(user.Session()).Some? then HasLogin else NoLogin]
    {
      this.user := user;
      email := "";
      pwd := "";
      userInfo := None;
      toasts := [];
      new;
      var isLogin := user.IsLogin();
      states := [if isLogin then HasLogin else NoLogin];
    }

    method OnEmailChange(email: string)
      modifies this
      ensures this.email == email && pwd == old(pwd) && states == old(states) && userInfo == old(userInfo)
      ensures toasts == old(toasts)
    {
      this.email := email;
    }

    method OnPwdChange(pwd: string)
      modifies this
      ensures this.pwd == pwd && email == old(email) && states == old(states) && userInfo == old(userInfo)
      ensures toasts == old(toasts)
    {
      this.pwd := pwd;
    }

    /**
     * `userInfo(showLoading)`: the profile of the signed-in user's name
     * (`""` without one) is fetched; success stores it and emits
     * `HasLogin`, failure emits `Error`. `requested` is the name asked for.
     */
    method UserInfo(showLoading: bool, info: Outcome<Option<UserInfoModel>>) returns (requested: string, crashed: bool)
      requires Valid()
      modifies this, user
      ensures Valid() && user.Session() == old(user.Session()) && user.store == old(user.store)
      ensures requested == UserName(old(user.Session()))
      ensures crashed <==> info == Returned(None)
      ensures var shown := if showLoading then [Loading] else [];
        (info.Threw? ==> states == old(states) + shown + [Error] && userInfo == old(userInfo))
        && (info == Returned(None) ==> states == old(states) + shown && userInfo == old(userInfo))
        && (info.Returned? && info.value.Some? ==> states == old(states) + shown + [HasLogin] && userInfo == info.value)
      ensures email == old(email) && pwd == old(pwd) && toasts == old(toasts)
    {
      if showLoading {
        states := states + [Loading];
      }
      var m := user.GetUserModel();
      requested := if m.Some? then m.value.username.GetOr("") else "";
      crashed := false;
      match info
      case Threw =>
        states := states + [Error];
      case Returned(answer) =>
        if answer.None? {
          crashed := true;
          return;
        }
        userInfo := answer;
        states := states + [HasLogin];
    }

    /**
     * `login()`: `Loading`, then the login call with the typed email and
     * password (`body`). A non-null answer signs the user in and fetches
     * the profile; a null one emits nothing more;
     * a 404 gives `UserInvalid`, other HTTP errors `Error`, and any other
     * exception a toast and `Error`.
     */
    method Login(answer: LoginAnswer, info: Outcome<Option<UserInfoModel>>) returns (body: (string, string), crashed: bool)
      requires Valid()
      modifies this, user, user.app
      ensures Valid() && body == (old(email), old(pwd))
      ensures states == old(states) + LoginEmissions(answer, info).0 && crashed == LoginEmissions(answer, info).1
      ensures answer == Answered(None) || !answer.Answered? ==>
        user.Session() == old(user.Session()) && user.store == old(user.store)
      ensures answer.Answered? && answer.model.Some? ==> user.Session() == answer.model && user.app.isLogin
      ensures toasts == old(toasts) + (if answer.OtherFailure? then [UNKNOWN_ERROR] else [])
      ensures email == old(email) && pwd == old(pwd)
    {
      states := states + [Loading];
      body := (email, pwd);
      crashed := false;
      match answer
      case Answered(model) =>
        if model.Some? {
          user.Login(model.value);
          var requested;
          requested, crashed := UserInfo(true, info);
        }
      case HttpFailure(code) =>
        if code == NOT_FOUND {
          states := states + [UserInvalid];
          return;
        }
        states := states + [Error];
      case OtherFailure =>
        toasts := toasts + [UNKNOWN_ERROR];
        states := states + [Error];
    }
  }
}
