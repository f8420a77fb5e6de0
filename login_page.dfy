/**
 * The login screen's own logic: what pressing the login button does with
 * the typed email and password, and which avatar the header shows. The
 * platform's email pattern is a predicate handed in.
 */
module LoginPage {
  import opened UserHelpers

  const EMPTY_EMAIL: string := "please input email"
  const BAD_EMAIL: string := "please input correct email"
  const EMPTY_PASSWORD: string := "please input password"

  /** One press ends in exactly one of these: a toast, or the login call */
  datatype PressOutcome = Toast(message: string) | ToLogin

  /** The `when` chain of the login button, checked top to bottom */
  function OnLoginPress(email: string, pwd: string, isEmail: string -> bool): (o: PressOutcome)
    ensures o == ToLogin <==> |email| > 0 && isEmail(email) && |pwd| > 0
    ensures |email| == 0 ==> o == Toast(EMPTY_EMAIL)
    ensures |email| > 0 && !isEmail(email) ==> o == Toast(BAD_EMAIL)
    ensures |email| > 0 && isEmail(email) && |pwd| == 0 ==> o == Toast(EMPTY_PASSWORD)
  {
    if |email| == 0 then Toast(EMPTY_EMAIL)
    else if !isEmail(email) then Toast(BAD_EMAIL)
    else if |pwd| == 0 then Toast(EMPTY_PASSWORD)
    else ToLogin
  }

  /** The email is checked first: while it is empty or malformed the password does not matter. */
  lemma EmailCheckedFirst(email: string, pwd1: string, pwd2: string, isEmail: string -> bool)
    requires |email| == 0 || !isEmail(email)
    ensures OnLoginPress(email, pwd1, isEmail) == OnLoginPress(email, pwd2, isEmail)
    ensures OnLoginPress(email, pwd1, isEmail).Toast?
  {
  }

  /** The header avatar: the user's avatar URL, or the bundled default drawable */
  datatype AvatarImage = AvatarUrl(url: string) | DefaultAvatar

  /** `getUserAvatar()` of the login screen */
  method GetUserAvatar(user: UserHelper) returns (a: AvatarImage)
    requires user.Valid()
    modifies user
    ensures user.Valid() && user.Session() == old(user.Session()) && user.store == old(user.store)
    ensures old(user.Session()).Some? ==> a == AvatarUrl(Avatar(old(user.Session())))
    ensures old(user.Session()).None? ==> a == DefaultAvatar
  {
    var isLogin := user.IsLogin();
    if isLogin {
      var url := user.GetUserAvatar();
      return AvatarUrl(url);
    }
    return DefaultAvatar;
  }
}
