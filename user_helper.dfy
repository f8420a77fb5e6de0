/**
 * `UserHelper`, the signed-in session: a user model persisted as JSON
 * under one key of the preference store and cached in memory on first
 * use. The JSON codec is a pair of functions handed in; all the session
 * needs of it is that decoding an encoding gives the model back and that
 * an encoding is never blank.
 */
module UserHelpers {
  import opened Wrappers
  import opened Strings
  import Urls
  import AppViewModels

  const KEY_USER_MODEL: string := "user_model"

  datatype UserModel = UserModel(accessToken: Option<string>, refreshToken: Option<string>,
                                 roles: Option<seq<string>>, username: Option<string>)

  /** `getString(KEY_USER_MODEL, "")` */
  function StoredJson(store: map<string, string>): string {
    if KEY_USER_MODEL in store then store[KEY_USER_MODEL] else ""
  }

  /** The model a fresh start would read back from the store: none while the stored text is blank */
  function StoredModel(store: map<string, string>, fromJson: string -> Option<UserModel>): (m: Option<UserModel>)
    ensures IsBlank(StoredJson(store)) ==> m.None?
    ensures !IsBlank(StoredJson(store)) ==> m == fromJson(StoredJson(store))
  {
    var json := StoredJson(store);
    if IsBlank(json) then None else fromJson(json)
  }

  /** What the codec must satisfy */
  ghost predicate Codec(toJson: UserModel -> string, fromJson: string -> Option<UserModel>) {
    (forall m :: fromJson(toJson(m)) == Some(m)) && (forall m :: !IsBlank(toJson(m)))
  }

  /** A model written to the store is what a fresh start reads back. */
  lemma LoginPersists(store: map<string, string>, m: UserModel,
                      toJson: UserModel -> string, fromJson: string -> Option<UserModel>)
    requires Codec(toJson, fromJson)
    ensures StoredModel(store[KEY_USER_MODEL := toJson(m)], fromJson) == Some(m)
  {
    assert StoredJson(store[KEY_USER_MODEL := toJson(m)]) == toJson(m);
  }

  /** Once the key is removed a fresh start finds no session. */
  lemma LogoutForgets(store: map<string, string>, fromJson: string -> Option<UserModel>)
    ensures StoredModel(store - {KEY_USER_MODEL}, fromJson).None?
  {
    assert StoredJson(store - {KEY_USER_MODEL}) == "";
  }

  /** The getters' answer for a session: a field of the model, `""` without one */
  function AccessToken(s: Option<UserModel>): (t: string)
    ensures s.None? ==> t == ""
    ensures s.Some? && s.value.accessToken.Some? ==> t == s.value.accessToken.value
  {
    if s.Some? then s.value.accessToken.GetOr("") else ""
  }

  function RefreshToken(s: Option<UserModel>): (t: string)
    ensures s.None? ==> t == ""
    ensures s.Some? && s.value.refreshToken.Some? ==> t == s.value.refreshToken.value
  {
    if s.Some? then s.value.refreshToken.GetOr("") else ""
  }

  function UserName(s: Option<UserModel>): (t: string)
    ensures s.None? ==> t == ""
    ensures s.Some? && s.value.username.Some? ==> t == s.value.username.value
  {
    if s.Some? then s.value.username.GetOr("") else ""
  }

  /** `getUserAvatar()`: the avatar URL of the user name when signed in, else `""` */
  function Avatar(s: Option<UserModel>): (u: string)
    ensures s.None? ==> u == ""
    ensures s.Some? ==> u == Urls.AvatarImageUrl(UserName(s))
  {
    if s.Some? then Urls.AvatarImageUrl(s.value.username.GetOr("")) else ""
  }

  /** The model after `updateToken`: both tokens replaced, name and roles kept */
  function WithTokens(m: UserModel, refreshToken: string, accessToken: string): (n: UserModel)
    ensures n.accessToken == Some(accessToken) && n.refreshToken == Some(refreshToken)
    ensures n.username == m.username && n.roles == m.roles
  {
    m.(accessToken := Some(accessToken), refreshToken := Some(refreshToken))
  }

  class UserHelper {
    const toJson: UserModel -> string
    const fromJson: string -> Option<UserModel>
    const app: AppViewModels.AppViewModel
    /** The preference store */
    var store: map<string, string>
    /** The in-memory copy of the model */
    var userModel: Option<UserModel>
    /** How many times the store has been read */
    var storeReads: nat

    /** The codec holds, and a cached model is the one the store holds. */
    ghost predicate Valid()
      reads this
    {
      Codec(toJson, fromJson) && (userModel.Some? ==> StoredModel(store, fromJson) == userModel)
    }

    /** The signed-in user, as the getters see it */
    function Session(): (s: Option<UserModel>)
      reads this
      ensures Valid() ==> s == StoredModel(store, fromJson)
    {
      if userModel.Some? then userModel else StoredModel(store, fromJson)
    }

    constructor (toJson: UserModel -> string, fromJson: string -> Option<UserModel>,
                 app: AppViewModels.AppViewModel, store: map<string, string>)
      requires Codec(toJson, fromJson)
      ensures Valid()
      ensures this.toJson == toJson && this.fromJson == fromJson && this.app == app
      ensures this.store == store && userModel.None? && storeReads == 0
    {
      this.toJson := toJson;
      this.fromJson := fromJson;
      this.app := app;
      this.store := store;
      userModel := None;
      storeReads := 0;
    }

    /**
     * `getUserModel()`: the store is read only while nothing is cached,
     * and a model is cached only when the stored text is not blank; the
     * session itself does not change.
     */
    method GetUserModel() returns (m: Option<UserModel>)
      requires Valid()
      modifies this
      ensures Valid() && m == old(Session()) && Session() == old(Session())
      ensures old(userModel).Some? ==> userModel == old(userModel) && storeReads == old(storeReads)
      ensures old(userModel).None? ==> userModel == StoredModel(store, fromJson) && storeReads == old(storeReads) + 1
      ensures store == old(store)
    {
      if userModel.None? {
        var userModelJson := StoredJson(store);
        storeReads := storeReads + 1;
        if !IsBlank(userModelJson) {
          userModel := fromJson(userModelJson);
        }
      }
      m := userModel;
    }

    /** `isLogin()`: whether a model is cached or stored */
    method IsLogin() returns (b: bool)
      requires Valid()
      modifies this
      ensures Valid() && Session() == old(Session()) && store == old(store)
      ensures b <==> old(userModel).Some? || StoredModel(old(store), fromJson).Some?
    {
      var m := GetUserModel();
      b := m.Some?;
    }

    method GetToken() returns (t: string)
      requires Valid()
      modifies this
      ensures Valid() && Session() == old(Session()) && store == old(store)
      ensures t == AccessToken(old(Session()))
    {
      var m := GetUserModel();
      t := if m.Some? then m.value.accessToken.GetOr("") else "";
    }

    method GetRefreshToken() returns (t: string)
      requires Valid()
      modifies this
      ensures Valid() && Session() == old(Session()) && store == old(store)
      ensures t == RefreshToken(old(Session()))
    {
      var m := GetUserModel();
      t := if m.Some? then m.value.refreshToken.GetOr("") else "";
    }

    method GetUserName() returns (t: string)
      requires Valid()
      modifies this
      ensures Valid() && Session() == old(Session()) && store == old(store)
      ensures t == UserName(old(Session()))
    {
      var m := GetUserModel();
      t := if m.Some? then m.value.username.GetOr("") else "";
    }

    method GetUserAvatar() returns (u: string)
      requires Valid()
      modifies this
      ensures Valid() && Session() == old(Session()) && store == old(store)
      ensures u == Avatar(old(Session()))
    {
      var m := GetUserModel();
      u := if m.Some? then Urls.AvatarImageUrl(m.value.username.GetOr("")) else "";
    }

    /** `login(userModel)`: persisted, cached and announced to the app view model */
    method Login(m: UserModel)
      requires Valid()
      modifies this, app
      ensures Valid() && Session() == Some(m) && userModel == Some(m)
      ensures store == old(store)[KEY_USER_MODEL := toJson(m)]
      ensures app.isLogin && app.votes == old(app.votes) && app.notificationCount == old(app.notificationCount)
      ensures app.updateNotification == old(app.updateNotification)
    {
      store := store[KEY_USER_MODEL := toJson(m)];
      userModel := Some(m);
      LoginPersists(old(store), m, toJson, fromJson);
      app.isLogin := true;
    }

    /** `logout()`: the key removed, the cache dropped, every getter back to `""` */
    method Logout()
      requires Valid()
      modifies this, app
      ensures Valid() && Session().None? && userModel.None?
      ensures store == old(store) - {KEY_USER_MODEL}
      ensures !app.isLogin && app.votes == old(app.votes) && app.notificationCount == old(app.notificationCount)
      ensures app.updateNotification == old(app.updateNotification)
    {
      store := store - {KEY_USER_MODEL};
      userModel := None;
      LogoutForgets(old(store), fromJson);
      app.isLogin := false;
    }

    /** `updateToken(refreshToken, accessToken)`: nothing when signed out; otherwise only the tokens change. */
    method UpdateToken(refreshToken: string, accessToken: string)
      requires Valid()
      modifies this
      ensures Valid()
      ensures old(Session()).None? ==> Session().None? && store == old(store)
      ensures old(Session()).Some? ==> Session() == Some(WithTokens(old(Session()).value, refreshToken, accessToken))
      ensures old(Session()).Some? ==>
        store == old(store)[KEY_USER_MODEL := toJson(WithTokens(old(Session()).value, refreshToken, accessToken))]
    {
      var m := GetUserModel();
      if m.Some? {
        var updated := m.value.(accessToken := Some(accessToken), refreshToken := Some(refreshToken));
        LoginPersists(store, updated, toJson, fromJson);
        store := store[KEY_USER_MODEL := toJson(updated)];
        userModel := Some(updated);
      }
    }
  }
}
