/**
 * The decisions of the account controller: sign-up, sign-in, confirmation
 * of an account, edit and delete; none of them looks at the caller's
 * IsAdmin flag. The user table and
 * the image table stand for the stores behind the account and image
 * services; the session is the per-user key/value store of the web host.
 */
module Controllers {
  import opened Common
  import opened Entities
  import opened Text

  datatype SignUpForm = SignUpForm(login: string, password: string)
  datatype SignInForm = SignInForm(login: string, password: string)

  /** The uploaded avatar; absent when the form carried no file. */
  datatype Upload = Upload(fileName: string)

  /** The form-level messages the controller adds before showing a form again. */
  datatype FormError = LoginTaken | SignUpFailed | UserNotFound | IncorrectPassword

  /** What an action answers. */
  datatype ActionResult =
    | FormView                           // the form again, with no message added
    | FormViewWithError(error: FormError)
    | RedirectToSignIn
    | RedirectToSignUp
    | RedirectToHome
    | RedirectToConfirmUsers
    | ConfirmUsersView
    | NotFound
    | UnhandledException                 // an exception no catch clause of the action handles

  const LoginKey := "Login"
  const UserIdKey := "UserId"
  const UserImageKey := "UserImage"
  const IsAdminKey := "IsAdmin"

  /** The user with this login (the first one, should there be several), or null. */
  function FindByLogin(users: seq<User>, login: string): (r: Option<User>)
    ensures r.None? <==> forall u :: u in users ==> u.login != login
    ensures r.Some? ==> r.value in users && r.value.login == login
    ensures r.Some? ==> exists i :: 0 <= i < |users| && users[i] == r.value &&
                                    forall j :: 0 <= j < i ==> users[j].login != login
  {
    if users == [] then None
    else if users[0].login == login then Some(users[0])
    else
      var r := FindByLogin(users[1..], login);
      if r.Some? then
        var k :| 0 <= k < |users[1..]| && users[1..][k] == r.value &&
                 forall j :: 0 <= j < k ==> users[1..][j].login != login;
        assert users[k + 1] == r.value;
        assert forall j :: 0 <= j < k + 1 ==> users[j].login != login by {
          forall j | 0 <= j < k + 1 ensures users[j].login != login {
            if j > 0 { assert users[j] == users[1..][j - 1]; }
          }
        }
        r
      else r
  }

  /** The position of the user with this id, or None. */
  function IndexOfId(users: seq<User>, id: int): (r: Option<nat>)
    ensures r.None? <==> forall u :: u in users ==> u.id != id
    ensures r.Some? ==> r.value < |users| && users[r.value].id == id
  {
    if users == [] then None
    else if users[0].id == id then Some(0)
    else match IndexOfId(users[1..], id)
      case None => None
      case Some(k) => Some(k + 1)
  }

  /** The user table without the user of this id, order kept. */
  function WithoutId(users: seq<User>, id: int): (r: seq<User>)
    ensures forall u :: u in r <==> u in users && u.id != id
  {
    if users == [] then []
    else if users[0].id == id then WithoutId(users[1..], id)
    else [users[0]] + WithoutId(users[1..], id)
  }

  /** Deleting an id that no user has leaves the table exactly as it was. */
  lemma {:induction false} WithoutIdAbsent(users: seq<User>, id: int)
    requires forall u :: u in users ==> u.id != id
    ensures WithoutId(users, id) == users
  {
    if users != [] {
      assert forall u :: u in users[1..] ==> u in users;
      WithoutIdAbsent(users[1..], id);
      assert [users[0]] + users[1..] == users;
    }
  }

  /**
   * With unique ids, deleting the id of the user at position i removes exactly
   * that user and keeps the others in order.
   */
  lemma {:induction false} WithoutIdAt(users: seq<User>, i: int)
    requires IdsUnique(users) && 0 <= i < |users|
    ensures WithoutId(users, users[i].id) == users[..i] + users[i + 1..]
  {
    var tail := users[1..];
    if i == 0 {
      assert forall u :: u in tail ==> u.id != users[0].id by {
        forall u | u in tail ensures u.id != users[0].id {
          var k :| 0 <= k < |tail| && tail[k] == u;
          assert tail[k] == users[k + 1];
        }
      }
      WithoutIdAbsent(tail, users[0].id);
    } else {
      assert IdsUnique(tail) by {
        forall a, b | 0 <= a < b < |tail| ensures tail[a].id != tail[b].id {
          assert tail[a] == users[a + 1] && tail[b] == users[b + 1];
        }
      }
      assert tail[i - 1] == users[i];
      WithoutIdAt(tail, i - 1);
      assert users[0].id != users[i].id;
      assert users[..i] == [users[0]] + tail[..i - 1];
      assert users[i + 1..] == tail[i..];
    }
  }

  predicate IdsUnique(users: seq<User>) {
    forall i, j :: 0 <= i < j < |users| ==> users[i].id != users[j].id
  }

  predicate LoginsUnique(users: seq<User>) {
    forall i, j :: 0 <= i < j < |users| ==> users[i].login != users[j].login
  }

  /**
   * The session after a successful sign-in: the four keys written with the
   * user's login, id, avatar path and role, every other key as before.
   */
  function SignedIn(session: map<string, string>, user: User, imagePath: string): (r: map<string, string>)
    ensures r.Keys == session.Keys + {LoginKey, UserIdKey, UserImageKey, IsAdminKey}
    ensures r[LoginKey] == user.login
    ensures ParseInt(r[UserIdKey]) == user.id
    ensures r[UserImageKey] == imagePath
    ensures r[IsAdminKey] == (if user.isAdmin then "True" else "False")
    ensures forall k :: k in session && k !in {LoginKey, UserIdKey, UserImageKey, IsAdminKey} ==> r[k] == session[k]
  {
    IntToStringRoundTrip(user.id);
    session[LoginKey := user.login]
           [UserIdKey := IntToString(user.id)]
           [UserImageKey := imagePath]
           [IsAdminKey := BoolToString(user.isAdmin)]
  }

  /** Removing one id keeps the ids unique. */
  lemma {:induction false} WithoutIdKeepsIdsUnique(users: seq<User>, id: int)
    requires IdsUnique(users)
    ensures IdsUnique(WithoutId(users, id))
  {
    if users != [] {
      var tail := users[1..];
      assert IdsUnique(tail) by {
        forall a, b | 0 <= a < b < |tail| ensures tail[a].id != tail[b].id {
          assert tail[a] == users[a + 1] && tail[b] == users[b + 1];
        }
      }
      WithoutIdKeepsIdsUnique(tail, id);
      if users[0].id != id {
        var rest := WithoutId(tail, id);
        var r := [users[0]] + rest;
        forall a, b | 0 <= a < b < |r| ensures r[a].id != r[b].id {
          assert r[b] == rest[b - 1];
          if a > 0 {
            assert r[a] == rest[a - 1];
          } else {
            assert rest[b - 1] in tail;
            var k :| 0 <= k < |tail| && tail[k] == rest[b - 1];
            assert tail[k] == users[k + 1];
          }
        }
      }
    }
  }

  /** Adding a user whose login is not taken keeps logins unique. */
  lemma AddFreeLoginKeepsLoginsUnique(users: seq<User>, user: User)
    requires LoginsUnique(users) && FindByLogin(users, user.login).None?
    ensures LoginsUnique(users + [user])
  {
  }

  /** The stored user with Login, Password and IsAdmin copied from the posted one. */
  function Edited(stored: User, posted: User): User {
    stored.(login := posted.login, password := posted.password, isAdmin := posted.isAdmin)
  }

  /**
   * Edit copies a login without looking at the other users: posting the login
   * of any other user breaks the uniqueness of logins that SignUp keeps.
   */
  lemma EditCanDuplicateLogin(users: seq<User>, i: int, j: int, posted: User)
    requires LoginsUnique(users)
    requires 0 <= i < |users| && 0 <= j < |users| && i != j
    requires posted.login == users[j].login
    ensures !LoginsUnique(users[i := Edited(users[i], posted)])
  {
    var edited := users[i := Edited(users[i], posted)];
    assert edited[i].login == edited[j].login;
    if i < j {
      assert !(edited[i].login != edited[j].login);
    } else {
      assert !(edited[j].login != edited[i].login);
    }
  }

  class AccountController {
    /** The users behind the account service, in store order. */
    var users: seq<User>
    /** The images behind the image service: id to storage-relative path. */
    var images: map<int, string>
    var session: map<string, string>
    /** The identities the store hands out next. */
    var nextUserId: int
    var nextImageId: int
    /** The account service's salted hash of a password, whose code is not part of this model. */
    const hashPassword: (string, string) -> string
    /** The account service's ValidateUserPassword, whose code is not part of this model. */
    const validateUserPassword: (User, string) -> bool

    ghost predicate Valid()
      reads this
    {
      && IdsUnique(users)
      && (forall u :: u in users ==> u.id < nextUserId)
      && (forall k :: k in images ==> k < nextImageId)
    }

    constructor (hashPassword: (string, string) -> string, validateUserPassword: (User, string) -> bool)
      ensures Valid()
      ensures users == [] && images == map[] && session == map[]
      ensures this.hashPassword == hashPassword && this.validateUserPassword == validateUserPassword
    {
      users, images, session := [], map[], map[];
      nextUserId, nextImageId := 1, 1;
      this.hashPassword := hashPassword;
      this.validateUserPassword := validateUserPassword;
    }

    /**
     * Saves the avatar under a generated file name and records an image for it.
     * A missing upload fails when its file name is read.
     */
    method SaveImage(image: Option<Upload>, imageName: string) returns (r: Result<int, Error>)
      requires Valid()
      modifies this`images, this`nextImageId
      ensures Valid()
      ensures image.None? ==> r == Failure(NullReference) && images == old(images)
      ensures image.Some? ==>
                && r == Success(old(nextImageId))
                && old(nextImageId) !in old(images)
                && images == old(images)[old(nextImageId) := "/images/" + imageName]
    {
      if image.None? {
        return Failure(NullReference);
      }
      var id := nextImageId;
      images := images[id := "/images/" + imageName];
      nextImageId := nextImageId + 1;
      r := Success(id);
    }

    /**
     * Saves the avatar, then has the account service store a new user with a
     * fresh id, the salted hash of the password, no administrator rights and
     * no confirmation. The store may still reject the insert.
     */
    method CreateUser(login: string, password: string, imageAvatar: Option<Upload>, imageName: string,
                      salt: string, storeRejects: bool) returns (r: Result<int, Error>)
      requires Valid()
      modifies this`users, this`images, this`nextUserId, this`nextImageId
      ensures Valid()
      ensures imageAvatar.None? ==> r.Failure? && users == old(users) && images == old(images)
      ensures imageAvatar.Some? ==> images == old(images)[old(nextImageId) := "/images/" + imageName]
      ensures imageAvatar.Some? && storeRejects ==> r == Failure(ConstraintViolation) && users == old(users)
      ensures imageAvatar.Some? && !storeRejects ==>
                && r == Success(old(nextUserId))
                && users == old(users) + [User(old(nextUserId), login, hashPassword(password, salt), salt, old(nextImageId), false, false)]
    {
      var imageId := SaveImage(imageAvatar, imageName);
      if imageId.Failure? {
        return Failure(imageId.error);
      }
      if storeRejects {
        return Failure(ConstraintViolation);
      }
      var user := User(nextUserId, login, hashPassword(password, salt), salt, imageId.value, false, false);
      users := users + [user];
      nextUserId := nextUserId + 1;
      r := Success(user.id);
    }

    /**
     * POST SignUp. An invalid form is shown again; a taken login is refused
     * with a message; any exception while creating the user shows the form
     * with a generic message; otherwise the caller is sent to sign-in.
     */
    method SignUp(model: SignUpForm, modelValid: bool, imageAvatar: Option<Upload>, imageName: string,
                  salt: string, storeRejects: bool) returns (result: ActionResult)
      requires Valid()
      modifies this`users, this`images, this`nextUserId, this`nextImageId
      ensures Valid()
      ensures LoginsUnique(old(users)) ==> LoginsUnique(users)
      ensures !modelValid ==> result == FormView && users == old(users) && images == old(images)
      ensures modelValid && FindByLogin(old(users), model.login).Some? ==>
                result == FormViewWithError(LoginTaken) && users == old(users) && images == old(images)
      ensures modelValid && FindByLogin(old(users), model.login).None? && imageAvatar.None? ==>
                result == FormViewWithError(SignUpFailed) && users == old(users) && images == old(images)
      ensures modelValid && FindByLogin(old(users), model.login).None? && imageAvatar.Some? && storeRejects ==>
                && result == FormViewWithError(SignUpFailed)
                && users == old(users)
                && images == old(images)[old(nextImageId) := "/images/" + imageName]
      ensures modelValid && FindByLogin(old(users), model.login).None? && imageAvatar.Some? && !storeRejects ==>
                && result == RedirectToSignIn
                && images == old(images)[old(nextImageId) := "/images/" + imageName]
                && users == old(users) + [User(old(nextUserId), model.login, hashPassword(model.password, salt), salt,
                                               old(nextImageId), false, false)]
    {
      if !modelValid {
        return FormView;
      }
      var existingUser := FindByLogin(users, model.login);
      if existingUser.Some? {
        return FormViewWithError(LoginTaken);
      }
      var created := CreateUser(model.login, model.password, imageAvatar, imageName, salt, storeRejects);
      if created.Failure? {
        return FormViewWithError(SignUpFailed);
      }
      if LoginsUnique(old(users)) {
        AddFreeLoginKeepsLoginsUnique(old(users), users[|users| - 1]);
      }
      result := RedirectToSignIn;
    }

    /**
     * What authenticating `model` answers and does to the session: an unknown
     * login or a wrong password leave the session alone; a match writes the
     * login, and then, once the avatar resolves, the id, avatar path and role.
     * An avatar that does not resolve fails on reading its path.
     */
    ghost predicate Authenticated(model: SignInForm, result: ActionResult, before: map<string, string>, after: map<string, string>)
      reads this
    {
      match FindByLogin(users, model.login)
      case None => result == FormViewWithError(UserNotFound) && after == before
      case Some(user) =>
        if !validateUserPassword(user, model.password) then
          result == FormViewWithError(IncorrectPassword) && after == before
        else if user.imageId !in images then
          result == UnhandledException && after == before[LoginKey := user.login]
        else
          result == RedirectToHome && after == SignedIn(before, user, images[user.imageId])
    }

    /** Looks the login up, checks the password and fills the session. */
    method AuthenticateUser(model: SignInForm) returns (result: ActionResult)
      modifies this`session
      ensures Authenticated(model, result, old(session), session)
    {
      var userDTO := FindByLogin(users, model.login);
      if userDTO.None? {
        return FormViewWithError(UserNotFound);
      }
      var user := userDTO.value;
      var isPasswordCorrect := validateUserPassword(user, model.password);
      if !isPasswordCorrect {
        return FormViewWithError(IncorrectPassword);
      }
      session := session[LoginKey := user.login];
      if user.imageId !in images {
        return UnhandledException;
      }
      var imagePath := images[user.imageId];
      session := session[UserIdKey := IntToString(user.id)];
      session := session[UserImageKey := imagePath];
      session := session[IsAdminKey := BoolToString(user.isAdmin)];
      result := RedirectToHome;
    }

    /**
     * POST SignIn. With no users at all the caller is sent to sign-up, before
     * the form is even validated; an invalid form is shown again; otherwise
     * the user is authenticated.
     */
    method SignIn(model: SignInForm, modelValid: bool) returns (result: ActionResult)
      modifies this`session
      ensures |users| == 0 ==> result == RedirectToSignUp && session == old(session)
      ensures |users| != 0 && !modelValid ==> result == FormView && session == old(session)
      ensures |users| != 0 && modelValid ==> Authenticated(model, result, old(session), session)
    {
      if |users| == 0 {
        return RedirectToSignUp;
      }
      if !modelValid {
        return FormView;
      }
      result := AuthenticateUser(model);
    }

    /** Confirms the account with this id: only its IsAuth flag changes. */
    method AuthUser(id: int) returns (result: ActionResult)
      requires Valid()
      modifies this`users
      ensures Valid()
      ensures IndexOfId(old(users), id).None? ==> result == NotFound && users == old(users)
      ensures IndexOfId(old(users), id).Some? ==>
                var i := IndexOfId(old(users), id).value;
                result == ConfirmUsersView && users == old(users)[i := old(users)[i].(isAuth := true)]
    {
      var found := IndexOfId(users, id);
      if found.None? {
        return NotFound;
      }
      var i := found.value;
      var userDTO := users[i].(isAuth := true);
      users := users[i := userDTO];
      assert forall u :: u in users ==> u == userDTO || u in old(users);
      result := ConfirmUsersView;
    }

    /**
     * POST Edit. The route id must be the posted user's id and the form must
     * be valid; then Login, Password and IsAdmin of the stored user are
     * overwritten and every other field is kept.
     */
    method Edit(id: int, user: User, modelValid: bool) returns (result: ActionResult)
      requires Valid()
      modifies this`users
      ensures Valid()
      ensures id != user.id ==> result == NotFound && users == old(users)
      ensures id == user.id && !modelValid ==> result == FormView && users == old(users)
      ensures id == user.id && modelValid && IndexOfId(old(users), id).None? ==> result == NotFound && users == old(users)
      ensures id == user.id && modelValid && IndexOfId(old(users), id).Some? ==>
                var i := IndexOfId(old(users), id).value;
                && result == RedirectToConfirmUsers
                && users == old(users)[i := Edited(old(users)[i], user)]
    {
      if id != user.id {
        return NotFound;
      }
      if !modelValid {
        return FormView;
      }
      var found := IndexOfId(users, user.id);
      if found.None? {
        return NotFound;
      }
      var i := found.value;
      var existingUser := Edited(users[i], user);
      users := users[i := existingUser];
      assert forall u :: u in users ==> u == existingUser || u in old(users);
      result := RedirectToConfirmUsers;
    }

    /** Deletes the user with this id, if any, and goes back to the confirmation list. */
    method Delete(id: int) returns (result: ActionResult)
      requires Valid()
      modifies this`users
      ensures Valid()
      ensures users == WithoutId(old(users), id)
      ensures (forall u :: u in old(users) ==> u.id != id) ==> users == old(users)
      ensures forall i :: 0 <= i < |old(users)| && old(users)[i].id == id ==>
                users == old(users)[..i] + old(users)[i + 1..]
      ensures result == RedirectToConfirmUsers
    {
      WithoutIdKeepsIdsUnique(users, id);
      if forall u :: u in users ==> u.id != id {
        WithoutIdAbsent(users, id);
      }
      forall i | 0 <= i < |users| && users[i].id == id
        ensures WithoutId(users, id) == users[..i] + users[i + 1..]
      {
        WithoutIdAt(users, i);
      }
      users := WithoutId(users, id);
      result := RedirectToConfirmUsers;
    }
  }
}
