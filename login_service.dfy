/**
 * LoginServiceImpl: the decisions of login, logout and register. The Users table is a
 * store keyed by username, the UserProfiles and CommunityMembers tables are sequences of
 * rows. BCrypt's hashing and verification are function parameters, and so are the
 * clock reading, the ids the database assigns and the store failures the service catches.
 */
module LoginService {

  import opened Wrappers
  import opened Text
  import opened Models
  import opened Filters
  import opened CoreResults
  import LoginValidator
  import RegisterValidator
  import IdentityService
  import ModelValidator

  /** AuthError, with its message. */
  datatype AuthError = AuthError(message: string)

  /** AuthResult: a CoreResult with no result value and an AuthError on failure. */
  type AuthResult = CoreResult<(), AuthError>

  function Failure(message: string): (r: AuthResult)
    ensures !r.IsSuccess() && r.error == Some(AuthError(message))
  {
    OfError(Some(AuthError(message)))
  }

  function Succeeded(): (r: AuthResult)
    ensures r.IsSuccess()
  {
    OfResult(None)
  }

  const MissingValues := "Username and password must have values"
  const BadCredentials := "Incorrect username or password"
  const UserExists := "User already exists"

  /** The message for an SQLException carrying `detail`. */
  function InternalError(detail: string): (m: string)
    ensures StartsWith(m, "Internal server error")
  {
    var head := "Internal server error";
    var m := head + ". Please contact SoundLink support. Error: " + detail;
    assert m[..|head|] == head;
    m
  }

  type UserStore = map<string, User>

  /** communityMemberFactory.get(user): the memberships with the user's id, in table order. */
  function MembershipsOf(memberships: seq<CommunityMember>, userId: int): (r: seq<CommunityMember>)
    ensures forall m :: m in r <==> m in memberships && m.userId == userId
  {
    forall m ensures m in Filter(memberships, (m: CommunityMember) => m.userId == userId) <==> m in memberships && m.userId == userId {
      FilterMembership(memberships, (m: CommunityMember) => m.userId == userId, m);
    }
    Filter(memberships, (m: CommunityMember) => m.userId == userId)
  }

  /** Which store call of login throws, if any. */
  datatype LoginFault = NoLoginFault | UserLookupFails(message: string) | MembershipsFail(message: string)
                      | SaveFails(message: string)

  /** What login leaves behind: the Users table, the identity context and the result. */
  datatype LoginStep = LoginStep(users: UserStore, context: Option<UserContext>, result: AuthResult)

  /**
   * login: an invalid model fails before any lookup; an unknown user, an empty stored hash
   * and a failed verification fail alike; otherwise the last login is set to `now`, the
   * context becomes the user with their memberships, and the user is saved. A store
   * failure ends with the internal-error message and keeps whatever was done before it.
   */
  function LoginDecision(users: UserStore, memberships: seq<CommunityMember>, context: Option<UserContext>,
                 model: Option<LoginValidator.LoginModel>, verify: (string, string) -> bool, now: int,
                 fault: LoginFault): LoginStep
  {
    if !LoginValidator.Validate(model).IsSuccess() then LoginStep(users, context, Failure(MissingValues))
    else
      var username := model.value.username.value;
      var password := model.value.password.value;
      if fault.UserLookupFails? then LoginStep(users, context, Failure(InternalError(fault.message)))
      else if username !in users then LoginStep(users, context, Failure(BadCredentials))
      else
        var user := users[username];
        if user.hashedPassword == "" || !verify(password, user.hashedPassword) then
          LoginStep(users, context, Failure(BadCredentials))
        else
          var loggedIn := user.(lastLogin := Some(now));
          if fault.MembershipsFail? then LoginStep(users, context, Failure(InternalError(fault.message)))
          else
            var ctx := Some(UserContext(loggedIn, MembershipsOf(memberships, user.id)));
            if fault.SaveFails? then LoginStep(users, ctx, Failure(InternalError(fault.message)))
            else LoginStep(users[username := loggedIn], ctx, Succeeded())
  }

  /** An invalid model is refused with the same message whatever the store would do. */
  lemma InvalidModelNoLookup(users: UserStore, memberships: seq<CommunityMember>, context: Option<UserContext>,
                             model: Option<LoginValidator.LoginModel>, verify: (string, string) -> bool,
                             now: int, fault: LoginFault)
    requires model.None? || !ModelValidator.Filled(model.value.username) || !ModelValidator.Filled(model.value.password)
    ensures LoginDecision(users, memberships, context, model, verify, now, fault)
         == LoginStep(users, context, Failure(MissingValues))
  {
  }

  /**
   * An unknown username and a wrong password for a known one give the same result and
   * change nothing, so a caller cannot tell them apart.
   */
  lemma UnknownUserLooksLikeWrongPassword(users: UserStore, memberships: seq<CommunityMember>,
                                          context: Option<UserContext>, username: string, password: string,
                                          verify: (string, string) -> bool, now: int, known: User)
    requires username != "" && password != ""
    requires username !in users
    requires !verify(password, known.hashedPassword)
    ensures var model := Some(LoginValidator.LoginModel(Some(username), Some(password)));
            var other := users[username := known];
            LoginDecision(users, memberships, context, model, verify, now, NoLoginFault)
              == LoginStep(users, context, Failure(BadCredentials))
            && LoginDecision(other, memberships, context, model, verify, now, NoLoginFault)
              == LoginStep(other, context, Failure(BadCredentials))
  {
  }

  /**
   * A successful login records the login time, sets the context to the user and exactly
   * their memberships, saves that user and no other, and reports success.
   */
  lemma SuccessfulLogin(users: UserStore, memberships: seq<CommunityMember>, context: Option<UserContext>,
                        username: string, password: string, verify: (string, string) -> bool, now: int)
    requires username != "" && password != "" && username in users
    requires users[username].hashedPassword != "" && verify(password, users[username].hashedPassword)
    ensures var step := LoginDecision(users, memberships, context, Some(LoginValidator.LoginModel(Some(username), Some(password))),
                              verify, now, NoLoginFault);
            var user := users[username];
            step.result.IsSuccess()
            && step.users.Keys == users.Keys
            && step.users[username] == user.(lastLogin := Some(now))
            && (forall n :: n in users && n != username ==> step.users[n] == users[n])
            && step.context.Some? && step.context.value.user == user.(lastLogin := Some(now))
            && (forall m :: m in step.context.value.communityMembers <==> m in memberships && m.userId == user.id)
  {
  }

  /** A failed save still leaves the user logged in while reporting an internal error. */
  lemma SaveFailureKeepsContext(users: UserStore, memberships: seq<CommunityMember>, context: Option<UserContext>,
                                username: string, password: string, verify: (string, string) -> bool, now: int,
                                detail: string)
    requires username != "" && password != "" && username in users
    requires users[username].hashedPassword != "" && verify(password, users[username].hashedPassword)
    ensures var step := LoginDecision(users, memberships, context, Some(LoginValidator.LoginModel(Some(username), Some(password))),
                              verify, now, SaveFails(detail));
            step.context.Some? && step.users == users && !step.result.IsSuccess()
            && StartsWith(step.result.error.value.message, "Internal server error")
  {
  }

  /** Which store call of register throws, if any. */
  datatype RegisterFault = NoRegisterFault | ExistsLookupFails(message: string) | CreateUserFails(message: string)
                         | CreateProfileFails(message: string)

  /** What register leaves behind: the Users and UserProfiles tables and the result. */
  datatype RegisterStep = RegisterStep(users: UserStore, profiles: seq<UserProfile>, result: AuthResult)

  /**
   * register: an invalid model fails, a taken username fails with "User already exists";
   * otherwise the user is created with the hashed password and then a profile whose
   * display name is the username and whose bio is empty. `userId` and `profileId` are the
   * ids the database assigns, `now` the creation date.
   */
  function RegisterDecision(users: UserStore, profiles: seq<UserProfile>, model: Option<RegisterValidator.RegisterModel>,
                    hash: string -> string, userId: int, profileId: int, now: int, fault: RegisterFault)
    : RegisterStep
  {
    if !RegisterValidator.Validate(model).IsSuccess() then RegisterStep(users, profiles, Failure(MissingValues))
    else
      var username := model.value.username.value;
      var password := model.value.password.value;
      if fault.ExistsLookupFails? then RegisterStep(users, profiles, Failure(InternalError(fault.message)))
      else if username in users then RegisterStep(users, profiles, Failure(UserExists))
      else if fault.CreateUserFails? then RegisterStep(users, profiles, Failure(InternalError(fault.message)))
      else
        var created := users[username := User(userId, username, hash(password), now, None)];
        if fault.CreateProfileFails? then RegisterStep(created, profiles, Failure(InternalError(fault.message)))
        else RegisterStep(created, profiles + [UserProfile(profileId, userId, username, Some(""), None)], Succeeded())
  }

  /** Registering a taken username changes nothing. */
  lemma RegisterExistingUser(users: UserStore, profiles: seq<UserProfile>, username: string, password: string,
                             hash: string -> string, userId: int, profileId: int, now: int)
    requires username != "" && password != "" && username in users
    ensures RegisterDecision(users, profiles, Some(RegisterValidator.RegisterModel(Some(username), Some(password))),
                     hash, userId, profileId, now, NoRegisterFault)
         == RegisterStep(users, profiles, Failure(UserExists))
  {
  }

  /** A new username gets a user with the hashed password and a profile named after it. */
  lemma RegisterNewUser(users: UserStore, profiles: seq<UserProfile>, username: string, password: string,
                        hash: string -> string, userId: int, profileId: int, now: int)
    requires username != "" && password != "" && username !in users
    ensures var step := RegisterDecision(users, profiles, Some(RegisterValidator.RegisterModel(Some(username), Some(password))),
                                 hash, userId, profileId, now, NoRegisterFault);
            step.result.IsSuccess()
            && step.users.Keys == users.Keys + {username}
            && step.users[username].hashedPassword == hash(password)
            && step.users[username].id == userId
            && (forall n :: n in users ==> step.users[n] == users[n])
            && step.profiles == profiles + [UserProfile(profileId, userId, username, Some(""), None)]
  {
  }

  /** Registering and then logging in with the same password succeeds when the hash verifies. */
  lemma RegisterThenLogin(users: UserStore, profiles: seq<UserProfile>, memberships: seq<CommunityMember>,
                          username: string, password: string, hash: string -> string,
                          verify: (string, string) -> bool, userId: int, profileId: int, now: int, later: int)
    requires username != "" && password != "" && username !in users
    requires hash(password) != "" && verify(password, hash(password))
    ensures var reg := RegisterDecision(users, profiles, Some(RegisterValidator.RegisterModel(Some(username), Some(password))),
                                hash, userId, profileId, now, NoRegisterFault);
            LoginDecision(reg.users, memberships, None, Some(LoginValidator.LoginModel(Some(username), Some(password))),
                  verify, later, NoLoginFault).result.IsSuccess()
  {
  }

  class LoginServiceImpl {

    /** The Users table, keyed by username. */
    var users: UserStore
    /** The UserProfiles table. */
    var profiles: seq<UserProfile>
    /** The CommunityMembers table. */
    var memberships: seq<CommunityMember>
    const identityService: IdentityService.IdentityServiceImpl

    constructor (identityService: IdentityService.IdentityServiceImpl, users: UserStore, profiles: seq<UserProfile>,
                 memberships: seq<CommunityMember>)
      ensures this.identityService == identityService
      ensures this.users == users && this.profiles == profiles && this.memberships == memberships
    {
      this.identityService := identityService;
      this.users := users;
      this.profiles := profiles;
      this.memberships := memberships;
    }

    method Login(model: Option<LoginValidator.LoginModel>, verify: (string, string) -> bool, now: int,
                 fault: LoginFault) returns (r: AuthResult)
      modifies this, identityService
      ensures LoginStep(users, identityService.userContext, r)
           == LoginDecision(old(users), memberships, old(identityService.userContext), model, verify, now, fault)
      ensures profiles == old(profiles) && memberships == old(memberships)
    {
      var validation := LoginValidator.Validate(model);
      if !validation.IsSuccess() {
        return Failure(MissingValues);
      }
      var username := model.value.username.value;
      var password := model.value.password.value;
      if fault.UserLookupFails? {
        return Failure(InternalError(fault.message));
      }
      if username !in users {
        return Failure(BadCredentials);
      }
      var user := users[username];
      if user.hashedPassword == "" || !verify(password, user.hashedPassword) {
        return Failure(BadCredentials);
      }
      user := user.(lastLogin := Some(now));
      if fault.MembershipsFail? {
        return Failure(InternalError(fault.message));
      }
      var mine := MembershipsOf(memberships, user.id);
      identityService.SetUserContext(Some(UserContext(user, mine)));
      if fault.SaveFails? {
        return Failure(InternalError(fault.message));
      }
      users := users[username := user];
      r := Succeeded();
    }

    method Logout()
      modifies identityService
      ensures identityService.userContext == None
    {
      identityService.SetUserContext(None);
    }

    method Register(model: Option<RegisterValidator.RegisterModel>, hash: string -> string, userId: int,
                    profileId: int, now: int, fault: RegisterFault) returns (r: AuthResult)
      modifies this
      ensures RegisterStep(users, profiles, r)
           == RegisterDecision(old(users), old(profiles), model, hash, userId, profileId, now, fault)
      ensures memberships == old(memberships)
    {
      var validation := RegisterValidator.Validate(model);
      if !validation.IsSuccess() {
        return Failure(MissingValues);
      }
      var username := model.value.username.value;
      var password := model.value.password.value;
      if fault.ExistsLookupFails? {
        return Failure(InternalError(fault.message));
      }
      if username in users {
        return Failure(UserExists);
      }
      if fault.CreateUserFails? {
        return Failure(InternalError(fault.message));
      }
      var hashedPassword := hash(password);
      users := users[username := User(userId, username, hashedPassword, now, None)];
      if fault.CreateProfileFails? {
        return Failure(InternalError(fault.message));
      }
      profiles := profiles + [UserProfile(profileId, userId, username, Some(""), None)];
      r := Succeeded();
    }
  }
}
