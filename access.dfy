/** Accounts: the authentication dependencies, registration, the two login
    endpoints, profile updates and the administrator's approval of users
    (backend/server.py).  Every handler is a transition of the database value;
    the class in server.dfy performs the same steps in place. */
module Access {
  import opened Models

  const BearerPrefix := "Bearer "

  predicate StartsWithBearer(t: string) {
    |t| >= |BearerPrefix| && t[..|BearerPrefix|] == BearerPrefix
  }

  /** `s.replace("Bearer ", "")`: every occurrence, scanning left to right. */
  function StripBearer(s: string): (r: string)
    ensures |r| <= |s|
    decreases |s|
  {
    if StartsWithBearer(s) then StripBearer(s[|BearerPrefix|..])
    else if s == [] then []
    else [s[0]] + StripBearer(s[1..])
  }

  /** No position of `t` starts an occurrence of "Bearer ". */
  predicate FreeOfBearer(t: string)
    decreases |t|
  {
    t == [] || (!StartsWithBearer(t) && FreeOfBearer(t[1..]))
  }

  lemma {:induction false} StripBearerKeeps(t: string)
    requires FreeOfBearer(t)
    ensures StripBearer(t) == t
    decreases |t|
  {
    if t != [] {
      StripBearerKeeps(t[1..]);
      assert t == [t[0]] + t[1..];
    }
  }

  /** A character that does not begin "Bearer " is kept. */
  lemma KeepFirst(c: char, t: string)
    requires !StartsWithBearer([c] + t)
    ensures StripBearer([c] + t) == [c] + StripBearer(t)
  {
    assert ([c] + t)[1..] == t;
  }

  /** A leading "Bearer " is dropped. */
  lemma DropPrefix(t: string)
    ensures StripBearer(BearerPrefix + t) == StripBearer(t)
  {
    assert (BearerPrefix + t)[..|BearerPrefix|] == BearerPrefix;
    assert (BearerPrefix + t)[|BearerPrefix|..] == t;
  }

  /** The replacement does not rescan its own output: "Be" + "Bearer " + t
      becomes "Be" + t, although the two halves may join into a new
      occurrence (`NewOccurrenceStays`). */
  lemma StripBearerNoRescan(tail: string)
    requires FreeOfBearer(tail)
    ensures StripBearer(['B'] + (['e'] + (BearerPrefix + tail))) == ['B'] + (['e'] + tail)
  {
    var u := BearerPrefix + tail;
    StripBearerKeeps(tail);
    DropPrefix(tail);
    assert (['e'] + u)[..|BearerPrefix|][0] == 'e';
    KeepFirst('e', u);
    assert (['B'] + (['e'] + u))[..|BearerPrefix|][2] == BearerPrefix[0];
    KeepFirst('B', ['e'] + u);
  }

  /** "BeBearer arer " becomes "Bearer ", which is left in place. */
  lemma NewOccurrenceStays()
    ensures StripBearer(['B'] + (['e'] + (BearerPrefix + "arer "))) == BearerPrefix
  {
    var t := "arer ";
    assert FreeOfBearer(t) by {
      assert t[1..] == "rer " && t[2..] == "er " && t[3..] == "r " && t[4..] == " " && t[5..] == [];
    }
    StripBearerNoRescan(t);
    assert ['B'] + (['e'] + t) == BearerPrefix;
  }

  /** A header "Bearer <token>" yields the token, when the token itself holds
      no "Bearer " (a token holding it is mangled by the replacement). */
  lemma BearerHeader(token: string)
    requires FreeOfBearer(token)
    ensures StripBearer(BearerPrefix + token) == token
  {
    assert (BearerPrefix + token)[..|BearerPrefix|] == BearerPrefix;
    assert (BearerPrefix + token)[|BearerPrefix|..] == token;
    StripBearerKeeps(token);
  }

  /** get_current_user: the index of the caller's user document.  `decode`
      stands for decode_token (None for a bad or expired token). */
  function CurrentUser(db: Db, authorization: Option<string>, decode: string -> Option<Claims>): (r: Result<nat>)
    ensures r == Err(MissingToken) <==> authorization.None? || authorization.value == ""
    ensures r.Ok? <==>
      && authorization.Some? && authorization.value != ""
      && decode(StripBearer(authorization.value)).Some?
      && FindUser(db.users, decode(StripBearer(authorization.value)).value.userId).Some?
    ensures r.Ok? ==>
      && r.value < |db.users|
      && db.users[r.value].id == decode(StripBearer(authorization.value)).value.userId
    ensures r.Err? ==> r.failure.Status() == 401
  {
    if authorization.None? || authorization.value == "" then Err(MissingToken)
    else match decode(StripBearer(authorization.value))
      case None => Err(InvalidToken)
      case Some(claims) =>
        match FindUser(db.users, claims.userId)
        case None => Err(UnknownTokenUser)
        case Some(i) => Ok(i)
  }

  /** get_admin_user. */
  function AdminUser(db: Db, authorization: Option<string>, decode: string -> Option<Claims>): (r: Result<nat>)
    ensures r.Ok? ==> r == CurrentUser(db, authorization, decode) && db.users[r.value].isAdmin
    ensures r.Err? ==> r.failure == AdminsOnly || CurrentUser(db, authorization, decode).Err?
    ensures r.Ok? <==> CurrentUser(db, authorization, decode).Ok? && db.users[CurrentUser(db, authorization, decode).value].isAdmin
  {
    match CurrentUser(db, authorization, decode)
    case Err(f) => Err(f)
    case Ok(i) => if !db.users[i].isAdmin then Err(AdminsOnly) else Ok(i)
  }

  /** An endpoint behind get_current_user: the handler runs with the caller's id. */
  function UserEndpoint<T>(db: Db, authorization: Option<string>, decode: string -> Option<Claims>,
                           handler: string -> Response<T>): (r: Response<T>)
    ensures CurrentUser(db, authorization, decode).Ok? ==>
      r == handler(decode(StripBearer(authorization.value)).value.userId)
    ensures CurrentUser(db, authorization, decode).Err? ==>
      r.db == db && r.reply.Err? && r.reply.failure.Status() == 401
  {
    match CurrentUser(db, authorization, decode)
    case Err(f) => Response(db, Err(f))
    case Ok(i) => handler(db.users[i].id)
  }

  /** An endpoint behind get_admin_user: the handler runs with the admin's id. */
  function AdminEndpoint<T>(db: Db, authorization: Option<string>, decode: string -> Option<Claims>,
                            handler: string -> Response<T>): (r: Response<T>)
    ensures AdminUser(db, authorization, decode).Ok? ==>
      r == handler(decode(StripBearer(authorization.value)).value.userId)
    ensures AdminUser(db, authorization, decode).Err? ==>
      r.db == db && r.reply.Err? && r.reply.failure.Status() in {401, 403}
  {
    match AdminUser(db, authorization, decode)
    case Err(f) => Response(db, Err(f))
    case Ok(i) => handler(db.users[i].id)
  }

  /** Whatever the admin handler, a signed-in caller without the admin flag
      gets 403 and changes nothing. */
  lemma NonAdminRefused<T>(db: Db, authorization: Option<string>, decode: string -> Option<Claims>,
                           handler: string -> Response<T>)
    requires CurrentUser(db, authorization, decode).Ok?
    requires !db.users[CurrentUser(db, authorization, decode).value].isAdmin
    ensures AdminEndpoint(db, authorization, decode, handler) == Response(db, Err(AdminsOnly))
    ensures AdminsOnly.Status() == 403
  {
  }

  /** Without a usable token every protected endpoint answers 401 and changes nothing. */
  lemma UnauthenticatedRefused<T>(db: Db, authorization: Option<string>, decode: string -> Option<Claims>,
                                  handler: string -> Response<T>)
    requires CurrentUser(db, authorization, decode).Err?
    ensures UserEndpoint(db, authorization, decode, handler).db == db
    ensures UserEndpoint(db, authorization, decode, handler).reply.Err?
    ensures UserEndpoint(db, authorization, decode, handler).reply.failure.Status() == 401
    ensures AdminEndpoint(db, authorization, decode, handler).db == db
    ensures AdminEndpoint(db, authorization, decode, handler).reply.failure.Status() == 401
  {
  }

  // ---------------------------------------------------------------- registration

  ghost predicate EmailTakenIn(users: seq<User>, email: string) {
    exists j :: 0 <= j < |users| && users[j].email == email
  }

  ghost predicate UsernameTakenIn(users: seq<User>, username: string) {
    exists j :: 0 <= j < |users| && users[j].username == username
  }

  /** The unique indexes on email and username. */
  ghost predicate UniqueAccounts(users: seq<User>) {
    forall i, j :: 0 <= i < j < |users| ==>
      users[i].email != users[j].email && users[i].username != users[j].username
  }

  /** The document register_user inserts: pending, not an admin, every balance 0. */
  function NewUser(form: UserCreate, passwordHash: string, referralCode: string, id: string, now: int): User {
    User(id, form.email, form.fullName, form.username, form.country, form.phone, form.cpf,
         form.pixKey, form.usdtWallet, passwordHash, UserStatus.Pending, false, ZeroBalances,
         referralCode, false, 0, now, now, None, None, None)
  }

  /** register_user.  `passwordHash` is hash_password(form.password) and
      `referralCode` is generate_referral_code(form.username); `newId` is the
      fresh uuid.  A referral code already in use violates its unique index
      and ends in a 500. */
  function Register(db: Db, form: UserCreate, passwordHash: string, referralCode: string,
                    newId: string, now: int): (r: Response<string>)
    ensures r.reply.Err? ==> r.db == db
    ensures r.reply.Ok? ==> r.reply.value == newId
  {
    if FindUserByEmail(db.users, form.email).Some? then Response(db, Err(EmailTaken))
    else if FindUserByUsername(db.users, form.username).Some? then Response(db, Err(UsernameTaken))
    else if FindUserByReferralCode(db.users, referralCode).Some? then Response(db, Err(InternalError))
    else Response(db.(users := db.users + [NewUser(form, passwordHash, referralCode, newId, now)]), Ok(newId))
  }

  /** A duplicate email is reported before a duplicate username; a success
      appends one pending, non-admin user with zero balances and touches
      nothing else. */
  lemma RegisterOutcome(db: Db, form: UserCreate, passwordHash: string, referralCode: string, newId: string, now: int)
    ensures var r := Register(db, form, passwordHash, referralCode, newId, now);
      && (EmailTakenIn(db.users, form.email) ==> r.reply == Err(EmailTaken))
      && (!EmailTakenIn(db.users, form.email) && UsernameTakenIn(db.users, form.username) ==> r.reply == Err(UsernameTaken))
      && (r.reply.Ok? <==>
            !EmailTakenIn(db.users, form.email) && !UsernameTakenIn(db.users, form.username) &&
            forall j :: 0 <= j < |db.users| ==> db.users[j].referralCode != referralCode)
      && (r.reply.Ok? ==>
            var u := r.db.users[|db.users|];
            && r.db == db.(users := db.users + [u])
            && u.id == newId && u.email == form.email && u.username == form.username
            && u.status == UserStatus.Pending && !u.isAdmin && u.balances == ZeroBalances)
  {
    var r := Register(db, form, passwordHash, referralCode, newId, now);
    if EmailTakenIn(db.users, form.email) {
      var j :| 0 <= j < |db.users| && db.users[j].email == form.email;
      assert ((u: User) => u.email == form.email)(db.users[j]);
    } else if UsernameTakenIn(db.users, form.username) {
      var j :| 0 <= j < |db.users| && db.users[j].username == form.username;
      assert ((u: User) => u.username == form.username)(db.users[j]);
    }
    if r.reply.Err? && !EmailTakenIn(db.users, form.email) && !UsernameTakenIn(db.users, form.username) {
      var k := FindUserByReferralCode(db.users, referralCode).value;
      assert db.users[k].referralCode == referralCode;
    }
  }

  /** Registration keeps emails and usernames unique. */
  lemma RegisterKeepsAccountsUnique(db: Db, form: UserCreate, passwordHash: string, referralCode: string, newId: string, now: int)
    requires UniqueAccounts(db.users)
    ensures UniqueAccounts(Register(db, form, passwordHash, referralCode, newId, now).db.users)
  {
    RegisterOutcome(db, form, passwordHash, referralCode, newId, now);
  }

  // ---------------------------------------------------------------- login

  /** login_user.  `verify` stands for verify_password(plain, hash).  The reply
      is the token's claims and the user document. */
  function Login(db: Db, email: string, password: string, verify: (string, string) -> bool): (r: Result<(Claims, User)>)
    ensures r.Ok? <==>
      FindUserByEmail(db.users, email).Some? &&
      verify(password, db.users[FindUserByEmail(db.users, email).value].password) &&
      db.users[FindUserByEmail(db.users, email).value].status == UserStatus.Active
    ensures r.Ok? ==> r.value.1.email == email && r.value.0 == Claims(r.value.1.id, email, false)
    ensures r.Err? ==> (r.failure == BadCredentials ||
                        r.failure in {AwaitingApproval, AccountSuspended, AccountRejected})
  {
    match FindUserByEmail(db.users, email)
    case None => Err(BadCredentials)
    case Some(i) =>
      var u := db.users[i];
      if !verify(password, u.password) then Err(BadCredentials)
      else if u.status == UserStatus.Pending then Err(AwaitingApproval)
      else if u.status == UserStatus.Suspended then Err(AccountSuspended)
      else if u.status == UserStatus.Rejected then Err(AccountRejected)
      else assert u.status == UserStatus.Active; Ok((Claims(u.id, u.email, false), u))
  }

  /** 401 exactly for an unknown email or a wrong password; otherwise 403
      exactly for an account that is not active. */
  lemma LoginStatusCodes(db: Db, email: string, password: string, verify: (string, string) -> bool)
    ensures var r := Login(db, email, password, verify);
      var i := FindUserByEmail(db.users, email);
      && (r.Err? && r.failure.Status() == 401 <==> i.None? || !verify(password, db.users[i.value].password))
      && (r.Err? && r.failure.Status() == 403 <==>
            i.Some? && verify(password, db.users[i.value].password) && db.users[i.value].status != UserStatus.Active)
  {
  }

  /** admin_login: the password and the admin flag are checked; the account
      status is not. */
  function AdminLogin(db: Db, email: string, password: string, verify: (string, string) -> bool): (r: Result<(Claims, User)>)
    ensures r.Ok? <==>
      FindUserByEmail(db.users, email).Some? &&
      verify(password, db.users[FindUserByEmail(db.users, email).value].password) &&
      db.users[FindUserByEmail(db.users, email).value].isAdmin
    ensures r.Ok? ==> r.value.1.isAdmin && r.value.0 == Claims(r.value.1.id, email, true)
    ensures r.Err? ==> r.failure in {BadCredentials, NotAdministrator}
  {
    match FindUserByEmail(db.users, email)
    case None => Err(BadCredentials)
    case Some(i) =>
      var u := db.users[i];
      if !verify(password, u.password) then Err(BadCredentials)
      else if !u.isAdmin then Err(NotAdministrator)
      else Ok((Claims(u.id, u.email, true), u))
  }

  // ---------------------------------------------------------------- profile

  function Pick<T>(given: Option<T>, current: T): T {
    if given.Some? then given.value else current
  }

  function PickOptional<T>(given: Option<T>, current: Option<T>): Option<T> {
    if given.Some? then given else current
  }

  predicate IsEmptyUpdate(upd: UserUpdate) {
    upd == UserUpdate(None, None, None, None, None, None, None, None, None)
  }

  /** `$set` of the fields the update provides. */
  function ApplyUpdate(u: User, upd: UserUpdate): User {
    u.(fullName := Pick(upd.fullName, u.fullName),
       username := Pick(upd.username, u.username),
       email := Pick(upd.email, u.email),
       phone := PickOptional(upd.phone, u.phone),
       cpf := PickOptional(upd.cpf, u.cpf),
       pixKey := PickOptional(upd.pixKey, u.pixKey),
       usdtWallet := PickOptional(upd.usdtWallet, u.usdtWallet),
       country := PickOptional(upd.country, u.country),
       status := Pick(upd.status, u.status))
  }

  /** Would writing `upd` into document `i` collide with another document on a
      unique index? */
  predicate ViolatesUniqueIndex(users: seq<User>, i: nat, upd: UserUpdate) {
    (upd.email.Some? && exists j :: 0 <= j < |users| && j != i && users[j].email == upd.email.value) ||
    (upd.username.Some? && exists j :: 0 <= j < |users| && j != i && users[j].username == upd.username.value)
  }

  /** update_user_profile: the caller's document gets the provided fields; a
      duplicate email or username fails on the unique index with a 500. */
  function UpdateProfile(db: Db, caller: string, upd: UserUpdate): (r: Response<User>)
    requires FindUser(db.users, caller).Some?
    ensures r.reply.Err? ==> r.db == db && r.reply.failure == InternalError
    ensures r.reply.Err? <==>
      !IsEmptyUpdate(upd) && ViolatesUniqueIndex(db.users, FindUser(db.users, caller).value, upd)
  {
    var i := FindUser(db.users, caller).value;
    if IsEmptyUpdate(upd) then Response(db, Ok(db.users[i]))
    else if ViolatesUniqueIndex(db.users, i, upd) then Response(db, Err(InternalError))
    else
      var u := ApplyUpdate(db.users[i], upd);
      Response(db.(users := db.users[i := u]), Ok(u))
  }

  /** A profile update changes only the caller's document, never a balance
      or the admin flag, and keeps emails and usernames unique. */
  lemma UpdateProfileScope(db: Db, caller: string, upd: UserUpdate)
    requires FindUser(db.users, caller).Some?
    ensures var r := UpdateProfile(db, caller, upd);
      var i := FindUser(db.users, caller).value;
      && |r.db.users| == |db.users|
      && r.db.(users := db.users) == db
      && (forall j :: 0 <= j < |db.users| && j != i ==> r.db.users[j] == db.users[j])
      && r.db.users[i].balances == db.users[i].balances
      && r.db.users[i].isAdmin == db.users[i].isAdmin
      && r.db.users[i].id == caller
      && (r.reply.Ok? ==> r.reply.value == r.db.users[i])
      && (UniqueAccounts(db.users) ==> UniqueAccounts(r.db.users))
  {
  }

  /** A successful update writes every field the update provides and keeps
      every other field of the caller's document. */
  lemma UpdateProfileWrites(db: Db, caller: string, upd: UserUpdate)
    requires FindUser(db.users, caller).Some?
    requires UpdateProfile(db, caller, upd).reply.Ok?
    ensures var before := db.users[FindUser(db.users, caller).value];
      var u := UpdateProfile(db, caller, upd).reply.value;
      && (upd.fullName.Some? ==> u.fullName == upd.fullName.value)
      && (upd.username.Some? ==> u.username == upd.username.value)
      && (upd.email.Some? ==> u.email == upd.email.value)
      && (upd.phone.Some? ==> u.phone == upd.phone)
      && (upd.cpf.Some? ==> u.cpf == upd.cpf)
      && (upd.pixKey.Some? ==> u.pixKey == upd.pixKey)
      && (upd.usdtWallet.Some? ==> u.usdtWallet == upd.usdtWallet)
      && (upd.country.Some? ==> u.country == upd.country)
      && (upd.status.Some? ==> u.status == upd.status.value)
      && u.(fullName := before.fullName, username := before.username, email := before.email, phone := before.phone,
            cpf := before.cpf, pixKey := before.pixKey, usdtWallet := before.usdtWallet, country := before.country,
            status := before.status) == before
  {
  }

  /** Nothing stops the caller from writing its own status: a suspended or
      rejected user with a valid token can set itself active. */
  lemma ProfileCanReactivate(db: Db, caller: string)
    requires FindUser(db.users, caller).Some?
    ensures var upd := UserUpdate(None, None, None, None, None, None, None, None, Some(UserStatus.Active));
      var r := UpdateProfile(db, caller, upd);
      r.reply.Ok? && r.db.users[FindUser(db.users, caller).value].status == UserStatus.Active
  {
  }

  // ---------------------------------------------------------------- approval

  /** approve_user: 404 for an unknown id; otherwise the first document with
      that id becomes active.  (The update always modifies the document, since
      it writes the current time.) */
  function ApproveUser(db: Db, userId: string, now: int): (r: Response<()>)
    ensures r.reply.Err? <==> FindUser(db.users, userId).None?
    ensures r.reply.Err? ==> r.db == db && r.reply.failure.Status() == 404
    ensures r.reply.Ok? ==>
      var i := FindUser(db.users, userId).value;
      && |r.db.users| == |db.users| && r.db.(users := db.users) == db
      && (forall j :: 0 <= j < |db.users| && j != i ==> r.db.users[j] == db.users[j])
      && r.db.users[i].status == UserStatus.Active
      && r.db.users[i].approvedAt == Some(now) && r.db.users[i].updatedAt == Some(now)
      && r.db.users[i].(status := db.users[i].status, approvedAt := db.users[i].approvedAt,
                        updatedAt := db.users[i].updatedAt) == db.users[i]
  {
    match FindUser(db.users, userId)
    case None => Response(db, Err(UserNotFound))
    case Some(i) =>
      var u := db.users[i].(status := UserStatus.Active, approvedAt := Some(now), updatedAt := Some(now));
      Response(db.(users := db.users[i := u]), Ok(()))
  }

  /** reject_user. */
  function RejectUser(db: Db, userId: string, now: int): (r: Response<()>)
    ensures r.reply.Err? <==> FindUser(db.users, userId).None?
    ensures r.reply.Err? ==> r.db == db && r.reply.failure.Status() == 404
    ensures r.reply.Ok? ==>
      var i := FindUser(db.users, userId).value;
      && |r.db.users| == |db.users| && r.db.(users := db.users) == db
      && (forall j :: 0 <= j < |db.users| && j != i ==> r.db.users[j] == db.users[j])
      && r.db.users[i].status == UserStatus.Rejected
      && r.db.users[i].rejectedAt == Some(now) && r.db.users[i].updatedAt == Some(now)
      && r.db.users[i].(status := db.users[i].status, rejectedAt := db.users[i].rejectedAt,
                        updatedAt := db.users[i].updatedAt) == db.users[i]
  {
    match FindUser(db.users, userId)
    case None => Response(db, Err(UserNotFound))
    case Some(i) =>
      var u := db.users[i].(status := UserStatus.Rejected, rejectedAt := Some(now), updatedAt := Some(now));
      Response(db.(users := db.users[i := u]), Ok(()))
  }

  /** A newly registered user cannot log in until an admin approves it, and
      then can, with the password it registered and when the stored hash
      verifies it. */
  lemma {:induction false} RegistrationLifecycle(db: Db, form: UserCreate, passwordHash: string, referralCode: string,
                                                 newId: string, now: int, verify: (string, string) -> bool)
    requires Register(db, form, passwordHash, referralCode, newId, now).reply.Ok?
    requires FindUser(db.users, newId).None?
    requires verify(form.password, passwordHash)
    ensures var db1 := Register(db, form, passwordHash, referralCode, newId, now).db;
      && Login(db1, form.email, form.password, verify) == Err(AwaitingApproval)
      && var db2 := ApproveUser(db1, newId, now).db;
         && ApproveUser(db1, newId, now).reply.Ok?
         && Login(db2, form.email, form.password, verify).Ok?
         && Login(db2, form.email, form.password, verify).value.1.id == newId
  {
    RegisteredFound(db, form, passwordHash, referralCode, newId, now);
    var db1 := Register(db, form, passwordHash, referralCode, newId, now).db;
    ApprovedFound(db1, |db.users|, form.email, newId, now);
  }

  /** The registered document is the last one, and both lookups reach it. */
  lemma RegisteredFound(db: Db, form: UserCreate, passwordHash: string, referralCode: string, newId: string, now: int)
    requires Register(db, form, passwordHash, referralCode, newId, now).reply.Ok?
    requires FindUser(db.users, newId).None?
    ensures var users := Register(db, form, passwordHash, referralCode, newId, now).db.users;
      && |db.users| < |users|
      && users[|db.users|] == NewUser(form, passwordHash, referralCode, newId, now)
      && FindUserByEmail(users, form.email) == Some(|db.users|)
      && FindUser(users, newId) == Some(|db.users|)
  {
    var u := NewUser(form, passwordHash, referralCode, newId, now);
    assert Register(db, form, passwordHash, referralCode, newId, now).db.users == db.users + [u];
    FirstMatchAppend(db.users, u, (v: User) => v.email == form.email);
    FirstMatchAppend(db.users, u, (v: User) => v.id == newId);
  }

  /** Approving the document both lookups reach keeps it reachable by email. */
  lemma ApprovedFound(db: Db, n: nat, email: string, id: string, now: int)
    requires FindUserByEmail(db.users, email) == Some(n) && FindUser(db.users, id) == Some(n)
    ensures var users := ApproveUser(db, id, now).db.users;
      && ApproveUser(db, id, now).reply.Ok?
      && |users| == |db.users|
      && users[n] == db.users[n].(status := UserStatus.Active, approvedAt := Some(now), updatedAt := Some(now))
      && FindUserByEmail(users, email) == Some(n)
  {
    var u := db.users[n].(status := UserStatus.Active, approvedAt := Some(now), updatedAt := Some(now));
    FirstMatchUpdate(db.users, n, u, (v: User) => v.email == email);
  }
}
