/**
 * Logging in: where one-time codes become sessions
 * (backend/uploads/95280ea58aed41bb9ca1012506f06da4_auth_service.py).
 *
 * A database is the three tables; each request is one step at one reading of the
 * clock. Users are named by their position. Hashes, tokens and random ids are
 * parameters of the step.
 */
module Accounts {
  import opened Common
  import Otps
  import Sessions

  const MAX_FAILED_ATTEMPTS: nat := 5
  const LOCKOUT_DURATION: int := 15 * Otps.MINUTE

  datatype Status = Active | Suspended | Pending | Disabled

  datatype User = User(name: string, email: string, phone: string, password: string, status: Status,
                       failed: nat, lockedUntil: Option<int>)

  datatype Db = Db(users: seq<User>, otps: seq<Otps.Otp>, sessions: seq<Sessions.Session>)

  /** The hash functions: comparing with a stored hash, and hashing a token. */
  datatype Env = Env(check: Otps.Checker, hash: Sessions.Hash)

  /** The random values drawn for a request, and where it comes from. */
  datatype Draw = Draw(sid: string, tokens: Sessions.Tokens, codeHash: string, ip: string, agent: string)

  /** A decoded temporary token. */
  datatype Payload = Payload(purpose: string, sub: int, phone: string)

  datatype Event =
    | Register(name: string, email: string, phone: string, password: string)
    | Login(identifier: string, password: string, draw: Draw)
    | VerifyCode(payload: Option<Payload>, code: string, draw: Draw)
    | ResendCode(payload: Option<Payload>, draw: Draw)
    | Enable(user: int, draw: Draw)
    | ConfirmEnable(user: int, payload: Option<Payload>, code: string)
    | Validate(sid: string, token: string, draw: Draw)
    | Refresh(sid: string, token: string, draw: Draw)
    | Logout(sid: string)
    | LogoutAll(user: int)
    | Cleanup

  /** What a session was given for: a password alone, or a code as well. */
  datatype Origin = Password | Code(id: nat)

  datatype Reply = Rejected | Crashed | Granted(origin: Origin) | CodeSent | Done(ok: bool)

  // ---------------------------------------------------------------- operations

  predicate Named(u: User, email: string, name: string) { u.email == email || u.name == name }

  /** The users whose email or name these are. */
  function FindUser(users: seq<User>, email: string, name: string): Found
  {
    FindOnly(users, |users|, (u: User) => Named(u, email, name))
  }

  lemma FindUserFinds(users: seq<User>, email: string, name: string)
    ensures var found := FindUser(users, email, name);
            match found
            case Nothing => forall i :: 0 <= i < |users| ==> !Named(users[i], email, name)
            case One(k) => k < |users| && forall i :: 0 <= i < |users| ==> (Named(users[i], email, name) <==> i == k)
            case Several =>
              exists i, j :: 0 <= i < j < |users| && Named(users[i], email, name) && Named(users[j], email, name)
  {
    FindOnlyFinds(users, |users|, (u: User) => Named(u, email, name));
  }

  function FindPhone(users: seq<User>, phone: string): Found
  {
    FindOnly(users, |users|, (u: User) => u.phone == phone)
  }

  /** Some other user has that phone number; the table's constraint does not allow a second. */
  predicate HeldByAnother(users: seq<User>, user: int, phone: string)
  {
    exists i :: 0 <= i < |users| && i != user && users[i].phone == phone
  }

  /** `register`; two rows where at most one was expected is an exception of the database layer. */
  function DoRegister(users: seq<User>, name: string, email: string, phone: string, password: string)
      : (seq<User>, Reply)
  {
    var found := FindUser(users, email, name);
    if found.Several? then (users, Crashed)
    else if found.One? then (users, Rejected)
    else if phone != "" && FindPhone(users, phone).Several? then (users, Crashed)
    else if phone != "" && FindPhone(users, phone).One? then (users, Rejected)
    else (users + [User(name, email, phone, password, Active, 0, None)], Done(true))
  }

  /** `_check_account_lockout`. */
  function CheckAccount(u: User, now: int): (User, bool)
  {
    if u.lockedUntil.Some? && u.lockedUntil.value > now then (u, false)
    else if u.failed >= MAX_FAILED_ATTEMPTS then (u.(lockedUntil := Some(now + LOCKOUT_DURATION)), false)
    else (u, true)
  }

  function Grant(db: Db, user: int, origin: Origin, draw: Draw, now: int, env: Env): (Db, Reply)
  {
    var (sessions, created) :=
      Sessions.Create(db.sessions, draw.sid, user, draw.tokens, draw.ip, draw.agent, now, env.hash);
    (db.(sessions := sessions), if created then Granted(origin) else Crashed)
  }

  function LoginAs(db: Db, i: nat, password: string, draw: Draw, now: int, env: Env): (Db, Reply)
    requires i < |db.users|
  {
    var (user, ok) := CheckAccount(db.users[i], now);
    if !ok || user.status == Suspended || user.status == Pending then (db.(users := db.users[i := user]), Rejected)
    else if !env.check(password, user.password) then
      (db.(users := db.users[i := user.(failed := user.failed + 1)]), Rejected)
    else
      var db := db.(users := db.users[i := user.(failed := 0, lockedUntil := None)]);
      if user.phone == "" then Grant(db, i, Password, draw, now, env)
      else
        var older := Otps.Invalidate(db.otps, i, "login", now);
        (db.(otps := Otps.Create(older, i, "login", draw.codeHash, now)), CodeSent)
  }

  /** `login`. */
  function DoLogin(db: Db, identifier: string, password: string, draw: Draw, now: int, env: Env): (Db, Reply)
  {
    FindUserFinds(db.users, identifier, identifier);
    match FindUser(db.users, identifier, identifier)
    case Nothing => (db, Rejected)
    case Several => (db, Crashed)
    case One(i) => LoginAs(db, i, password, draw, now, env)
  }

  predicate Known(db: Db, payload: Option<Payload>, purpose: string)
  {
    payload.Some? && payload.value.purpose == purpose && 0 <= payload.value.sub < |db.users|
  }

  /** `verify_otp_and_login`. */
  function DoVerify(db: Db, payload: Option<Payload>, code: string, draw: Draw, now: int, env: Env): (Db, Reply)
  {
    if !Known(db, payload, "otp_verify") || db.users[payload.value.sub].status != Active then (db, Rejected)
    else
      var user := payload.value.sub;
      var (otps, outcome) := Otps.Verify(db.otps, user, "login", code, now, env.check);
      if !outcome.Verified? then (db.(otps := otps), Rejected)
      else Grant(db.(otps := otps), user, Code(outcome.id), draw, now, env)
  }

  /** `resend_otp`: only too many in an hour stop it, the cooldown does not. */
  function DoResend(db: Db, payload: Option<Payload>, draw: Draw, now: int): (Db, Reply)
  {
    if !Known(db, payload, "otp_verify") then (db, Rejected)
    else
      var user := payload.value.sub;
      if db.users[user].email == "" && db.users[user].phone == "" then (db, Rejected)
      else if Otps.RateOf(db.otps, user, "login", now).TooMany? then (db, Rejected)
      else (db.(otps := Otps.Create(db.otps, user, "login", draw.codeHash, now)), CodeSent)
  }

  /** `confirm_enable_2fa`: the code is used up before the number is stored, which fails if another user has it. */
  function DoConfirm(db: Db, user: int, payload: Option<Payload>, code: string, now: int, env: Env): (Db, Reply)
  {
    if payload.None? || payload.value.purpose != "enable_2fa_verify" || payload.value.phone == "" then (db, Done(false))
    else
      var (otps, outcome) := Otps.Verify(db.otps, user, "enable_2fa", code, now, env.check);
      var db := db.(otps := otps);
      if !outcome.Verified? || !(0 <= user < |db.users|) then (db, Done(false))
      else if HeldByAnother(db.users, user, payload.value.phone) then (db, Crashed)
      else (db.(users := db.users[user := db.users[user].(phone := payload.value.phone)]), Done(true))
  }

  function Step(db: Db, e: Event, now: int, env: Env): (Db, Reply)
  {
    match e
    case Register(name, email, phone, password) =>
      var (users, reply) := DoRegister(db.users, name, email, phone, password);
      (db.(users := users), reply)
    case Login(identifier, password, draw) => DoLogin(db, identifier, password, draw, now, env)
    case VerifyCode(payload, code, draw) => DoVerify(db, payload, code, draw, now, env)
    case ResendCode(payload, draw) => DoResend(db, payload, draw, now)
    case Enable(user, draw) =>
      if 0 <= user < |db.users| then
        (db.(otps := Otps.Create(db.otps, user, "enable_2fa", draw.codeHash, now)), CodeSent)
      else (db, Rejected)
    case ConfirmEnable(user, payload, code) => DoConfirm(db, user, payload, code, now, env)
    case Validate(sid, token, draw) =>
      var (sessions, ok) := Sessions.Validate(db.sessions, sid, token, draw.ip, draw.agent, now, env.hash);
      (db.(sessions := sessions), Done(ok))
    case Refresh(sid, token, draw) =>
      var (sessions, ok) := Sessions.Refresh(db.sessions, sid, token, draw.tokens, draw.ip, now, env.hash);
      (db.(sessions := sessions), Done(ok))
    case Logout(sid) =>
      var (sessions, ok) := Sessions.Invalidate(db.sessions, sid, now, "logout");
      (db.(sessions := sessions), Done(ok))
    case LogoutAll(user) => (db.(sessions := Sessions.InvalidateAll(db.sessions, user, now, "logout_all")), Done(true))
    case Cleanup => (db.(sessions := Sessions.CleanupExpired(db.sessions, now)), Done(true))
  }

  // ----------------------------------------------------------------- invariants

  /** The database, with what each session was given for. */
  datatype World = World(db: Db, origins: seq<Origin>, clock: int)

  /** The counter stops at the limit, and a lock is only ever set there. */
  ghost predicate UserOk(u: User)
  {
    u.failed <= MAX_FAILED_ATTEMPTS && (u.lockedUntil.Some? ==> u.failed == MAX_FAILED_ATTEMPTS)
  }

  ghost predicate UsersOk(users: seq<User>)
  {
    && (forall i :: 0 <= i < |users| ==> UserOk(users[i]))
    && (forall i, j :: 0 <= i < j < |users| ==> users[i].name != users[j].name && users[i].email != users[j].email)
    && (forall i, j :: 0 <= i < j < |users| && users[i].phone != "" ==> users[i].phone != users[j].phone)
  }

  /** The session was given for a code of the same user, used up at the moment the session was made. */
  ghost predicate Earned(origin: Origin, session: Sessions.Session, otps: seq<Otps.Otp>)
  {
    origin.Code? ==>
      && origin.id < |otps| && Otps.Of(otps[origin.id], session.user, "login")
      && otps[origin.id].used && otps[origin.id].usedAt == Some(session.created)
  }

  ghost predicate OriginsOk(origins: seq<Origin>, sessions: seq<Sessions.Session>, otps: seq<Otps.Otp>)
  {
    && |origins| == |sessions|
    && (forall i :: 0 <= i < |origins| ==> Earned(origins[i], sessions[i], otps))
    && (forall i, j :: 0 <= i < j < |origins| && origins[i].Code? ==> origins[i] != origins[j])
  }

  ghost predicate Inv(w: World)
  {
    && UsersOk(w.db.users) && Otps.Inv(w.db.otps, w.clock) && Sessions.Inv(w.db.sessions)
    && OriginsOk(w.origins, w.db.sessions, w.db.otps)
  }

  ghost predicate Grows(db: Db, db': Db)
  {
    Otps.Grows(db.otps, db'.otps) && Sessions.Grows(db.sessions, db'.sessions) && |db.users| <= |db'.users|
  }

  function Recorded(origins: seq<Origin>, reply: Reply): seq<Origin>
  {
    if reply.Granted? then origins + [reply.origin] else origins
  }

  function Advance(w: World, e: Event, now: int, env: Env): World
  {
    if now < w.clock then w
    else
      var (db, reply) := Step(w.db, e, now, env);
      World(db, Recorded(w.origins, reply), now)
  }

  lemma OtpsWait(t: seq<Otps.Otp>, clock: int, now: int)
    requires Otps.Inv(t, clock) && clock <= now
    ensures Otps.Inv(t, now)
  {
    forall i | 0 <= i < |t| ensures Otps.RowOk(t[i], now) {
      assert Otps.RowOk(t[i], clock);
    }
  }

  lemma OriginsKept(origins: seq<Origin>, sessions: seq<Sessions.Session>, otps: seq<Otps.Otp>,
                    sessions': seq<Sessions.Session>, otps': seq<Otps.Otp>)
    requires OriginsOk(origins, sessions, otps) && |sessions'| == |sessions|
    requires Otps.Grows(otps, otps') && Sessions.Grows(sessions, sessions')
    ensures OriginsOk(origins, sessions', otps')
  {
    forall i | 0 <= i < |origins| ensures Earned(origins[i], sessions'[i], otps') {
      assert Earned(origins[i], sessions[i], otps);
    }
  }

  /** A session given for a password, or for a code that was unused before and is used now. */
  lemma OriginAdded(origins: seq<Origin>, sessions: seq<Sessions.Session>, otps: seq<Otps.Otp>, origin: Origin,
                    sessions': seq<Sessions.Session>, otps': seq<Otps.Otp>)
    requires OriginsOk(origins, sessions, otps) && |sessions'| == |sessions| + 1
    requires Otps.Grows(otps, otps') && Sessions.Grows(sessions, sessions')
    requires Earned(origin, sessions'[|sessions|], otps') &&
             (origin.Code? ==> origin.id < |otps| && !otps[origin.id].used)
    ensures OriginsOk(origins + [origin], sessions', otps')
  {
    var all := origins + [origin];
    forall i | 0 <= i < |all| ensures Earned(all[i], sessions'[i], otps') {
      if i < |origins| {
        assert Earned(origins[i], sessions[i], otps);
      }
    }
    forall i, j | 0 <= i < j < |all| && all[i].Code? ensures all[i] != all[j] {
      assert Earned(origins[i], sessions[i], otps);
    }
  }

  lemma UserChanged(users: seq<User>, i: nat, user: User)
    requires UsersOk(users) && i < |users| && UserOk(user) && user.name == users[i].name && user.email == users[i].email
    requires user.phone == users[i].phone || !HeldByAnother(users, i, user.phone)
    ensures UsersOk(users[i := user])
  {
  }

  /** Granting a session, for a password or for a code that has just been used up. */
  lemma GrantKeeps(db: Db, origins: seq<Origin>, otps: seq<Otps.Otp>, user: int, origin: Origin, draw: Draw, now: int,
                   env: Env, db': Db, reply: Reply)
    requires UsersOk(db.users) && Otps.Inv(db.otps, now) && Sessions.Inv(db.sessions)
    requires OriginsOk(origins, db.sessions, otps) && Otps.Grows(otps, db.otps)
    requires origin.Code? ==> origin.id < |otps| && !otps[origin.id].used && db.otps[origin.id].used &&
                              db.otps[origin.id].usedAt == Some(now) && Otps.Of(db.otps[origin.id], user, "login")
    requires (db', reply) == Grant(db, user, origin, draw, now, env)
    ensures Inv(World(db', Recorded(origins, reply), now)) && Sessions.Grows(db.sessions, db'.sessions)
  {
    Sessions.CreateKeeps(db.sessions, draw.sid, user, draw.tokens, draw.ip, draw.agent, now, env.hash, db'.sessions);
    if reply.Granted? {
      OriginAdded(origins, db.sessions, otps, origin, db'.sessions, db.otps);
    } else {
      OriginsKept(origins, db.sessions, otps, db'.sessions, db.otps);
    }
  }

  /** A step that makes no session keeps what the origins say. */
  lemma NoGrantKeeps(w: World, now: int, db': Db)
    requires Inv(w) && |db'.sessions| == |w.db.sessions| && Grows(w.db, db')
    requires UsersOk(db'.users) && Otps.Inv(db'.otps, now) && Sessions.Inv(db'.sessions)
    ensures Inv(World(db', w.origins, now))
  {
    OriginsKept(w.origins, w.db.sessions, w.db.otps, db'.sessions, db'.otps);
  }

  lemma LoginKeeps(w: World, i: nat, password: string, draw: Draw, now: int, env: Env, db': Db, reply: Reply)
    requires Inv(w) && w.clock <= now && i < |w.db.users| && (db', reply) == LoginAs(w.db, i, password, draw, now, env)
    ensures Inv(World(db', Recorded(w.origins, reply), now)) && Grows(w.db, db')
  {
    OtpsWait(w.db.otps, w.clock, now);
    var db, before := w.db, w.db.users[i];
    var (user, ok) := CheckAccount(before, now);
    assert UserOk(before) && UserOk(user);
    UserChanged(db.users, i, db'.users[i]);
    if reply.Rejected? {
      NoGrantKeeps(w, now, db');
    } else if reply.CodeSent? {
      var otps := Otps.Invalidate(db.otps, i, "login", now);
      Otps.InvalidateKeeps(db.otps, i, "login", now, now, otps);
      Otps.CreateKeeps(otps, i, "login", draw.codeHash, now, now, db'.otps);
      OtpsGrowOn(db.otps, otps, db'.otps);
      NoGrantKeeps(w, now, db');
    } else {
      GrantKeeps(db.(users := db'.users), w.origins, db.otps, i, Password, draw, now, env, db', reply);
    }
  }

  lemma OtpsGrowOn(a: seq<Otps.Otp>, b: seq<Otps.Otp>, c: seq<Otps.Otp>)
    requires Otps.Grows(a, b) && Otps.Grows(b, c)
    ensures Otps.Grows(a, c)
  {
  }

  lemma VerifyKeeps(w: World, payload: Option<Payload>, code: string, draw: Draw, now: int, env: Env, db': Db,
                    reply: Reply)
    requires Inv(w) && w.clock <= now && (db', reply) == DoVerify(w.db, payload, code, draw, now, env)
    ensures Inv(World(db', Recorded(w.origins, reply), now)) && Grows(w.db, db')
  {
    OtpsWait(w.db.otps, w.clock, now);
    if !Known(w.db, payload, "otp_verify") || w.db.users[payload.value.sub].status != Active {
      NoGrantKeeps(w, now, db');
    } else {
      var user := payload.value.sub;
      var (otps, outcome) := Otps.Verify(w.db.otps, user, "login", code, now, env.check);
      Otps.VerifyKeeps(w.db.otps, user, "login", code, now, w.clock, env.check, otps);
      if outcome.Verified? {
        Otps.VerifiedConsumes(w.db.otps, user, "login", code, now, w.clock, env.check);
        GrantKeeps(w.db.(otps := otps), w.origins, w.db.otps, user, Code(outcome.id), draw, now, env, db', reply);
      } else {
        NoGrantKeeps(w, now, db');
      }
    }
  }

  lemma OtherCodesKeep(w: World, e: Event, now: int, env: Env, db': Db, reply: Reply)
    requires Inv(w) && w.clock <= now && (db', reply) == Step(w.db, e, now, env)
    requires e.ResendCode? || e.Enable? || e.ConfirmEnable?
    ensures Inv(World(db', w.origins, now)) && Grows(w.db, db')
  {
    OtpsWait(w.db.otps, w.clock, now);
    match e {
      case ResendCode(payload, draw) =>
        if reply.CodeSent? {
          Otps.CreateKeeps(w.db.otps, payload.value.sub, "login", draw.codeHash, now, now, db'.otps);
        }
      case Enable(user, draw) =>
        if reply.CodeSent? {
          Otps.CreateKeeps(w.db.otps, user, "enable_2fa", draw.codeHash, now, now, db'.otps);
        }
      case ConfirmEnable(user, payload, code) =>
        if db' != w.db {
          Otps.VerifyKeeps(w.db.otps, user, "enable_2fa", code, now, now, env.check, db'.otps);
        }
        if db'.users != w.db.users {
          assert UserOk(w.db.users[user]);
          UserChanged(w.db.users, user, db'.users[user]);
        }
    }
    NoGrantKeeps(w, now, db');
  }

  lemma SessionsKeep(w: World, e: Event, now: int, env: Env, db': Db)
    requires Inv(w) && w.clock <= now && db' == Step(w.db, e, now, env).0
    requires e.Validate? || e.Refresh? || e.Logout? || e.LogoutAll? || e.Cleanup?
    ensures Inv(World(db', w.origins, now)) && Grows(w.db, db')
  {
    OtpsWait(w.db.otps, w.clock, now);
    var t, t' := w.db.sessions, db'.sessions;
    match e {
      case Validate(sid, token, draw) =>
        Sessions.ValidateTouches(t, sid, token, draw.ip, draw.agent, now, env.hash, t');
      case Refresh(sid, token, draw) => Sessions.RefreshTouches(t, sid, token, draw.tokens, draw.ip, now, env.hash, t');
      case Logout(sid) => Sessions.InvalidateTouches(t, sid, now, "logout", t');
      case LogoutAll(user) => Sessions.InvalidateAllTouches(t, user, now, "logout_all", t');
      case Cleanup => Sessions.CleanupTouches(t, now, t');
    }
    Sessions.TouchedKeeps(w.db.sessions, db'.sessions);
    NoGrantKeeps(w, now, db');
  }

  lemma RegisterKeeps(w: World, name: string, email: string, phone: string, password: string, now: int, db': Db)
    requires Inv(w) && w.clock <= now && db' == w.db.(users := DoRegister(w.db.users, name, email, phone, password).0)
    ensures Inv(World(db', w.origins, now)) && Grows(w.db, db')
  {
    OtpsWait(w.db.otps, w.clock, now);
    FindUserFinds(w.db.users, email, name);
    FindOnlyFinds(w.db.users, |w.db.users|, (u: User) => u.phone == phone);
    NoGrantKeeps(w, now, db');
  }

  lemma AdvanceKeeps(w: World, e: Event, now: int, env: Env)
    requires Inv(w)
    ensures Inv(Advance(w, e, now, env)) && Grows(w.db, Advance(w, e, now, env).db)
  {
    if now >= w.clock {
      var (db', reply) := Step(w.db, e, now, env);
      match e {
        case Register(name, email, phone, password) => RegisterKeeps(w, name, email, phone, password, now, db');
        case Login(identifier, password, draw) =>
          FindUserFinds(w.db.users, identifier, identifier);
          match FindUser(w.db.users, identifier, identifier) {
            case One(i) => LoginKeeps(w, i, password, draw, now, env, db', reply);
            case _ => OtpsWait(w.db.otps, w.clock, now);
          }
        case VerifyCode(payload, code, draw) => VerifyKeeps(w, payload, code, draw, now, env, db', reply);
        case ResendCode(_, _) => OtherCodesKeep(w, e, now, env, db', reply);
        case Enable(_, _) => OtherCodesKeep(w, e, now, env, db', reply);
        case ConfirmEnable(_, _, _) => OtherCodesKeep(w, e, now, env, db', reply);
        case _ => SessionsKeep(w, e, now, env, db');
      }
    }
  }

  // ---------------------------------------------------------------- whole runs

  const EMPTY: World := World(Db([], [], []), [], 0)

  /** The first n requests, each with its time; one whose time would run backwards does not happen. */
  ghost function Run(requests: seq<(Event, int)>, n: nat, env: Env): World
    requires n <= |requests|
  {
    if n == 0 then EMPTY else Advance(Run(requests, n - 1, env), requests[n - 1].0, requests[n - 1].1, env)
  }

  lemma {:induction false} RunKeeps(requests: seq<(Event, int)>, n: nat, env: Env)
    requires n <= |requests|
    ensures Inv(Run(requests, n, env))
  {
    if n == 0 {
      assert OriginsOk([], [], []);
    } else {
      RunKeeps(requests, n - 1, env);
      AdvanceKeeps(Run(requests, n - 1, env), requests[n - 1].0, requests[n - 1].1, env);
    }
  }

  lemma GrowsOn(a: Db, b: Db, c: Db)
    requires Grows(a, b) && Grows(b, c)
    ensures Grows(a, c)
  {
    OtpsGrowOn(a.otps, b.otps, c.otps);
  }

  /** A used code stays used and a revoked session stays revoked, whatever is requested in between. */
  lemma {:induction false} RevokedStaysRevoked(requests: seq<(Event, int)>, m: nat, n: nat, env: Env)
    requires m <= n <= |requests|
    ensures var before, after := Run(requests, m, env).db, Run(requests, n, env).db;
            && |before.otps| <= |after.otps| && |before.sessions| <= |after.sessions|
            && (forall i :: 0 <= i < |before.otps| && before.otps[i].used ==> after.otps[i] == before.otps[i])
            && (forall i :: 0 <= i < |before.sessions| && !before.sessions[i].active ==>
                  after.sessions[i] == before.sessions[i])
    ensures Grows(Run(requests, m, env).db, Run(requests, n, env).db)
  {
    if m < n {
      RevokedStaysRevoked(requests, m, n - 1, env);
      RunKeeps(requests, n - 1, env);
      AdvanceKeeps(Run(requests, n - 1, env), requests[n - 1].0, requests[n - 1].1, env);
      GrowsOn(Run(requests, m, env).db, Run(requests, n - 1, env).db, Run(requests, n, env).db);
    }
  }

  /** After any requests: at most one active session of each user, and active means not revoked. */
  lemma OneActiveSession(requests: seq<(Event, int)>, n: nat, env: Env, user: int)
    requires n <= |requests|
    ensures var sessions := Run(requests, n, env).db.sessions;
            && Sessions.ActiveOf(sessions, |sessions|, user) <= 1
            && (forall i :: 0 <= i < |sessions| ==> (sessions[i].active <==> sessions[i].revokedAt.None?))
  {
    RunKeeps(requests, n, env);
    var sessions := Run(requests, n, env).db.sessions;
    Sessions.AtMostOneActive(sessions, |sessions|, user);
  }

  /**
   * After any requests: at most one unused code of each user and purpose, and no
   * more than MAX_TOTAL_FAILURES attempts on the codes created in the last half hour.
   */
  lemma CodesAreBounded(requests: seq<(Event, int)>, n: nat, env: Env, user: int, purpose: string)
    requires n <= |requests|
    ensures var w := Run(requests, n, env);
            var otps := w.db.otps;
            && (forall i, j ::
                  0 <= i < j < |otps| && Otps.Of(otps[i], user, purpose) && Otps.Of(otps[j], user, purpose) ==>
                  otps[i].used || otps[j].used)
            && (forall i :: 0 <= i < |otps| ==> otps[i].attempts <= otps[i].maxAttempts)
            && (forall i :: 0 <= i < |otps| && !otps[i].used ==> otps[i].attempts < otps[i].maxAttempts)
            && Otps.Failures(otps, |otps|, user, purpose, w.clock - Otps.LOCKOUT_WINDOW) <= Otps.MAX_TOTAL_FAILURES
  {
    RunKeeps(requests, n, env);
    var w := Run(requests, n, env);
    forall i | 0 <= i < |w.db.otps|
      ensures w.db.otps[i].attempts <= w.db.otps[i].maxAttempts
      ensures !w.db.otps[i].used ==> w.db.otps[i].attempts < w.db.otps[i].maxAttempts
    {
      assert Otps.RowOk(w.db.otps[i], w.clock);
    }
  }

  /**
   * Every session given for a code has a code of its own: the same user's, unused
   * until the moment the session was made and used up at it.
   */
  lemma SessionsAreEarned(requests: seq<(Event, int)>, n: nat, env: Env, i: nat)
    requires n <= |requests| && i < |Run(requests, n, env).origins| && Run(requests, n, env).origins[i].Code?
    ensures var w := Run(requests, n, env);
            var id := w.origins[i].id;
            && |w.origins| == |w.db.sessions| && Earned(w.origins[i], w.db.sessions[i], w.db.otps)
            && forall j :: 0 <= j < |w.origins| && j != i ==> w.origins[j] != Code(id)
  {
    RunKeeps(requests, n, env);
    var w := Run(requests, n, env);
    assert Earned(w.origins[i], w.db.sessions[i], w.db.otps);
    forall j | 0 <= j < |w.origins| && j != i ensures w.origins[j] != Code(w.origins[i].id) {
      assert j < i || i < j;
    }
  }

  function AcceptedId(outcome: Otps.Outcome): Option<nat> { if outcome.Verified? then Some(outcome.id) else None }

  /** The code that a request has accepted, if it gets as far as comparing one. */
  function AcceptedBy(db: Db, e: Event, now: int, env: Env): Option<nat>
  {
    match e
    case VerifyCode(payload, code, _) =>
      if !Known(db, payload, "otp_verify") || db.users[payload.value.sub].status != Active then None
      else AcceptedId(Otps.Verify(db.otps, payload.value.sub, "login", code, now, env.check).1)
    case ConfirmEnable(user, payload, code) =>
      if payload.None? || payload.value.purpose != "enable_2fa_verify" || payload.value.phone == "" then None
      else AcceptedId(Otps.Verify(db.otps, user, "enable_2fa", code, now, env.check).1)
    case _ => None
  }

  /** The codes accepted by the first n requests. */
  ghost function Accepted(requests: seq<(Event, int)>, n: nat, env: Env): seq<nat>
    requires n <= |requests|
  {
    if n == 0 then []
    else
      var (e, now) := requests[n - 1];
      var w := Run(requests, n - 1, env);
      var id := if now < w.clock then None else AcceptedBy(w.db, e, now, env);
      if id.Some? then Accepted(requests, n - 1, env) + [id.value] else Accepted(requests, n - 1, env)
  }

  lemma AcceptedWasUnused(w: World, e: Event, now: int, env: Env)
    requires Inv(w) && w.clock <= now && AcceptedBy(w.db, e, now, env).Some?
    ensures var id := AcceptedBy(w.db, e, now, env).value;
            var after := Step(w.db, e, now, env).0.otps;
            id < |w.db.otps| == |after| && !w.db.otps[id].used && after[id].used
  {
    var user := if e.VerifyCode? then e.payload.value.sub else e.user;
    var purpose := if e.VerifyCode? then "login" else "enable_2fa";
    Otps.VerifiedConsumes(w.db.otps, user, purpose, e.code, now, w.clock, env.check);
  }

  ghost predicate AllUsed(ids: seq<nat>, otps: seq<Otps.Otp>)
  {
    && (forall k :: 0 <= k < |ids| ==> ids[k] < |otps| && otps[ids[k]].used)
    && (forall k, l :: 0 <= k < l < |ids| ==> ids[k] != ids[l])
  }

  /** Over every run: no code, of any purpose, is accepted twice. */
  lemma {:induction false} AcceptedOnce(requests: seq<(Event, int)>, n: nat, env: Env)
    requires n <= |requests|
    ensures AllUsed(Accepted(requests, n, env), Run(requests, n, env).db.otps)
  {
    if n > 0 {
      AcceptedOnce(requests, n - 1, env);
      var (e, now) := requests[n - 1];
      var w := Run(requests, n - 1, env);
      RunKeeps(requests, n - 1, env);
      AdvanceKeeps(w, e, now, env);
      if w.clock <= now && AcceptedBy(w.db, e, now, env).Some? {
        AcceptedWasUnused(w, e, now, env);
      }
    }
  }

  // ------------------------------------------------------------- refresh tokens

  /** The request gives the session no refresh token with that hash. */
  ghost predicate NotReissued(e: Event, sid: string, hash: string, env: Env)
  {
    e.Refresh? && e.sid == sid ==> env.hash(e.draw.tokens.refresh) != hash
  }

  lemma ReplacedStays(w: World, e: Event, now: int, env: Env, sid: string, hash: string)
    requires Sessions.Replaced(w.db.sessions, sid, hash) && NotReissued(e, sid, hash, env)
    ensures Sessions.Replaced(Advance(w, e, now, env).db.sessions, sid, hash)
  {
    var t, t' := w.db.sessions, Step(w.db, e, now, env).0.sessions;
    if now >= w.clock {
      match e {
        case Login(identifier, _, draw) =>
          FindUserFinds(w.db.users, identifier, identifier);
          var found := FindUser(w.db.users, identifier, identifier);
          if found.One? {
            Sessions.ReplacedByCreate(t, draw.sid, found.i, draw.tokens, draw.ip, draw.agent, now, env.hash, sid, hash);
          }
        case VerifyCode(payload, _, draw) =>
          if payload.Some? {
            Sessions.ReplacedByCreate(t, draw.sid, payload.value.sub, draw.tokens, draw.ip, draw.agent, now, env.hash,
                                      sid, hash);
          }
        case Refresh(sid2, token, draw) =>
          Sessions.ReplacedByRefresh(t, sid2, token, draw.tokens, draw.ip, now, env.hash, sid, hash);
        case _ => Sessions.ReplacedByOthers(t, t', sid, hash);
      }
    }
  }

  /** The request was a refresh with that token that succeeded, and the new token has another hash. */
  ghost predicate Replaces(requests: seq<(Event, int)>, n: nat, env: Env, sid: string, token: string)
    requires n < |requests|
  {
    var (e, now) := requests[n];
    var w := Run(requests, n, env);
    && e.Refresh? && e.sid == sid && e.token == token && w.clock <= now
    && Step(w.db, e, now, env).1 == Done(true) && env.hash(e.draw.tokens.refresh) != env.hash(token)
  }

  lemma {:induction false} ReplacedSince(requests: seq<(Event, int)>, k: nat, n: nat, env: Env, sid: string,
                                         token: string)
    requires k < n <= |requests| && Replaces(requests, k, env, sid, token)
    requires forall i :: k < i < n ==> NotReissued(requests[i].0, sid, env.hash(token), env)
    ensures Sessions.Replaced(Run(requests, n, env).db.sessions, sid, env.hash(token))
  {
    var (e, now) := requests[n - 1];
    var w := Run(requests, n - 1, env);
    if k == n - 1 {
      RunKeeps(requests, k, env);
      Sessions.RefreshReplaces(w.db.sessions, sid, token, e.draw.tokens, e.draw.ip, now, env.hash);
    } else {
      ReplacedSince(requests, k, n - 1, env, sid, token);
      ReplacedStays(w, e, now, env, sid, env.hash(token));
    }
  }

  /**
   * Over every run: a refresh token that was replaced is never accepted again,
   * whatever is requested in between, as long as no later one has its hash.
   */
  lemma ReplacedTokenIsRefused(requests: seq<(Event, int)>, k: nat, n: nat, env: Env, sid: string, token: string,
                               draw: Draw, now: int)
    requires k < n <= |requests| && Replaces(requests, k, env, sid, token)
    requires forall i :: k < i < n ==> NotReissued(requests[i].0, sid, env.hash(token), env)
    ensures Step(Run(requests, n, env).db, Refresh(sid, token, draw), now, env).1 == Done(false)
  {
    ReplacedSince(requests, k, n, env, sid, token);
    Sessions.ReplacedIsRefused(Run(requests, n, env).db.sessions, sid, token, draw.tokens, draw.ip, now, env.hash);
  }

  // ------------------------------------------------------------ how a session ends

  /** A password login that gets as far as making a session. */
  ghost predicate PasswordSuffices(db: Db, user: int, identifier: string, password: string, env: Env)
  {
    && 0 <= user < |db.users|
    && (forall i :: 0 <= i < |db.users| ==> (Named(db.users[i], identifier, identifier) <==> i == user))
    && db.users[user].failed < MAX_FAILED_ATTEMPTS && db.users[user].status in {Active, Disabled}
    && env.check(password, db.users[user].password) && db.users[user].phone == ""
  }

  /** The code a request presents is the live one of an active user who is not locked out. */
  ghost predicate CodeSuffices(db: Db, payload: Option<Payload>, code: string, now: int, env: Env, id: nat)
  {
    && payload.Some? && payload.value.purpose == "otp_verify" && 0 <= payload.value.sub < |db.users|
    && db.users[payload.value.sub].status == Active
    && id < |db.otps| && Otps.Eligible(db.otps[id], payload.value.sub, "login", now)
    && env.check(code, db.otps[id].hash) && !Otps.Locked(db.otps, payload.value.sub, "login", now)
  }

  /** The request ends an active session r. */
  ghost predicate Ends(db: Db, e: Event, now: int, env: Env, r: Sessions.Session)
  {
    match e
    case Login(identifier, password, _) => PasswordSuffices(db, r.user, identifier, password, env)
    case VerifyCode(payload, code, _) =>
      payload.Some? && payload.value.sub == r.user && exists id :: CodeSuffices(db, payload, code, now, env, id)
    case Validate(sid, token, _) => Sessions.Live(r, sid, now) && r.token != env.hash(token)
    case Refresh(sid, token, _) => Sessions.Live(r, sid, now) && r.refresh != env.hash(token)
    case Logout(sid) => r.sid == sid
    case LogoutAll(user) => r.user == user
    case Cleanup => now >= r.expires
    case _ => false
  }

  /**
   * `verify_otp_and_login` grants a session exactly if the payload names an active user who is not locked out,
   * the code is that of their live, unexpired row, and the session id drawn is free; the row is used up.
   */
  lemma VerifyGrantsExactly(w: World, payload: Option<Payload>, code: string, draw: Draw, now: int, env: Env, id: nat)
    requires Inv(w) && w.clock <= now
    ensures var (db', reply) := DoVerify(w.db, payload, code, draw, now, env);
            && (reply == Granted(Code(id)) <==>
                  CodeSuffices(w.db, payload, code, now, env, id) && !Sessions.Known(w.db.sessions, draw.sid))
            && (CodeSuffices(w.db, payload, code, now, env, id) ==>
                  && db'.users == w.db.users && |db'.otps| == |w.db.otps|
                  && db'.otps[id].used && db'.otps[id].usedAt == Some(now)
                  && db'.sessions == Sessions.Create(w.db.sessions, draw.sid, payload.value.sub, draw.tokens, draw.ip,
                                                     draw.agent, now, env.hash).0
                  && (reply.Granted? || reply.Crashed?))
            && (reply.Granted? ==> reply.origin.Code?)
  {
    if Known(w.db, payload, "otp_verify") && w.db.users[payload.value.sub].status == Active {
      var user := payload.value.sub;
      Otps.VerifiedExactly(w.db.otps, user, "login", code, now, w.clock, env.check, id);
      if Otps.Verify(w.db.otps, user, "login", code, now, env.check).1.Verified? {
        Otps.VerifiedConsumes(w.db.otps, user, "login", code, now, w.clock, env.check);
      }
      Sessions.CreatedExactly(w.db.sessions, draw.sid, user, draw.tokens, draw.ip, draw.agent, now, env.hash);
    }
  }

  /** Otherwise it is refused, and no session changes; a guess for an active user is charged to their code. */
  lemma VerifyRefusesExactly(w: World, payload: Option<Payload>, code: string, draw: Draw, now: int, env: Env)
    requires Inv(w) && w.clock <= now
    ensures var (db', reply) := DoVerify(w.db, payload, code, draw, now, env);
            && (reply.Rejected? <==> forall id :: !CodeSuffices(w.db, payload, code, now, env, id))
            && (reply.Rejected? ==> db'.sessions == w.db.sessions && db'.users == w.db.users)
            && db'.otps == (if payload.Some? && payload.value.purpose == "otp_verify" &&
                               0 <= payload.value.sub < |w.db.users| && w.db.users[payload.value.sub].status == Active
                            then Otps.Verify(w.db.otps, payload.value.sub, "login", code, now, env.check).0
                            else w.db.otps)
  {
    forall id: nat ensures CodeSuffices(w.db, payload, code, now, env, id) ==>
      !DoVerify(w.db, payload, code, draw, now, env).1.Rejected?
    {
      VerifyGrantsExactly(w, payload, code, draw, now, env, id);
    }
    if Known(w.db, payload, "otp_verify") && w.db.users[payload.value.sub].status == Active {
      var outcome := Otps.Verify(w.db.otps, payload.value.sub, "login", code, now, env.check).1;
      if outcome.Verified? {
        Otps.VerifiedExactly(w.db.otps, payload.value.sub, "login", code, now, w.clock, env.check, outcome.id);
        assert CodeSuffices(w.db, payload, code, now, env, outcome.id);
      }
    }
  }

  lemma LoginEnds(w: World, identifier: string, password: string, draw: Draw, now: int, env: Env, i: nat)
    requires Inv(w) && i < |w.db.sessions| && w.db.sessions[i].active
    ensures var sessions := DoLogin(w.db, identifier, password, draw, now, env).0.sessions;
            i < |sessions| &&
            (!sessions[i].active <==> PasswordSuffices(w.db, w.db.sessions[i].user, identifier, password, env))
  {
    FindUserFinds(w.db.users, identifier, identifier);
    var found := FindUser(w.db.users, identifier, identifier);
    if found.One? {
      assert UserOk(w.db.users[found.i]);
      Sessions.CreatesExactly(w.db.sessions, draw.sid, found.i, draw.tokens, draw.ip, draw.agent, now, env.hash, "",
                              draw.tokens, now);
    } else if found.Several? {
      var j, k :| 0 <= j < k < |w.db.users| && Named(w.db.users[j], identifier, identifier) &&
        Named(w.db.users[k], identifier, identifier);
    }
  }

  lemma VerifyEnds(w: World, payload: Option<Payload>, code: string, draw: Draw, now: int, env: Env, i: nat)
    requires Inv(w) && w.clock <= now && i < |w.db.sessions| && w.db.sessions[i].active
    ensures var sessions := DoVerify(w.db, payload, code, draw, now, env).0.sessions;
            i < |sessions| &&
            (!sessions[i].active <==> Ends(w.db, VerifyCode(payload, code, draw), now, env, w.db.sessions[i]))
  {
    VerifyRefusesExactly(w, payload, code, draw, now, env);
    if id: nat :| CodeSuffices(w.db, payload, code, now, env, id) {
      VerifyGrantsExactly(w, payload, code, draw, now, env, id);
      Sessions.CreatesExactly(w.db.sessions, draw.sid, payload.value.sub, draw.tokens, draw.ip, draw.agent, now,
                              env.hash, "", draw.tokens, now);
    }
  }

  /**
   * Over every run: a request ends an active session exactly if it is a login of its user that gets through,
   * presents a wrong token for it, logs it or its user out, or cleans up after it has run out.
   */
  lemma SessionsEndExactly(requests: seq<(Event, int)>, n: nat, env: Env, i: nat)
    requires n < |requests| && Run(requests, n, env).clock <= requests[n].1
    requires i < |Run(requests, n, env).db.sessions| && Run(requests, n, env).db.sessions[i].active
    ensures var w, after := Run(requests, n, env), Run(requests, n + 1, env).db.sessions;
            i < |after| &&
            (!after[i].active <==> Ends(w.db, requests[n].0, requests[n].1, env, w.db.sessions[i]))
  {
    var w := Run(requests, n, env);
    var (e, now) := requests[n];
    RunKeeps(requests, n, env);
    StepEnds(w, e, now, env, i);
  }

  lemma StepEnds(w: World, e: Event, now: int, env: Env, i: nat)
    requires Inv(w) && w.clock <= now && i < |w.db.sessions| && w.db.sessions[i].active
    ensures var sessions := Step(w.db, e, now, env).0.sessions;
            i < |sessions| && (!sessions[i].active <==> Ends(w.db, e, now, env, w.db.sessions[i]))
  {
    var t := w.db.sessions;
    match e {
      case Login(identifier, password, draw) => LoginEnds(w, identifier, password, draw, now, env, i);
      case VerifyCode(payload, code, draw) => VerifyEnds(w, payload, code, draw, now, env, i);
      case Validate(sid, token, draw) =>
        Sessions.ValidatesExactly(t, sid, token, draw.ip, draw.agent, now, env.hash, i);
      case Refresh(sid, token, draw) =>
        Sessions.RefreshesExactly(t, sid, token, draw.tokens, draw.ip, now, env.hash, i);
      case Logout(sid) => Sessions.EndsExactly(t, sid, now, "logout", i);
      case LogoutAll(user) => Sessions.SweepsExactly(t, user, now, "logout_all", i);
      case Cleanup => Sessions.SweepsExactly(t, 0, now, "expired", i);
      case _ =>
    }
  }

  /** Over every run: once a session has ended, no token is accepted under its id again. */
  lemma EndedIsRefused(requests: seq<(Event, int)>, m: nat, n: nat, env: Env, i: nat, token: string, draw: Draw,
                       now: int)
    requires m <= n <= |requests|
    requires i < |Run(requests, m, env).db.sessions| && !Run(requests, m, env).db.sessions[i].active
    ensures var db, sid := Run(requests, n, env).db, Run(requests, m, env).db.sessions[i].sid;
            && Step(db, Validate(sid, token, draw), now, env).1 == Done(false)
            && Step(db, Refresh(sid, token, draw), now, env).1 == Done(false)
  {
    RevokedStaysRevoked(requests, m, n, env);
    RunKeeps(requests, n, env);
    var t := Run(requests, n, env).db.sessions;
    Sessions.FindIs(t, |t|, t[i].sid, i);
  }

  // ------------------------------------------------------------ the account lock

  /**
   * A login gets through exactly when the identifier names one user, that user has
   * not failed MAX_FAILED_ATTEMPTS times, is neither suspended nor pending, the
   * password is right, and the new session id is not taken. The end of the
   * fifteen minutes plays no part.
   */
  lemma LoginSucceedsExactly(w: World, identifier: string, password: string, draw: Draw, now: int, env: Env)
    requires Inv(w)
    ensures var reply := DoLogin(w.db, identifier, password, draw, now, env).1;
            var found := FindUser(w.db.users, identifier, identifier);
            reply.Granted? || reply.CodeSent? <==>
              && found.One? && found.i < |w.db.users|
              && var user := w.db.users[found.i];
              && user.failed < MAX_FAILED_ATTEMPTS && user.status != Suspended && user.status != Pending
              && env.check(password, user.password)
              && (user.phone == "" ==> !Sessions.Known(w.db.sessions, draw.sid))
  {
    FindUserFinds(w.db.users, identifier, identifier);
    var found := FindUser(w.db.users, identifier, identifier);
    if found.One? {
      LoginAsSucceeds(w.db, found.i, password, draw, now, env);
    }
  }

  lemma LoginAsSucceeds(db: Db, i: nat, password: string, draw: Draw, now: int, env: Env)
    requires i < |db.users| && UserOk(db.users[i])
    ensures var reply := LoginAs(db, i, password, draw, now, env).1;
            var user := db.users[i];
            reply.Granted? || reply.CodeSent? <==>
              && user.failed < MAX_FAILED_ATTEMPTS && user.status != Suspended && user.status != Pending
              && env.check(password, user.password)
              && (user.phone == "" ==> !Sessions.Known(db.sessions, draw.sid))
  {
    var (user, ok) := CheckAccount(db.users[i], now);
    assert ok <==> db.users[i].failed < MAX_FAILED_ATTEMPTS;
    Sessions.CreatedExactly(db.sessions, draw.sid, i, draw.tokens, draw.ip, draw.agent, now, env.hash);
  }

  /** The identifier is the name or email of user i and of no one else. */
  ghost predicate Names(users: seq<User>, identifier: string, i: nat)
  {
    i < |users| && forall j :: 0 <= j < |users| ==> (Named(users[j], identifier, identifier) <==> j == i)
  }

  /** A login that names user i gets as far as the password. */
  predicate MayTry(u: User) { u.failed < 5 && u.status in {Active, Disabled} }

  /**
   * What a login does with the user it names: a wrong password is counted and a right one clears the count; from
   * the fifth on the lock is set anew, whenever it has run out; nobody else changes. A right one
   * makes a session, or sends a code if the user has a phone.
   */
  lemma LoginsAreExact(w: World, identifier: string, password: string, draw: Draw, now: int, env: Env, i: nat)
    requires Inv(w) && Names(w.db.users, identifier, i)
    ensures var (db', reply) := DoLogin(w.db, identifier, password, draw, now, env);
            var u, right := w.db.users[i], env.check(password, w.db.users[i].password);
            && |db'.users| == |w.db.users|
            && (forall j :: 0 <= j < |db'.users| && j != i ==> db'.users[j] == w.db.users[j])
            && db'.users[i] ==
               (if MayTry(u) then
                  if right then u.(failed := 0, lockedUntil := None) else u.(failed := u.failed + 1)
                else if u.failed < 5 || (u.lockedUntil.Some? && now < u.lockedUntil.value) then u
                else u.(lockedUntil := Some(now + 15 * Otps.MINUTE)))
            && (reply.Rejected? <==> !(MayTry(u) && right))
            && (reply.CodeSent? <==> MayTry(u) && right && u.phone != "")
            && (reply == Granted(Password) <==>
                  MayTry(u) && right && u.phone == "" && !Sessions.Known(w.db.sessions, draw.sid))
            && (reply.Granted? ==> reply.origin.Password?)
            && db'.otps == (if reply.CodeSent? then NewCode(w.db.otps, i, "login", draw, now) else w.db.otps)
            && db'.sessions ==
               (if MayTry(u) && right && u.phone == "" then
                  Sessions.Create(w.db.sessions, draw.sid, i, draw.tokens, draw.ip, draw.agent, now, env.hash).0
                else w.db.sessions)
  {
    FindUserFinds(w.db.users, identifier, identifier);
    assert UserOk(w.db.users[i]);
    InvalidatedOnce(w.db.otps, i, "login", draw.codeHash, now);
    Sessions.CreatedExactly(w.db.sessions, draw.sid, i, draw.tokens, draw.ip, draw.agent, now, env.hash);
  }

  function NewCode(otps: seq<Otps.Otp>, user: int, purpose: string, draw: Draw, now: int): seq<Otps.Otp>
  {
    Otps.Create(otps, user, purpose, draw.codeHash, now)
  }

  /** Using up the older codes before creating one does no more than creating one. */
  lemma InvalidatedOnce(otps: seq<Otps.Otp>, user: int, purpose: string, hash: string, now: int)
    ensures Otps.Create(Otps.Invalidate(otps, user, purpose, now), user, purpose, hash, now) ==
            Otps.Create(otps, user, purpose, hash, now)
  {
    assert Otps.Invalidate(Otps.Invalidate(otps, user, purpose, now), user, purpose, now) ==
           Otps.Invalidate(otps, user, purpose, now);
  }

  /** An identifier that is nobody's is refused, and one that two users share makes the login fail; nothing changes. */
  lemma UnnamedLogins(w: World, identifier: string, password: string, draw: Draw, now: int, env: Env)
    requires forall i: nat :: !Names(w.db.users, identifier, i)
    ensures var (db', reply) := DoLogin(w.db, identifier, password, draw, now, env);
            && db' == w.db && (reply.Rejected? || reply.Crashed?)
            && (reply.Rejected? <==>
                  forall i :: 0 <= i < |w.db.users| ==> !Named(w.db.users[i], identifier, identifier))
  {
    FindUserFinds(w.db.users, identifier, identifier);
    var found := FindUser(w.db.users, identifier, identifier);
    if found.One? {
      assert Names(w.db.users, identifier, found.i);
    }
  }

  /** Some user has that name or email, or that phone number. */
  predicate Taken(users: seq<User>, name: string, email: string, phone: string)
  {
    || (exists i :: 0 <= i < |users| && Named(users[i], email, name))
    || (phone != "" && exists i :: 0 <= i < |users| && users[i].phone == phone)
  }

  /** Registration adds exactly the user asked for, active and without failures, if nothing of it is taken. */
  lemma RegistersExactly(w: World, name: string, email: string, phone: string, password: string)
    requires Inv(w)
    ensures var (users, reply) := DoRegister(w.db.users, name, email, phone, password);
            if Taken(w.db.users, name, email, phone) then users == w.db.users && (reply.Rejected? || reply.Crashed?)
            else reply == Done(true) && users == w.db.users + [User(name, email, phone, password, Active, 0, None)]
    ensures DoRegister(w.db.users, name, email, phone, password).1.Crashed? <==>
            exists i, j :: 0 <= i < j < |w.db.users| && Named(w.db.users[i], email, name) &&
                           Named(w.db.users[j], email, name)
  {
    var users := w.db.users;
    FindUserFinds(users, email, name);
    FindPhoneFinds(users, phone);
    if FindUser(users, email, name).One? {
      assert Named(users[FindUser(users, email, name).i], email, name);
    }
  }

  lemma FindPhoneFinds(users: seq<User>, phone: string)
    ensures var found := FindPhone(users, phone);
            match found
            case Nothing => forall i :: 0 <= i < |users| ==> users[i].phone != phone
            case One(k) => k < |users| && users[k].phone == phone
            case Several => exists i, j :: 0 <= i < j < |users| && users[i].phone == phone && users[j].phone == phone
  {
    FindOnlyFinds(users, |users|, (u: User) => u.phone == phone);
  }

  /** Another code is sent exactly to a known user with an address and fewer than five codes in the last hour. */
  lemma ResendsExactly(w: World, payload: Option<Payload>, draw: Draw, now: int)
    ensures var (db', reply) := DoResend(w.db, payload, draw, now);
            && (reply.CodeSent? || reply.Rejected?)
            && (reply.CodeSent? <==>
                  && payload.Some? && payload.value.purpose == "otp_verify" && 0 <= payload.value.sub < |w.db.users|
                  && (w.db.users[payload.value.sub].email != "" || w.db.users[payload.value.sub].phone != "")
                  && |Otps.RecentRows(w.db.otps, |w.db.otps|, payload.value.sub, "login", now)| < 5)
            && db' == (if reply.CodeSent? then w.db.(otps := NewCode(w.db.otps, payload.value.sub, "login", draw, now))
                       else w.db)
  {
    if payload.Some? {
      Otps.RateIsExact(w.db.otps, payload.value.sub, "login", now);
    }
  }

  /** Turning the second factor on sends a code to every known user; the other two always succeed. */
  lemma OthersAreExact(db: Db, user: int, draw: Draw, now: int, env: Env)
    ensures Step(db, Enable(user, draw), now, env) ==
            if 0 <= user < |db.users| then (db.(otps := NewCode(db.otps, user, "enable_2fa", draw, now)), CodeSent)
            else (db, Rejected)
    ensures Step(db, LogoutAll(user), now, env).1 == Step(db, Cleanup, now, env).1 == Done(true)
  {
  }

  /** The code is the live one for turning the second factor on, by a token for it that names a phone. */
  ghost predicate Confirms(db: Db, user: int, payload: Option<Payload>, code: string, now: int, env: Env, id: nat)
  {
    && payload.Some? && payload.value.purpose == "enable_2fa_verify" && payload.value.phone != ""
    && id < |db.otps| && Otps.Eligible(db.otps[id], user, "enable_2fa", now)
    && env.check(code, db.otps[id].hash) && !Otps.Locked(db.otps, user, "enable_2fa", now)
  }

  /** The phone is stored exactly if the code is confirmed, there is such a user and nobody else has the number. */
  lemma ConfirmsExactly(w: World, user: int, payload: Option<Payload>, code: string, now: int, env: Env)
    requires Inv(w) && w.clock <= now
    ensures var (db', reply) := DoConfirm(w.db, user, payload, code, now, env);
            var confirmed := exists id :: Confirms(w.db, user, payload, code, now, env, id);
            && (reply == Done(true) <==>
                  confirmed && 0 <= user < |w.db.users| && !HeldByAnother(w.db.users, user, payload.value.phone))
            && (reply.Crashed? <==>
                  confirmed && 0 <= user < |w.db.users| && HeldByAnother(w.db.users, user, payload.value.phone))
            && (reply == Done(true) || reply == Done(false) || reply.Crashed?)
            && db'.sessions == w.db.sessions
            && db'.users == (if reply == Done(true) then
                               w.db.users[user := w.db.users[user].(phone := payload.value.phone)]
                             else w.db.users)
  {
    if payload.Some? && payload.value.purpose == "enable_2fa_verify" && payload.value.phone != "" {
      var outcome := Otps.Verify(w.db.otps, user, "enable_2fa", code, now, env.check).1;
      forall id: nat
        ensures outcome == Otps.Verified(id) <==> Confirms(w.db, user, payload, code, now, env, id)
      {
        Otps.VerifiedExactly(w.db.otps, user, "enable_2fa", code, now, w.clock, env.check, id);
      }
    }
  }

  ghost predicate LockedOut(db: Db, i: nat)
  {
    i < |db.users| && db.users[i].failed >= MAX_FAILED_ATTEMPTS
  }

  lemma LockStays(w: World, e: Event, now: int, env: Env, i: nat)
    requires Inv(w) && LockedOut(w.db, i)
    ensures LockedOut(Advance(w, e, now, env).db, i)
  {
    if e.Login? {
      FindUserFinds(w.db.users, e.identifier, e.identifier);
    }
  }

  /** One registration, and then logins with one and the same password. */
  function Guesses(email: string, stored: string, password: string, draw: Draw): seq<(Event, int)>
  {
    seq(1 + MAX_FAILED_ATTEMPTS, i =>
      (if i == 0 then Register(email, email, "", stored) else Login(email, password, draw), 0))
  }

  lemma {:induction false} GuessesAreCounted(email: string, stored: string, password: string, draw: Draw, env: Env,
                                             n: nat)
    requires !env.check(password, stored) && 1 <= n <= 1 + MAX_FAILED_ATTEMPTS
    ensures var w := Run(Guesses(email, stored, password, draw), n, env);
            w.clock == 0 && w.db.users == [User(email, email, "", stored, Active, n - 1, None)]
  {
    var guesses := Guesses(email, stored, password, draw);
    var w := Run(guesses, n - 1, env);
    if n == 1 {
      FindUserFinds([], email, email);
    } else {
      GuessesAreCounted(email, stored, password, draw, env, n - 1);
      FindUserFinds(w.db.users, email, email);
      assert Named(w.db.users[0], email, email);
      assert guesses[n - 1].0 == Login(email, password, draw);
    }
  }

  /** The lock is within reach: any password that is refused locks the user out in MAX_FAILED_ATTEMPTS logins. */
  lemma LockIsReached(email: string, stored: string, password: string, draw: Draw, env: Env)
    requires !env.check(password, stored)
    ensures LockedOut(Run(Guesses(email, stored, password, draw), 1 + MAX_FAILED_ATTEMPTS, env).db, 0)
  {
    GuessesAreCounted(email, stored, password, draw, env, 1 + MAX_FAILED_ATTEMPTS);
  }

  /** Once the counter has reached the limit nothing resets it: no login of that user ever gets through again. */
  lemma {:induction false} LockedOutForGood(requests: seq<(Event, int)>, m: nat, n: nat, env: Env, i: nat,
                                            identifier: string, password: string, draw: Draw, now: int)
    requires m <= n <= |requests| && LockedOut(Run(requests, m, env).db, i)
    ensures LockedOut(Run(requests, n, env).db, i)
    ensures var db := Run(requests, n, env).db;
            Named(db.users[i], identifier, identifier) ==>
              var reply := DoLogin(db, identifier, password, draw, now, env).1; reply.Rejected? || reply.Crashed?
  {
    if m < n {
      LockedOutForGood(requests, m, n - 1, env, i, identifier, password, draw, now);
      RunKeeps(requests, n - 1, env);
      LockStays(Run(requests, n - 1, env), requests[n - 1].0, requests[n - 1].1, env, i);
    }
    var db := Run(requests, n, env).db;
    FindUserFinds(db.users, identifier, identifier);
  }

  // -------------------------------------------------------------------- service

  /** The service over its three tables; each request is one of its methods. */
  class AuthService {
    var users: seq<User>
    const otps: Otps.OtpTable
    const sessions: Sessions.SessionTable
    const env: Env

    function Model(): Db
      reads this, otps, sessions
    {
      Db(users, otps.rows, sessions.rows)
    }

    constructor (env: Env)
      ensures Model() == EMPTY.db && this.env == env && fresh(otps) && fresh(sessions)
    {
      users := [];
      this.env := env;
      otps := new Otps.OtpTable();
      sessions := new Sessions.SessionTable();
    }

    method CheckAccountLockout(i: nat, now: int) returns (ok: bool)
      requires i < |users|
      modifies this`users
      ensures (users, ok) == (old(users)[i := CheckAccount(old(users[i]), now).0], CheckAccount(old(users[i]), now).1)
    {
      assert users[i := users[i]] == users;
      if users[i].lockedUntil.Some? && users[i].lockedUntil.value > now {
        return false;
      }
      if users[i].failed >= MAX_FAILED_ATTEMPTS {
        users := users[i := users[i].(lockedUntil := Some(now + LOCKOUT_DURATION))];
        return false;
      }
      ok := true;
    }

    method LoginUser(identifier: string, password: string, draw: Draw, now: int) returns (reply: Reply)
      modifies this`users, otps, sessions
      ensures (Model(), reply) == DoLogin(old(Model()), identifier, password, draw, now, env)
    {
      FindUserFinds(users, identifier, identifier);
      var found := FindUser(users, identifier, identifier);
      if found.Nothing? {
        return Rejected;
      }
      if found.Several? {
        return Crashed;
      }
      var i := found.i;
      var ok := CheckAccountLockout(i, now);
      if !ok {
        return Rejected;
      }
      if users[i].status == Suspended {
        return Rejected;
      }
      if users[i].status == Pending {
        return Rejected;
      }
      if !env.check(password, users[i].password) {
        users := users[i := users[i].(failed := users[i].failed + 1)];
        assert users == old(users)[i := users[i]];
        return Rejected;
      }
      users := users[i := users[i].(failed := 0, lockedUntil := None)];
      assert users == old(users)[i := users[i]];
      if users[i].phone == "" {
        var created := sessions.CreateSession(draw.sid, i, draw.tokens, draw.ip, draw.agent, now, env.hash);
        return if created then Granted(Password) else Crashed;
      }
      otps.InvalidateUserOtps(i, "login", now);
      var _ := otps.CreateOtp(i, "login", draw.codeHash, now);
      reply := CodeSent;
    }

    method VerifyOtpAndLogin(payload: Option<Payload>, code: string, draw: Draw, now: int) returns (reply: Reply)
      modifies this`users, otps, sessions
      ensures (Model(), reply) == DoVerify(old(Model()), payload, code, draw, now, env)
    {
      if payload.None? || payload.value.purpose != "otp_verify" {
        return Rejected;
      }
      var user := payload.value.sub;
      if !(0 <= user < |users|) || users[user].status != Active {
        return Rejected;
      }
      var outcome := otps.VerifyOtp(user, "login", code, now, env.check);
      if !outcome.Verified? {
        return Rejected;
      }
      var created := sessions.CreateSession(draw.sid, user, draw.tokens, draw.ip, draw.agent, now, env.hash);
      reply := if created then Granted(Code(outcome.id)) else Crashed;
    }

    method ResendOtp(payload: Option<Payload>, draw: Draw, now: int) returns (reply: Reply)
      modifies this`users, otps, sessions
      ensures (Model(), reply) == DoResend(old(Model()), payload, draw, now)
    {
      if payload.None? || payload.value.purpose != "otp_verify" {
        return Rejected;
      }
      var user := payload.value.sub;
      if !(0 <= user < |users|) || (users[user].email == "" && users[user].phone == "") {
        return Rejected;
      }
      var rate := otps.CheckRateLimit(user, "login", now);
      if rate.TooMany? {
        return Rejected;
      }
      var _ := otps.CreateOtp(user, "login", draw.codeHash, now);
      reply := CodeSent;
    }

    method ConfirmEnable2fa(user: int, payload: Option<Payload>, code: string, now: int) returns (reply: Reply)
      modifies this`users, otps, sessions
      ensures (Model(), reply) == DoConfirm(old(Model()), user, payload, code, now, env)
    {
      if payload.None? || payload.value.purpose != "enable_2fa_verify" || payload.value.phone == "" {
        return Done(false);
      }
      var outcome := otps.VerifyOtp(user, "enable_2fa", code, now, env.check);
      if !outcome.Verified? || !(0 <= user < |users|) {
        return Done(false);
      }
      if HeldByAnother(users, user, payload.value.phone) {
        return Crashed;
      }
      users := users[user := users[user].(phone := payload.value.phone)];
      reply := Done(true);
    }
  }
}
