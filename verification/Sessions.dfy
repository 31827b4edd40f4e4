/**
 * Login sessions (backend/uploads/c3249cf405df4da99affffe54205acac_session_service.py).
 *
 * The table is a sequence of rows; session_id is its unique column. Tokens are
 * parameters, and so is the function that hashes them.
 */
module Sessions {
  import opened Common

  const MINUTE: int := 60_000_000
  const SESSION_LENGTH: int := 30 * MINUTE

  type Hash = string -> string

  datatype Session = Session(sid: string, user: int, token: string, refresh: string, ip: string, agent: string,
                             active: bool, created: int, expires: int, lastActivity: int, revokedAt: Option<int>,
                             reason: string)

  /** What a caller presents or is handed: an access token and a refresh token. */
  datatype Tokens = Tokens(access: string, refresh: string)

  // ---------------------------------------------------------------- operations

  function Revoked(r: Session, now: int, reason: string): Session
  {
    r.(active := false, revokedAt := Some(now), reason := reason)
  }

  function RevokedIf(r: Session, condition: bool, now: int, reason: string): Session
  {
    if r.active && condition then Revoked(r, now, reason) else r
  }

  /** `invalidate_all_user_sessions`. */
  function InvalidateAll(t: seq<Session>, user: int, now: int, reason: string): (t': seq<Session>)
    ensures |t'| == |t|
  {
    seq(|t|, i requires 0 <= i < |t| => RevokedIf(t[i], t[i].user == user, now, reason))
  }

  /** `cleanup_expired_sessions`. */
  function CleanupExpired(t: seq<Session>, now: int): (t': seq<Session>)
    ensures |t'| == |t|
  {
    seq(|t|, i requires 0 <= i < |t| => RevokedIf(t[i], t[i].expires <= now, now, "expired"))
  }

  /** How many of the first n sessions are the user's and active. */
  function ActiveOf(t: seq<Session>, n: nat, user: int): nat
    requires n <= |t|
  {
    if n == 0 then 0 else ActiveOf(t, n - 1, user) + if t[n - 1].user == user && t[n - 1].active then 1 else 0
  }

  /** How many of the first n sessions are active although they have expired. */
  function ExpiredCount(t: seq<Session>, n: nat, now: int): nat
    requires n <= |t|
  {
    if n == 0 then 0 else ExpiredCount(t, n - 1, now) + if t[n - 1].active && t[n - 1].expires <= now then 1 else 0
  }

  predicate Known(t: seq<Session>, sid: string)
  {
    exists i :: 0 <= i < |t| && t[i].sid == sid
  }

  function NewSession(sid: string, user: int, tokens: Tokens, ip: string, agent: string, now: int, hash: Hash): Session
  {
    Session(sid, user, hash(tokens.access), hash(tokens.refresh), if ip != "" then ip else "unknown", agent,
            true, now, now + SESSION_LENGTH, now, None, "")
  }

  /** `create_session`; an id that is already there makes the insertion fail, after the older ones were revoked. */
  function Create(t: seq<Session>, sid: string, user: int, tokens: Tokens, ip: string, agent: string, now: int,
                  hash: Hash)
      : (seq<Session>, bool)
  {
    var t' := InvalidateAll(t, user, now, "new_session");
    if Known(t, sid) then (t', false) else (t' + [NewSession(sid, user, tokens, ip, agent, now, hash)], true)
  }

  /** The row of that id among the first n. */
  function Find(t: seq<Session>, n: nat, sid: string): Option<nat>
    requires n <= |t|
  {
    if n == 0 then None
    else if t[n - 1].sid == sid then Some(n - 1)
    else Find(t, n - 1, sid)
  }

  lemma {:induction false} FindFinds(t: seq<Session>, n: nat, sid: string)
    requires n <= |t|
    ensures var found := Find(t, n, sid);
            if found.Some? then found.value < n && t[found.value].sid == sid
            else forall i :: 0 <= i < n ==> t[i].sid != sid
  {
    if n > 0 {
      FindFinds(t, n - 1, sid);
    }
  }

  /** The session of that id if it is active. */
  function ActiveWith(t: seq<Session>, sid: string): (found: Option<nat>)
    ensures found.Some? ==> found.value < |t| && t[found.value].sid == sid && t[found.value].active
  {
    FindFinds(t, |t|, sid);
    var found := Find(t, |t|, sid);
    if found.Some? && t[found.value].active then found else None
  }

  /** The session of that id if it is active and has not expired. */
  function Usable(t: seq<Session>, sid: string, now: int): (found: Option<nat>)
    ensures found.Some? ==> found.value < |t| && t[found.value].sid == sid && t[found.value].active
                            && t[found.value].expires > now
  {
    var found := ActiveWith(t, sid);
    if found.Some? && t[found.value].expires > now then found else None
  }

  /** Moving a session to the address and browser it is used from. */
  function Seen(r: Session, ip: string, agent: string, now: int): Session
  {
    r.(ip := if ip != "" && r.ip != "" then ip else r.ip,
       agent := if agent != "" && r.agent != "" then agent else r.agent,
       lastActivity := now)
  }

  /** `validate_session`. */
  function Validate(t: seq<Session>, sid: string, token: string, ip: string, agent: string, now: int, hash: Hash)
      : (seq<Session>, bool)
  {
    var found := Usable(t, sid, now);
    if found.None? then (t, false)
    else if t[found.value].token != hash(token) then
      (t[found.value := Revoked(t[found.value], now, "invalid_token")], false)
    else (t[found.value := Seen(t[found.value], ip, agent, now)], true)
  }

  function Renewed(r: Session, issued: Tokens, ip: string, now: int, hash: Hash): Session
  {
    r.(token := hash(issued.access), refresh := hash(issued.refresh), lastActivity := now,
       ip := if ip != "" then ip else r.ip, expires := now + SESSION_LENGTH)
  }

  /** `refresh_session`: the refresh token is replaced, and a wrong one ends the session. */
  function Refresh(t: seq<Session>, sid: string, refresh: string, issued: Tokens, ip: string, now: int, hash: Hash)
      : (seq<Session>, bool)
  {
    var found := Usable(t, sid, now);
    if found.None? then (t, false)
    else if t[found.value].refresh != hash(refresh) then
      (t[found.value := Revoked(t[found.value], now, "invalid_refresh_token")], false)
    else (t[found.value := Renewed(t[found.value], issued, ip, now, hash)], true)
  }

  /** `invalidate_session`, expired or not. */
  function Invalidate(t: seq<Session>, sid: string, now: int, reason: string): (seq<Session>, bool)
  {
    var found := ActiveWith(t, sid);
    if found.Some? then (t[found.value := Revoked(t[found.value], now, reason)], true)
    else (t, false)
  }

  // ----------------------------------------------------------------- invariants

  ghost predicate DistinctIds(t: seq<Session>)
  {
    forall i, j :: 0 <= i < j < |t| ==> t[i].sid != t[j].sid
  }

  /** Only the newest session of a user can be active; so at most one is. */
  ghost predicate OneActive(t: seq<Session>)
  {
    forall i, j :: 0 <= i < j < |t| && t[i].user == t[j].user ==> !t[i].active
  }

  ghost predicate RevokedIsInactive(t: seq<Session>)
  {
    forall i :: 0 <= i < |t| ==> (t[i].active <==> t[i].revokedAt.None?)
  }

  ghost predicate Inv(t: seq<Session>) { DistinctIds(t) && OneActive(t) && RevokedIsInactive(t) }

  /** No row goes away or changes hands, and what was revoked stays as it was. */
  ghost predicate Grows(t: seq<Session>, t': seq<Session>)
  {
    |t| <= |t'| && forall i :: 0 <= i < |t| ==>
      && t'[i].sid == t[i].sid && t'[i].user == t[i].user && t'[i].created == t[i].created
      && (!t[i].active ==> t'[i] == t[i])
  }

  /** The same rows, some of them revoked or used. */
  ghost predicate Touched(t: seq<Session>, t': seq<Session>)
  {
    |t| == |t'| && Grows(t, t') && RevokedIsInactive(t')
  }

  lemma TouchedKeeps(t: seq<Session>, t': seq<Session>)
    requires Inv(t) && Touched(t, t')
    ensures Inv(t')
  {
    forall i, j | 0 <= i < j < |t'| && t'[i].user == t'[j].user ensures !t'[i].active {
      assert !t[i].active;
    }
  }

  lemma ValidateTouches(t: seq<Session>, sid: string, token: string, ip: string, agent: string, now: int, hash: Hash,
                        t': seq<Session>)
    requires Inv(t) && t' == Validate(t, sid, token, ip, agent, now, hash).0
    ensures Touched(t, t')
  {
  }

  lemma RefreshTouches(t: seq<Session>, sid: string, refresh: string, issued: Tokens, ip: string, now: int, hash: Hash,
                       t': seq<Session>)
    requires Inv(t) && t' == Refresh(t, sid, refresh, issued, ip, now, hash).0
    ensures Touched(t, t')
  {
  }

  lemma InvalidateTouches(t: seq<Session>, sid: string, now: int, reason: string, t': seq<Session>)
    requires Inv(t) && t' == Invalidate(t, sid, now, reason).0
    ensures Touched(t, t')
  {
  }

  lemma InvalidateAllTouches(t: seq<Session>, user: int, now: int, reason: string, t': seq<Session>)
    requires Inv(t) && t' == InvalidateAll(t, user, now, reason)
    ensures Touched(t, t')
  {
  }

  lemma CleanupTouches(t: seq<Session>, now: int, t': seq<Session>)
    requires Inv(t) && t' == CleanupExpired(t, now)
    ensures Touched(t, t')
  {
  }

  lemma {:induction false} AtMostOneActive(t: seq<Session>, n: nat, user: int)
    requires OneActive(t) && n <= |t|
    ensures ActiveOf(t, n, user) <= 1
    ensures ActiveOf(t, n, user) == 1 ==> exists i :: 0 <= i < n && t[i].user == user && t[i].active
  {
    if n > 0 {
      AtMostOneActive(t, n - 1, user);
    }
  }

  lemma CreateKeeps(t: seq<Session>, sid: string, user: int, tokens: Tokens, ip: string, agent: string, now: int,
                    hash: Hash, t': seq<Session>)
    requires Inv(t) && t' == Create(t, sid, user, tokens, ip, agent, now, hash).0
    ensures Inv(t') && Grows(t, t')
  {
    var t1 := InvalidateAll(t, user, now, "new_session");
    TouchedKeeps(t, t1);
    assert forall i :: 0 <= i < |t1| && t1[i].user == user ==> !t1[i].active;
  }

  lemma CreatedExactly(t: seq<Session>, sid: string, user: int, tokens: Tokens, ip: string, agent: string, now: int,
                       hash: Hash)
    ensures Create(t, sid, user, tokens, ip, agent, now, hash).1 <==> !Known(t, sid)
  {
    var t' := InvalidateAll(t, user, now, "new_session");
    assert forall i :: 0 <= i < |t| ==> t'[i].sid == t[i].sid;
    assert Known(t', sid) <==> Known(t, sid);
  }

  /** After a login the new session is the user's only active one. */
  lemma CreateLeavesOnlyTheNew(t: seq<Session>, sid: string, user: int, tokens: Tokens, ip: string, agent: string,
                               now: int, hash: Hash)
    requires Inv(t) && Create(t, sid, user, tokens, ip, agent, now, hash).1
    ensures var t' := Create(t, sid, user, tokens, ip, agent, now, hash).0;
            && (forall i :: 0 <= i < |t'| && t'[i].user == user && t'[i].active ==> i == |t|)
            && Validate(t', sid, tokens.access, ip, agent, now, hash).1
  {
    var t' := Create(t, sid, user, tokens, ip, agent, now, hash).0;
    assert Usable(t', sid, now) == Some(|t|);
  }

  /**
   * A refresh token works once: presented again after it was replaced it ends
   * the session, so nothing validates under that id any more.
   */
  lemma RefreshTokenWorksOnce(t: seq<Session>, sid: string, presented: string, issued: Tokens, next: Tokens,
                              ip: string, now: int, later: int, hash: Hash, access: string, agent: string, last: int)
    requires Inv(t) && Refresh(t, sid, presented, issued, ip, now, hash).1 && hash(issued.refresh) != hash(presented)
    requires now <= later < now + SESSION_LENGTH
    ensures var t1 := Refresh(t, sid, presented, issued, ip, now, hash).0;
            var (t2, again) := Refresh(t1, sid, presented, next, ip, later, hash);
            && !again && !Validate(t2, sid, access, ip, agent, last, hash).1
            && !Refresh(t2, sid, issued.refresh, next, ip, last, hash).1
  {
    var i := Usable(t, sid, now).value;
    var t1 := Refresh(t, sid, presented, issued, ip, now, hash).0;
    FindIs(t1, |t1|, sid, i);
    var t2 := Refresh(t1, sid, presented, next, ip, later, hash).0;
    assert !t2[i].active;
    FindIs(t2, |t2|, sid, i);
  }

  lemma {:induction false} FindIs(t: seq<Session>, n: nat, sid: string, i: nat)
    requires DistinctIds(t) && i < n <= |t| && t[i].sid == sid
    ensures Find(t, n, sid) == Some(i)
  {
    if i < n - 1 {
      FindIs(t, n - 1, sid, i);
    }
  }

  /** There is a session of that id, and its refresh token does not have that hash. */
  ghost predicate Replaced(t: seq<Session>, sid: string, former: string)
  {
    Known(t, sid) && forall i :: 0 <= i < |t| && t[i].sid == sid ==> t[i].refresh != former
  }

  lemma RefreshReplaces(t: seq<Session>, sid: string, refresh: string, issued: Tokens, ip: string, now: int, hash: Hash)
    requires Inv(t) && Refresh(t, sid, refresh, issued, ip, now, hash).1 && hash(issued.refresh) != hash(refresh)
    ensures Replaced(Refresh(t, sid, refresh, issued, ip, now, hash).0, sid, hash(refresh))
  {
    var t', i := Refresh(t, sid, refresh, issued, ip, now, hash).0, Usable(t, sid, now).value;
    assert t'[i].sid == sid;
  }

  lemma ReplacedByRefresh(t: seq<Session>, other: string, refresh: string, issued: Tokens, ip: string, now: int,
                          hash: Hash, sid: string, former: string)
    requires Replaced(t, sid, former) && (other == sid ==> hash(issued.refresh) != former)
    ensures Replaced(Refresh(t, other, refresh, issued, ip, now, hash).0, sid, former)
  {
    var t' := Refresh(t, other, refresh, issued, ip, now, hash).0;
    var i :| 0 <= i < |t| && t[i].sid == sid;
    assert t'[i].sid == sid;
  }

  lemma ReplacedByCreate(t: seq<Session>, other: string, user: int, tokens: Tokens, ip: string, agent: string, now: int,
                         hash: Hash, sid: string, former: string)
    requires Replaced(t, sid, former)
    ensures Replaced(Create(t, other, user, tokens, ip, agent, now, hash).0, sid, former)
  {
    CreatedExactly(t, other, user, tokens, ip, agent, now, hash);
    var t' := Create(t, other, user, tokens, ip, agent, now, hash).0;
    var i :| 0 <= i < |t| && t[i].sid == sid;
    assert t'[i].sid == sid;
  }

  /** Whatever leaves ids and refresh tokens as they are. */
  lemma ReplacedByOthers(t: seq<Session>, t': seq<Session>, sid: string, former: string)
    requires Replaced(t, sid, former) && |t'| == |t|
    requires forall i :: 0 <= i < |t| ==> t'[i].sid == t[i].sid && t'[i].refresh == t[i].refresh
    ensures Replaced(t', sid, former)
  {
    var i :| 0 <= i < |t| && t[i].sid == sid;
    assert t'[i].sid == sid;
  }

  lemma ReplacedIsRefused(t: seq<Session>, sid: string, refresh: string, issued: Tokens, ip: string, now: int,
                          hash: Hash)
    requires Replaced(t, sid, hash(refresh))
    ensures !Refresh(t, sid, refresh, issued, ip, now, hash).1
  {
  }

  // ------------------------------------------------------------ each call, exactly

  /** The session of that id is there, active and not expired. */
  predicate Live(r: Session, sid: string, now: int) { r.sid == sid && r.active && now < r.expires }

  /** The row is as it was, but for being revoked now with that reason. */
  predicate IsRevoked(r: Session, r': Session, now: int, reason: string)
  {
    !r'.active && r'.revokedAt == Some(now) && r'.reason == reason &&
    r'.(active := r.active, revokedAt := r.revokedAt, reason := r.reason) == r
  }

  /**
   * An access token is valid exactly if it is that of the live session of that id. Another one ends the
   * session; the right one moves it to where it was used from. No other row changes.
   */
  lemma ValidatesExactly(t: seq<Session>, sid: string, token: string, ip: string, agent: string, now: int, hash: Hash,
                         i: nat)
    requires Inv(t) && i < |t|
    ensures var (t', ok) := Validate(t, sid, token, ip, agent, now, hash);
            && |t'| == |t|
            && (!Live(t[i], sid, now) ==> t'[i] == t[i])
            && (Live(t[i], sid, now) ==>
                  (ok <==> t[i].token == hash(token)) &&
                  if ok then
                    && t'[i].lastActivity == now
                    && t'[i].ip == (if ip == "" || t[i].ip == "" then t[i].ip else ip)
                    && t'[i].agent == (if agent == "" || t[i].agent == "" then t[i].agent else agent)
                    && t'[i].(lastActivity := t[i].lastActivity, ip := t[i].ip, agent := t[i].agent) == t[i]
                  else IsRevoked(t[i], t'[i], now, "invalid_token"))
    ensures Validate(t, sid, token, ip, agent, now, hash).1 ==> exists k :: 0 <= k < |t| && Live(t[k], sid, now)
  {
    if t[i].sid == sid {
      FindIs(t, |t|, sid, i);
    }
  }

  /**
   * A refresh token is accepted exactly if it is that of the live session of that id, which then has the tokens
   * issued and half an hour more. Another one ends the session. No other row changes.
   */
  lemma RefreshesExactly(t: seq<Session>, sid: string, refresh: string, issued: Tokens, ip: string, now: int,
                         hash: Hash, i: nat)
    requires Inv(t) && i < |t|
    ensures var (t', ok) := Refresh(t, sid, refresh, issued, ip, now, hash);
            && |t'| == |t|
            && (!Live(t[i], sid, now) ==> t'[i] == t[i])
            && (Live(t[i], sid, now) ==>
                  (ok <==> t[i].refresh == hash(refresh)) &&
                  if ok then
                    && t'[i].token == hash(issued.access) && t'[i].refresh == hash(issued.refresh)
                    && t'[i].expires == now + 30 * MINUTE && t'[i].lastActivity == now
                    && t'[i].ip == (if ip == "" then t[i].ip else ip)
                    && t'[i].(token := t[i].token, refresh := t[i].refresh, expires := t[i].expires,
                              lastActivity := t[i].lastActivity, ip := t[i].ip) == t[i]
                  else IsRevoked(t[i], t'[i], now, "invalid_refresh_token"))
    ensures Refresh(t, sid, refresh, issued, ip, now, hash).1 ==> exists k :: 0 <= k < |t| && Live(t[k], sid, now)
  {
    if t[i].sid == sid {
      FindIs(t, |t|, sid, i);
    }
  }

  /** So the tokens a refresh issues are the ones that work, for half an hour. */
  lemma IssuedTokensWork(t: seq<Session>, sid: string, refresh: string, issued: Tokens, ip: string, now: int,
                         hash: Hash, access: string, next: Tokens, agent: string, later: int)
    requires Inv(t) && Refresh(t, sid, refresh, issued, ip, now, hash).1
    ensures var t' := Refresh(t, sid, refresh, issued, ip, now, hash).0;
            && (Validate(t', sid, access, ip, agent, later, hash).1 <==>
                  hash(access) == hash(issued.access) && later < now + 30 * MINUTE)
            && (Refresh(t', sid, access, next, ip, later, hash).1 <==>
                  hash(access) == hash(issued.refresh) && later < now + 30 * MINUTE)
  {
    var t', i := Refresh(t, sid, refresh, issued, ip, now, hash).0, Usable(t, sid, now).value;
    RefreshTouches(t, sid, refresh, issued, ip, now, hash, t');
    TouchedKeeps(t, t');
    FindIs(t', |t'|, sid, i);
  }

  /** Logging out ends the active session of that id, expired or not, and no other; it says whether there was one. */
  lemma EndsExactly(t: seq<Session>, sid: string, now: int, reason: string, i: nat)
    requires Inv(t) && i < |t|
    ensures var (t', ok) := Invalidate(t, sid, now, reason);
            && |t'| == |t|
            && if t[i].sid == sid && t[i].active then ok && IsRevoked(t[i], t'[i], now, reason) else t'[i] == t[i]
    ensures Invalidate(t, sid, now, reason).1 ==> exists k :: 0 <= k < |t| && t[k].sid == sid && t[k].active
  {
    if t[i].sid == sid {
      FindIs(t, |t|, sid, i);
    }
  }

  /** Logging a user out everywhere ends exactly their active sessions; cleaning up, exactly those that have run out. */
  lemma SweepsExactly(t: seq<Session>, user: int, now: int, reason: string, i: nat)
    requires i < |t|
    ensures var t' := InvalidateAll(t, user, now, reason);
            if t[i].user == user && t[i].active then IsRevoked(t[i], t'[i], now, reason) else t'[i] == t[i]
    ensures var t' := CleanupExpired(t, now);
            if t[i].active && now >= t[i].expires then IsRevoked(t[i], t'[i], now, "expired") else t'[i] == t[i]
  {
  }

  /** How many of the first n sessions are active before and not after. */
  function Ended(t: seq<Session>, t': seq<Session>, n: nat): nat
    requires n <= |t| && n <= |t'|
  {
    if n == 0 then 0 else Ended(t, t', n - 1) + (if t[n - 1].active && !t'[n - 1].active then 1 else 0)
  }

  /** What these two report is how many sessions they end. */
  lemma {:induction false} SweepsAreCounted(t: seq<Session>, n: nat, user: int, now: int, reason: string)
    requires n <= |t|
    ensures ActiveOf(t, n, user) == Ended(t, InvalidateAll(t, user, now, reason), n)
    ensures ExpiredCount(t, n, now) == Ended(t, CleanupExpired(t, now), n)
  {
    if n > 0 {
      SweepsAreCounted(t, n - 1, user, now, reason);
    }
  }

  /**
   * A login ends the user's other sessions and no one else's. The new one has the tokens it was made
   * with, which are those that work, for half an hour.
   */
  lemma CreatesExactly(t: seq<Session>, sid: string, user: int, tokens: Tokens, ip: string, agent: string, now: int,
                       hash: Hash, access: string, next: Tokens, later: int)
    requires Inv(t)
    ensures var (t', ok) := Create(t, sid, user, tokens, ip, agent, now, hash);
            && |t'| == |t| + (if ok then 1 else 0)
            && (forall i :: 0 <= i < |t| ==>
                  if t[i].user == user && t[i].active then IsRevoked(t[i], t'[i], now, "new_session")
                  else t'[i] == t[i])
            && (ok ==>
                  && t'[|t|].user == user && t'[|t|].created == now && t'[|t|].lastActivity == now
                  && t'[|t|].agent == agent && t'[|t|].ip == (if ip == "" then "unknown" else ip)
                  && (Validate(t', sid, access, ip, agent, later, hash).1 <==>
                        hash(access) == hash(tokens.access) && later < now + 30 * MINUTE)
                  && (Refresh(t', sid, access, next, ip, later, hash).1 <==>
                        hash(access) == hash(tokens.refresh) && later < now + 30 * MINUTE))
  {
    var (t', ok) := Create(t, sid, user, tokens, ip, agent, now, hash);
    CreateKeeps(t, sid, user, tokens, ip, agent, now, hash, t');
    if ok {
      FindIs(t', |t'|, sid, |t|);
    }
  }

  // -------------------------------------------------------------------- service

  /** The table, changed in place by the service's calls. */
  class SessionTable {
    var rows: seq<Session>

    constructor ()
      ensures rows == []
    {
      rows := [];
    }

    method InvalidateAllUserSessions(user: int, reason: string, now: int) returns (count: nat)
      modifies this
      ensures rows == InvalidateAll(old(rows), user, now, reason)
      ensures count == ActiveOf(old(rows), |old(rows)|, user)
    {
      ghost var before := rows;
      count := 0;
      for i := 0 to |rows|
        invariant |rows| == |before|
        invariant forall j :: 0 <= j < |rows| ==>
          rows[j] == if j < i then RevokedIf(before[j], before[j].user == user, now, reason) else before[j]
        invariant count == ActiveOf(before, i, user)
      {
        if rows[i].user == user && rows[i].active {
          rows := rows[i := rows[i].(active := false, revokedAt := Some(now), reason := reason)];
          count := count + 1;
        }
      }
    }

    method CleanupExpiredSessions(now: int) returns (count: nat)
      modifies this
      ensures rows == CleanupExpired(old(rows), now)
      ensures count == ExpiredCount(old(rows), |old(rows)|, now)
    {
      ghost var before := rows;
      count := 0;
      for i := 0 to |rows|
        invariant |rows| == |before|
        invariant forall j :: 0 <= j < |rows| ==>
          rows[j] == if j < i then RevokedIf(before[j], before[j].expires <= now, now, "expired") else before[j]
        invariant count == ExpiredCount(before, i, now)
      {
        if rows[i].active && rows[i].expires <= now {
          rows := rows[i := rows[i].(active := false, revokedAt := Some(now), reason := "expired")];
          count := count + 1;
        }
      }
    }

    method CreateSession(sid: string, user: int, tokens: Tokens, ip: string, agent: string, now: int, hash: Hash)
        returns (created: bool)
      modifies this
      ensures (rows, created) == Create(old(rows), sid, user, tokens, ip, agent, now, hash)
    {
      ghost var before := rows;
      var _ := InvalidateAllUserSessions(user, "new_session", now);
      assert Known(rows, sid) <==> Known(before, sid) by {
        assert forall i :: 0 <= i < |rows| ==> rows[i].sid == before[i].sid;
      }
      if Known(rows, sid) {
        return false;
      }
      var address := if ip != "" then ip else "unknown";
      rows := rows + [Session(sid, user, hash(tokens.access), hash(tokens.refresh), address, agent, true, now,
                              now + SESSION_LENGTH, now, None, "")];
      created := true;
    }

    method ValidateSession(sid: string, token: string, ip: string, agent: string, now: int, hash: Hash)
        returns (valid: bool)
      modifies this
      ensures (rows, valid) == Validate(old(rows), sid, token, ip, agent, now, hash)
    {
      var found := Usable(rows, sid, now);
      if found.None? {
        return false;
      }
      var session := rows[found.value];
      if session.token != hash(token) {
        rows := rows[found.value := session.(active := false, revokedAt := Some(now), reason := "invalid_token")];
        return false;
      }
      if ip != "" && session.ip != "" && session.ip != ip {
        session := session.(ip := ip);
      }
      if agent != "" && session.agent != "" && session.agent != agent {
        session := session.(agent := agent);
      }
      rows := rows[found.value := session.(lastActivity := now)];
      valid := true;
    }

    method RefreshSession(sid: string, refresh: string, issued: Tokens, ip: string, now: int, hash: Hash)
        returns (refreshed: bool)
      modifies this
      ensures (rows, refreshed) == Refresh(old(rows), sid, refresh, issued, ip, now, hash)
    {
      var found := Usable(rows, sid, now);
      if found.None? {
        return false;
      }
      var session := rows[found.value];
      if session.refresh != hash(refresh) {
        rows := rows[found.value := Revoked(session, now, "invalid_refresh_token")];
        return false;
      }
      session := session.(token := hash(issued.access), refresh := hash(issued.refresh), lastActivity := now);
      if ip != "" {
        session := session.(ip := ip);
      }
      rows := rows[found.value := session.(expires := now + SESSION_LENGTH)];
      refreshed := true;
    }

    method InvalidateSession(sid: string, reason: string, now: int) returns (done: bool)
      modifies this
      ensures (rows, done) == Invalidate(old(rows), sid, now, reason)
    {
      var found := ActiveWith(rows, sid);
      if found.None? {
        return false;
      }
      rows := rows[found.value := Revoked(rows[found.value], now, reason)];
      done := true;
    }
  }
}
