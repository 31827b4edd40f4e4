/**
 * One-time codes (backend/uploads/8999c51fa55a44b4a0d5c462f8b12354_otp_service.py).
 *
 * The table is a sequence of rows in the order of their ids. Times are in
 * microseconds; each call of the service is one step at one reading of the clock.
 * `Checker` stands for the password hash: it says whether a code is the one a
 * stored hash was made from.
 */
module Otps {
  import opened Common

  const SECOND: int := 1_000_000
  const MINUTE: int := 60 * SECOND
  const EXPIRE_AFTER: int := 5 * MINUTE
  const LOCKOUT_WINDOW: int := 30 * MINUTE
  const MAX_TOTAL_FAILURES: int := 10
  const DEFAULT_MAX_ATTEMPTS: nat := 3
  const HOUR: int := 60 * MINUTE
  const MAX_REQUESTS_PER_HOUR: nat := 5
  const RESEND_COOLDOWN: int := 60 * SECOND

  type Checker = (string, string) -> bool

  datatype Otp = Otp(user: int, purpose: string, hash: string, attempts: nat, maxAttempts: nat,
                     created: int, expires: int, used: bool, usedAt: Option<int>)

  datatype Outcome = Verified(id: nat) | LockedOut | NoActiveCode | WrongCode

  // ---------------------------------------------------------------- operations

  predicate Of(r: Otp, user: int, purpose: string) { r.user == user && r.purpose == purpose }

  function Consumed(r: Otp, now: int): Otp { r.(used := true, usedAt := Some(now)) }

  function Invalidated(r: Otp, user: int, purpose: string, now: int): Otp
  {
    if Of(r, user, purpose) && !r.used then Consumed(r, now) else r
  }

  /** `invalidate_user_otps`. */
  function Invalidate(t: seq<Otp>, user: int, purpose: string, now: int): (t': seq<Otp>)
    ensures |t'| == |t|
  {
    seq(|t|, i requires 0 <= i < |t| => Invalidated(t[i], user, purpose, now))
  }

  function NewOtp(user: int, purpose: string, hash: string, now: int): Otp
  {
    Otp(user, purpose, hash, 0, DEFAULT_MAX_ATTEMPTS, now, now + EXPIRE_AFTER, false, None)
  }

  /** `create_otp`: the older codes are used up, then one is added. */
  function Create(t: seq<Otp>, user: int, purpose: string, hash: string, now: int): seq<Otp>
  {
    Invalidate(t, user, purpose, now) + [NewOtp(user, purpose, hash, now)]
  }

  /** Attempts summed over the first n rows of the user and purpose created after the cutoff. */
  function Failures(t: seq<Otp>, n: nat, user: int, purpose: string, cutoff: int): nat
    requires n <= |t|
  {
    if n == 0 then 0
    else
      Failures(t, n - 1, user, purpose, cutoff) +
      (if Of(t[n - 1], user, purpose) && t[n - 1].created > cutoff then t[n - 1].attempts else 0)
  }

  /** `check_otp_lockout`. */
  predicate Locked(t: seq<Otp>, user: int, purpose: string, now: int)
  {
    Failures(t, |t|, user, purpose, now - LOCKOUT_WINDOW) >= MAX_TOTAL_FAILURES
  }

  predicate Eligible(r: Otp, user: int, purpose: string, now: int)
  {
    Of(r, user, purpose) && !r.used && r.expires > now
  }

  /** Ids among the first n of the rows a code is compared with, newest first. */
  function Candidates(t: seq<Otp>, n: nat, user: int, purpose: string, now: int): seq<nat>
    requires n <= |t|
  {
    if n == 0 then []
    else if Eligible(t[n - 1], user, purpose, now) then [n - 1] + Candidates(t, n - 1, user, purpose, now)
    else Candidates(t, n - 1, user, purpose, now)
  }

  /** Comparing the code with the row i: the row afterwards, and whether it was the one. */
  function Try(r: Otp, code: string, now: int, check: Checker): (Otp, bool)
  {
    if r.attempts >= r.maxAttempts then (Consumed(r, now), false)
    else if check(code, r.hash) then (Consumed(r, now).(attempts := r.attempts + 1), true)
    else if r.attempts + 1 >= r.maxAttempts then (Consumed(r, now).(attempts := r.attempts + 1), false)
    else (r.(attempts := r.attempts + 1), false)
  }

  ghost predicate Ids(ids: seq<nat>, n: nat) { forall k :: 0 <= k < |ids| ==> ids[k] < n }

  /** The loop over the candidates, from the k-th on. */
  function TryFrom(t: seq<Otp>, ids: seq<nat>, k: nat, code: string, now: int, check: Checker): (seq<Otp>, Option<nat>)
    requires k <= |ids| && Ids(ids, |t|)
    decreases |ids| - k
  {
    if k == |ids| then (t, None)
    else
      var (row, right) := Try(t[ids[k]], code, now, check);
      var t' := t[ids[k] := row];
      if right then (t', Some(ids[k])) else TryFrom(t', ids, k + 1, code, now, check)
  }

  lemma {:induction false} CandidatesAreEligible(t: seq<Otp>, n: nat, user: int, purpose: string, now: int)
    requires n <= |t|
    ensures var ids := Candidates(t, n, user, purpose, now);
            Ids(ids, n) && forall k :: 0 <= k < |ids| ==> Eligible(t[ids[k]], user, purpose, now)
  {
    if n > 0 {
      CandidatesAreEligible(t, n - 1, user, purpose, now);
    }
  }

  /** At most the five newest. */
  function Newest(t: seq<Otp>, user: int, purpose: string, now: int): (ids: seq<nat>)
    ensures Ids(ids, |t|) && |ids| <= 5
    ensures forall k :: 0 <= k < |ids| ==> Eligible(t[ids[k]], user, purpose, now)
  {
    CandidatesAreEligible(t, |t|, user, purpose, now);
    var all := Candidates(t, |t|, user, purpose, now);
    if |all| <= 5 then all else all[..5]
  }

  /** `verify_otp`. */
  function Verify(t: seq<Otp>, user: int, purpose: string, code: string, now: int, check: Checker): (seq<Otp>, Outcome)
  {
    if Locked(t, user, purpose, now) then (t, LockedOut)
    else
      var ids := Newest(t, user, purpose, now);
      if ids == [] then (t, NoActiveCode)
      else
        var (t', found) := TryFrom(t, ids, 0, code, now, check);
        (t', if found.Some? then Verified(found.value) else WrongCode)
  }

  predicate Recent(r: Otp, user: int, purpose: string, now: int)
  {
    Of(r, user, purpose) && r.created > now - HOUR
  }

  /** How many of the first n rows were created for the user and purpose in the last hour. */
  function RecentCount(t: seq<Otp>, n: nat, user: int, purpose: string, now: int): nat
    requires n <= |t|
  {
    if n == 0 then 0
    else RecentCount(t, n - 1, user, purpose, now) + if Recent(t[n - 1], user, purpose, now) then 1 else 0
  }

  /** When the latest of them was created. */
  function LatestOf(t: seq<Otp>, n: nat, user: int, purpose: string, now: int): Option<int>
    requires n <= |t|
  {
    if n == 0 then None
    else
      var before := LatestOf(t, n - 1, user, purpose, now);
      if Recent(t[n - 1], user, purpose, now) then MaxOption(before, Some(t[n - 1].created)) else before
  }

  datatype Rate = Allowed | TooMany | Wait(seconds: int)

  /** `check_rate_limit`. */
  function RateOf(t: seq<Otp>, user: int, purpose: string, now: int): Rate
  {
    var latest := LatestOf(t, |t|, user, purpose, now);
    if RecentCount(t, |t|, user, purpose, now) >= MAX_REQUESTS_PER_HOUR then TooMany
    else if latest.Some? && now < latest.value + RESEND_COOLDOWN then
      Wait((latest.value + RESEND_COOLDOWN - now) / SECOND)
    else Allowed
  }

  // ----------------------------------------------------------------- invariants

  ghost predicate RowOk(r: Otp, clock: int)
  {
    && r.created <= clock && r.expires <= r.created + EXPIRE_AFTER
    && r.attempts <= r.maxAttempts && (!r.used ==> r.attempts < r.maxAttempts)
    && (r.used <==> r.usedAt.Some?)
  }

  /** Only the newest row of a user and purpose can be unused; so at most one is. */
  ghost predicate OneLive(t: seq<Otp>)
  {
    forall i, j :: 0 <= i < j < |t| && Of(t[j], t[i].user, t[i].purpose) ==> t[i].used
  }

  /** However the attempts are summed, in a lockout window that ends at or after the clock. */
  ghost predicate FewFailures(t: seq<Otp>, clock: int)
  {
    forall user, purpose, cutoff :: cutoff >= clock - LOCKOUT_WINDOW ==>
      Failures(t, |t|, user, purpose, cutoff) <= MAX_TOTAL_FAILURES
  }

  ghost predicate RowsOk(t: seq<Otp>, clock: int)
  {
    forall i :: 0 <= i < |t| ==> RowOk(t[i], clock)
  }

  ghost predicate Ascending(t: seq<Otp>)
  {
    forall i, j :: 0 <= i < j < |t| ==> t[i].created <= t[j].created
  }

  ghost predicate Inv(t: seq<Otp>, clock: int)
  {
    RowsOk(t, clock) && Ascending(t) && OneLive(t) && FewFailures(t, clock)
  }

  /** What no operation ever undoes. */
  ghost predicate Grows(t: seq<Otp>, t': seq<Otp>)
  {
    |t| <= |t'| && forall i :: 0 <= i < |t| ==>
      && Of(t'[i], t[i].user, t[i].purpose) && t'[i].created == t[i].created && t'[i].hash == t[i].hash
      && t'[i].attempts >= t[i].attempts && (t[i].used ==> t'[i] == t[i])
  }

  /** The same rows, except that the row `charged` (if any) may have one more attempt. */
  ghost predicate Charged(t: seq<Otp>, t': seq<Otp>, charged: int)
  {
    |t| == |t'| && forall i :: 0 <= i < |t| ==>
      && Of(t'[i], t[i].user, t[i].purpose) && t'[i].created == t[i].created
      && t'[i].attempts == t[i].attempts + (if i == charged then 1 else 0)
  }

  lemma {:induction false} FailuresCharged(t: seq<Otp>, t': seq<Otp>, charged: int, n: nat, user: int,
                                           purpose: string, cutoff: int)
    requires Charged(t, t', charged) && n <= |t|
    ensures Failures(t', n, user, purpose, cutoff) ==
            Failures(t, n, user, purpose, cutoff) +
            (if 0 <= charged < n && Of(t[charged], user, purpose) && t[charged].created > cutoff then 1 else 0)
  {
    if n > 0 {
      FailuresCharged(t, t', charged, n - 1, user, purpose, cutoff);
    }
  }

  lemma {:induction false} FailuresOfPrefix(t: seq<Otp>, t': seq<Otp>, n: nat, user: int, purpose: string, cutoff: int)
    requires n <= |t| && t <= t'
    ensures Failures(t', n, user, purpose, cutoff) == Failures(t, n, user, purpose, cutoff)
  {
    if n > 0 {
      FailuresOfPrefix(t, t', n - 1, user, purpose, cutoff);
    }
  }

  /** A later window counts no more. */
  lemma {:induction false} FailuresFade(t: seq<Otp>, n: nat, user: int, purpose: string, cutoff: int, later: int)
    requires n <= |t| && cutoff <= later
    ensures Failures(t, n, user, purpose, later) <= Failures(t, n, user, purpose, cutoff)
  {
    if n > 0 {
      FailuresFade(t, n - 1, user, purpose, cutoff, later);
    }
  }

  lemma UnchargedKeeps(t: seq<Otp>, t': seq<Otp>, clock: int)
    requires FewFailures(t, clock) && Charged(t, t', -1)
    ensures FewFailures(t', clock)
  {
    forall user, purpose, cutoff | cutoff >= clock - LOCKOUT_WINDOW
      ensures Failures(t', |t'|, user, purpose, cutoff) <= MAX_TOTAL_FAILURES
    {
      FailuresCharged(t, t', -1, |t|, user, purpose, cutoff);
    }
  }

  lemma ChargeKeeps(t: seq<Otp>, t': seq<Otp>, i: nat, user: int, purpose: string, now: int, clock: int)
    requires FewFailures(t, clock) && clock <= now && i < |t| && Charged(t, t', i)
    requires Of(t[i], user, purpose) && !Locked(t, user, purpose, now)
    ensures FewFailures(t', now)
  {
    forall u, p, cutoff | cutoff >= now - LOCKOUT_WINDOW
      ensures Failures(t', |t'|, u, p, cutoff) <= MAX_TOTAL_FAILURES
    {
      FailuresCharged(t, t', i, |t|, u, p, cutoff);
      FailuresFade(t, |t|, u, p, now - LOCKOUT_WINDOW, cutoff);
      assert Failures(t, |t|, u, p, cutoff) <= MAX_TOTAL_FAILURES;
    }
  }

  lemma InvalidateKeeps(t: seq<Otp>, user: int, purpose: string, now: int, clock: int, t': seq<Otp>)
    requires Inv(t, clock) && clock <= now && t' == Invalidate(t, user, purpose, now)
    ensures Inv(t', now) && Grows(t, t')
    ensures forall i :: 0 <= i < |t'| && Of(t'[i], user, purpose) ==> t'[i].used
  {
    UnchargedKeeps(t, t', clock);
  }

  lemma CreateKeeps(t: seq<Otp>, user: int, purpose: string, hash: string, now: int, clock: int, t': seq<Otp>)
    requires Inv(t, clock) && clock <= now && t' == Create(t, user, purpose, hash, now)
    ensures Inv(t', now) && Grows(t, t')
  {
    var t1 := Invalidate(t, user, purpose, now);
    InvalidateKeeps(t, user, purpose, now, clock, t1);
    forall u, p, cutoff | cutoff >= now - LOCKOUT_WINDOW
      ensures Failures(t', |t'|, u, p, cutoff) <= MAX_TOTAL_FAILURES
    {
      FailuresOfPrefix(t1, t', |t1|, u, p, cutoff);
      assert Failures(t1, |t1|, u, p, cutoff) <= MAX_TOTAL_FAILURES;
    }
  }

  lemma {:induction false} OneCandidate(t: seq<Otp>, n: nat, user: int, purpose: string, now: int, i: nat)
    requires n <= |t| && OneLive(t) && i < |t| && Eligible(t[i], user, purpose, now)
    ensures Candidates(t, n, user, purpose, now) == if i < n then [i] else []
  {
    if n > 0 {
      OneCandidate(t, n - 1, user, purpose, now, i);
    }
  }

  lemma {:induction false} NoCandidate(t: seq<Otp>, n: nat, user: int, purpose: string, now: int)
    requires n <= |t| && forall i :: 0 <= i < n ==> !Eligible(t[i], user, purpose, now)
    ensures Candidates(t, n, user, purpose, now) == []
  {
    if n > 0 {
      NoCandidate(t, n - 1, user, purpose, now);
    }
  }

  /** The one code a guess is compared with, and what becomes of it. */
  lemma VerifyTouchesOne(t: seq<Otp>, user: int, purpose: string, code: string, now: int, check: Checker, i: nat)
    requires OneLive(t) && i < |t| && Eligible(t[i], user, purpose, now) && !Locked(t, user, purpose, now)
    ensures Verify(t, user, purpose, code, now, check) ==
            (t[i := Try(t[i], code, now, check).0],
             if Try(t[i], code, now, check).1 then Verified(i) else WrongCode)
  {
    OneCandidate(t, |t|, user, purpose, now, i);
    var ids := Newest(t, user, purpose, now);
    assert ids == [i];
    var t' := t[i := Try(t[i], code, now, check).0];
    assert TryFrom(t', ids, 1, code, now, check) == (t', None);
  }

  lemma VerifyKeeps(t: seq<Otp>, user: int, purpose: string, code: string, now: int, clock: int, check: Checker,
                    t': seq<Otp>)
    requires Inv(t, clock) && clock <= now && t' == Verify(t, user, purpose, code, now, check).0
    ensures Inv(t', now) && Grows(t, t')
  {
    if Locked(t, user, purpose, now) || Newest(t, user, purpose, now) == [] {
    } else {
      var i := Newest(t, user, purpose, now)[0];
      assert Eligible(t[i], user, purpose, now);
      VerifyTouchesOne(t, user, purpose, code, now, check, i);
      assert RowOk(t[i], clock);
      ChargeKeeps(t, t', i, user, purpose, now, clock);
    }
  }

  /** A code is accepted exactly when it is the live one's and the user is not locked out. */
  lemma VerifiedExactly(t: seq<Otp>, user: int, purpose: string, code: string, now: int, clock: int, check: Checker,
                        i: nat)
    requires Inv(t, clock) && clock <= now
    ensures Verify(t, user, purpose, code, now, check).1 == Verified(i) <==>
            i < |t| && Eligible(t[i], user, purpose, now) && check(code, t[i].hash) && !Locked(t, user, purpose, now)
  {
    if i < |t| && Eligible(t[i], user, purpose, now) {
      if !Locked(t, user, purpose, now) {
        VerifyTouchesOne(t, user, purpose, code, now, check, i);
        assert RowOk(t[i], clock);
      }
    } else if !Locked(t, user, purpose, now) && Newest(t, user, purpose, now) != [] {
      var j := Newest(t, user, purpose, now)[0];
      VerifyTouchesOne(t, user, purpose, code, now, check, j);
    }
  }

  /** The accepted row was unused and is used up; nobody can have it accepted again. */
  lemma VerifiedConsumes(t: seq<Otp>, user: int, purpose: string, code: string, now: int, clock: int, check: Checker)
    requires Inv(t, clock) && clock <= now && Verify(t, user, purpose, code, now, check).1.Verified?
    ensures var (t', outcome) := Verify(t, user, purpose, code, now, check);
            var i := outcome.id;
            i < |t| == |t'| && !t[i].used && Of(t'[i], user, purpose) && t'[i].used && t'[i].usedAt == Some(now)
  {
    var i := Verify(t, user, purpose, code, now, check).1.id;
    VerifiedExactly(t, user, purpose, code, now, clock, check, i);
    VerifyTouchesOne(t, user, purpose, code, now, check, i);
  }

  /** A guess at the live code costs an attempt; the right one, or the last, uses it up. No other row changes. */
  lemma GuessesAreCharged(t: seq<Otp>, user: int, purpose: string, code: string, now: int, clock: int, check: Checker,
                          i: nat, k: nat)
    requires Inv(t, clock) && clock <= now && i < |t| && k < |t|
    requires Eligible(t[i], user, purpose, now) && !Locked(t, user, purpose, now)
    ensures var t' := Verify(t, user, purpose, code, now, check).0;
            && |t'| == |t| && (k != i ==> t'[k] == t[k])
            && t'[i].attempts == t[i].attempts + 1
            && (t'[i].used <==> check(code, t[i].hash) || t[i].attempts + 1 == t[i].maxAttempts)
            && t'[i].(attempts := t[i].attempts, used := t[i].used, usedAt := t[i].usedAt) == t[i]
            && t'[i].usedAt == (if t'[i].used then Some(now) else None)
  {
    VerifyTouchesOne(t, user, purpose, code, now, check, i);
    assert RowOk(t[i], clock);
  }

  /** A live code without attempts left, which no run leaves behind, would be used up and not compared. */
  lemma NoAttemptsLeft(t: seq<Otp>, user: int, purpose: string, code: string, now: int, check: Checker, i: nat)
    requires OneLive(t) && i < |t| && Eligible(t[i], user, purpose, now) && !Locked(t, user, purpose, now)
    requires t[i].attempts >= t[i].maxAttempts
    ensures Verify(t, user, purpose, code, now, check) ==
            (t[i := t[i].(used := true, usedAt := Some(now))], WrongCode)
  {
    VerifyTouchesOne(t, user, purpose, code, now, check, i);
  }

  /** Without a live code, or when locked out, a guess changes nothing; the reply says which. */
  lemma GuessesInVain(t: seq<Otp>, user: int, purpose: string, code: string, now: int, clock: int, check: Checker)
    requires Inv(t, clock) && clock <= now
    ensures var (t', outcome) := Verify(t, user, purpose, code, now, check);
            var live := exists i :: 0 <= i < |t| && Eligible(t[i], user, purpose, now);
            && (outcome.LockedOut? <==> Locked(t, user, purpose, now))
            && (outcome.NoActiveCode? <==> !Locked(t, user, purpose, now) && !live)
            && (outcome.LockedOut? || outcome.NoActiveCode? ==> t' == t)
  {
    if forall i :: 0 <= i < |t| ==> !Eligible(t[i], user, purpose, now) {
      NoCandidate(t, |t|, user, purpose, now);
    } else {
      var i :| 0 <= i < |t| && Eligible(t[i], user, purpose, now);
      OneCandidate(t, |t|, user, purpose, now, i);
    }
  }

  /**
   * Creating a code uses up exactly the older unused ones of the user and purpose. The new one has three attempts
   * and is the one accepted, for five minutes, as long as the user is not locked out.
   */
  lemma CreatesExactly(t: seq<Otp>, user: int, purpose: string, hash: string, now: int, clock: int, code: string,
                       later: int, check: Checker)
    requires Inv(t, clock) && clock <= now <= later
    ensures var t' := Create(t, user, purpose, hash, now);
            && |t'| == |t| + 1
            && (forall i :: 0 <= i < |t| ==>
                  if t[i].user == user && t[i].purpose == purpose && !t[i].used then
                    t'[i] == t[i].(used := true, usedAt := Some(now))
                  else t'[i] == t[i])
            && t'[|t|].attempts == 0 && t'[|t|].maxAttempts == 3
            && (Verify(t', user, purpose, code, later, check).1 == Verified(|t|) <==>
                  check(code, hash) && later < now + 5 * MINUTE && !Locked(t', user, purpose, later))
  {
    var t' := Create(t, user, purpose, hash, now);
    CreateKeeps(t, user, purpose, hash, now, clock, t');
    VerifiedExactly(t', user, purpose, code, later, now, check, |t|);
  }

  lemma {:induction false} LatestIs(t: seq<Otp>, n: nat, user: int, purpose: string, now: int)
    requires n <= |t|
    ensures var latest := LatestOf(t, n, user, purpose, now);
            && (latest.None? <==> forall i :: 0 <= i < n ==> !Recent(t[i], user, purpose, now))
            && (latest.Some? ==>
                  (exists i :: 0 <= i < n && Recent(t[i], user, purpose, now) && t[i].created == latest.value) &&
                  (forall i :: 0 <= i < n && Recent(t[i], user, purpose, now) ==> t[i].created <= latest.value))
  {
    if n > 0 {
      LatestIs(t, n - 1, user, purpose, now);
    }
  }

  /**
   * Five codes created in the last hour are too many; with fewer, another one is allowed a minute after
   * the latest of them, and until then the wait is told in whole seconds, rounded down.
   */
  lemma RateIsExact(t: seq<Otp>, user: int, purpose: string, now: int)
    ensures var rate := RateOf(t, user, purpose, now);
            var recent := RecentRows(t, |t|, user, purpose, now);
            && (rate.TooMany? <==> |recent| >= 5)
            && (rate.Allowed? <==> |recent| < 5 && forall i :: i in recent ==> t[i].created + MINUTE <= now)
            && (rate.Wait? ==>
                  exists i :: i in recent && (forall j :: j in recent ==> t[j].created <= t[i].created) &&
                              0 <= t[i].created + MINUTE - now - rate.seconds * SECOND < SECOND)
  {
    LatestIs(t, |t|, user, purpose, now);
    RecentCountIs(t, |t|, user, purpose, now);
    var latest := LatestOf(t, |t|, user, purpose, now);
    if latest.Some? {
      var i :| 0 <= i < |t| && Recent(t[i], user, purpose, now) && t[i].created == latest.value;
      assert i in RecentRows(t, |t|, user, purpose, now);
    }
  }

  /** The first n rows of the user and purpose that were created in the last hour. */
  ghost function RecentRows(t: seq<Otp>, n: nat, user: int, purpose: string, now: int): set<nat>
    requires n <= |t|
  {
    set i | 0 <= i < n && t[i].user == user && t[i].purpose == purpose && now - t[i].created < 60 * MINUTE
  }

  lemma {:induction false} RecentCountIs(t: seq<Otp>, n: nat, user: int, purpose: string, now: int)
    requires n <= |t|
    ensures RecentCount(t, n, user, purpose, now) == |RecentRows(t, n, user, purpose, now)|
  {
    if n > 0 {
      RecentCountIs(t, n - 1, user, purpose, now);
      var before := RecentRows(t, n - 1, user, purpose, now);
      assert RecentRows(t, n, user, purpose, now) ==
             if Recent(t[n - 1], user, purpose, now) then before + {n - 1} else before;
    }
  }

  /** A code asked for within the rate leaves at most MAX_REQUESTS_PER_HOUR created in the last hour. */
  lemma RateCapsCreation(t: seq<Otp>, user: int, purpose: string, hash: string, now: int)
    requires RateOf(t, user, purpose, now) != TooMany
    ensures var t' := Create(t, user, purpose, hash, now);
            && RecentCount(t', |t'|, user, purpose, now) == RecentCount(t, |t|, user, purpose, now) + 1
            && RecentCount(t', |t'|, user, purpose, now) <= MAX_REQUESTS_PER_HOUR
  {
    var t' := Create(t, user, purpose, hash, now);
    assert t'[|t|] == NewOtp(user, purpose, hash, now);
    SameCount(t, t', |t|, user, purpose, now);
  }

  lemma {:induction false} SameCount(t: seq<Otp>, t': seq<Otp>, n: nat, user: int, purpose: string, now: int)
    requires n <= |t| && n <= |t'|
    requires forall i :: 0 <= i < n ==> Of(t'[i], t[i].user, t[i].purpose) && t'[i].created == t[i].created
    ensures RecentCount(t', n, user, purpose, now) == RecentCount(t, n, user, purpose, now)
  {
    if n > 0 {
      SameCount(t, t', n - 1, user, purpose, now);
    }
  }

  /** Without the invariant two unused codes are both charged by one wrong guess. */
  lemma TwoLiveCodesAreChargedTwice(hash: string, code: string, check: Checker)
    requires !check(code, hash)
    ensures var row := NewOtp(1, "login", hash, 0);
            var charged := row.(attempts := 1);
            Verify([row, row], 1, "login", code, 1, check) == ([charged, charged], WrongCode)
  {
    var row := NewOtp(1, "login", hash, 0);
    var t := [row, row];
    assert Failures(t, 2, 1, "login", 1 - LOCKOUT_WINDOW) == Failures(t, 1, 1, "login", 1 - LOCKOUT_WINDOW) == 0;
    assert Candidates(t, 1, 1, "login", 1) == [0] + Candidates(t, 0, 1, "login", 1);
    assert Candidates(t, 2, 1, "login", 1) == [1] + Candidates(t, 1, 1, "login", 1);
    var ids := Newest(t, 1, "login", 1);
    assert ids == [1, 0];
    var charged := row.(attempts := 1);
    assert TryFrom([charged, charged], ids, 2, code, 1, check) == ([charged, charged], None);
    assert [row, charged][0 := charged] == [charged, charged];
    assert TryFrom([row, charged], ids, 1, code, 1, check) == ([charged, charged], None);
    assert t[1 := charged] == [row, charged];
  }

  // -------------------------------------------------------------------- service

  /** The table, changed in place by the service's calls. */
  class OtpTable {
    var rows: seq<Otp>

    constructor ()
      ensures rows == []
    {
      rows := [];
    }

    method InvalidateUserOtps(user: int, purpose: string, now: int)
      modifies this
      ensures rows == Invalidate(old(rows), user, purpose, now)
    {
      ghost var before := rows;
      for i := 0 to |rows|
        invariant |rows| == |before|
        invariant forall j :: 0 <= j < |rows| ==>
          rows[j] == if j < i then Invalidated(before[j], user, purpose, now) else before[j]
      {
        if rows[i].user == user && rows[i].purpose == purpose && !rows[i].used {
          rows := rows[i := rows[i].(used := true, usedAt := Some(now))];
        }
      }
    }

    method CreateOtp(user: int, purpose: string, hash: string, now: int) returns (id: nat)
      modifies this
      ensures rows == Create(old(rows), user, purpose, hash, now)
      ensures id == |old(rows)|
    {
      InvalidateUserOtps(user, purpose, now);
      id := |rows|;
      rows := rows + [Otp(user, purpose, hash, 0, DEFAULT_MAX_ATTEMPTS, now, now + EXPIRE_AFTER, false, None)];
    }

    method CheckOtpLockout(user: int, purpose: string, now: int) returns (ok: bool)
      ensures ok <==> !Locked(rows, user, purpose, now)
    {
      var totalFailures := 0;
      for i := 0 to |rows|
        invariant totalFailures == Failures(rows, i, user, purpose, now - LOCKOUT_WINDOW)
      {
        if rows[i].user == user && rows[i].purpose == purpose && rows[i].created > now - LOCKOUT_WINDOW {
          totalFailures := totalFailures + rows[i].attempts;
        }
      }
      ok := totalFailures < MAX_TOTAL_FAILURES;
    }

    method CheckRateLimit(user: int, purpose: string, now: int) returns (rate: Rate)
      ensures rate == RateOf(rows, user, purpose, now)
    {
      var count, latest := 0, None;
      for i := 0 to |rows|
        invariant count == RecentCount(rows, i, user, purpose, now)
        invariant latest == LatestOf(rows, i, user, purpose, now)
      {
        if rows[i].user == user && rows[i].purpose == purpose && rows[i].created > now - HOUR {
          count := count + 1;
          latest := MaxOption(latest, Some(rows[i].created));
        }
      }
      if count >= MAX_REQUESTS_PER_HOUR {
        return TooMany;
      }
      if latest.Some? && now < latest.value + RESEND_COOLDOWN {
        return Wait((latest.value + RESEND_COOLDOWN - now) / SECOND);
      }
      rate := Allowed;
    }

    method VerifyOtp(user: int, purpose: string, code: string, now: int, check: Checker) returns (outcome: Outcome)
      modifies this
      ensures (rows, outcome) == Verify(old(rows), user, purpose, code, now, check)
    {
      var ok := CheckOtpLockout(user, purpose, now);
      if !ok {
        return LockedOut;
      }
      var ids := Newest(rows, user, purpose, now);
      if ids == [] {
        return NoActiveCode;
      }
      ghost var goal := TryFrom(rows, ids, 0, code, now, check);
      for k := 0 to |ids|
        invariant |rows| == |old(rows)| && Ids(ids, |rows|)
        invariant TryFrom(rows, ids, k, code, now, check) == goal
      {
        var i := ids[k];
        var otp := rows[i];
        if otp.attempts >= otp.maxAttempts {
          rows := rows[i := otp.(used := true, usedAt := Some(now))];
          continue;
        }
        if check(code, otp.hash) {
          rows := rows[i := otp.(used := true, usedAt := Some(now), attempts := otp.attempts + 1)];
          return Verified(i);
        }
        otp := otp.(attempts := otp.attempts + 1);
        if otp.attempts >= otp.maxAttempts {
          otp := otp.(used := true, usedAt := Some(now));
        }
        rows := rows[i := otp];
      }
      outcome := WrongCode;
    }
  }
}
