/**
 * The sliding-window rate limiter (backend/uploads/bef0bb98b8f540019c4f8e1e4bf90dbf_rate_limit.py).
 *
 * Limiter is the middleware's state; a Log records, next to it, every admission
 * ever made, how much of it has been pruned, and the denials of each address
 * since its last admission.
 */
module RateLimiter {
  import opened Common

  /** Keys of `_requests`: `ip:..`, `fail:..` and `bf:..`. */
  datatype Key = Ip(ip: string) | Fail(ip: string) | Bf(ip: string, path: string)

  datatype Limiter = Limiter(
    requests: map<Key, seq<real>>, blocked: map<string, real>, suspicious: map<string, seq<real>>,
    lastCleanup: real)

  datatype Config = Config(defaultWindow: int, blockThreshold: int, blockDuration: int)

  /** One request, with the limit and window its endpoint is classified under. */
  datatype Request = Request(exempt: bool, ip: string, path: string, post: bool, limit: int, window: int)

  /** The successive readings of the clock while a request is dispatched. */
  datatype Times = Times(cleanup: real, block: real, brute: real, check: real, failure: real, violation: real,
                         punish: real)

  datatype Verdict = Admitted | Denied(retryAfter: int) | IndexError

  datatype Response = Passed | Blocked(remaining: real) | BruteForce | Limited(retryAfter: int) | Crashed

  // ---------------------------------------------------------------- operations

  function RecentUpTo(ts: seq<real>, n: nat, cutoff: real): seq<real>
    requires n <= |ts|
  {
    if n == 0 then []
    else
      var before := RecentUpTo(ts, n - 1, cutoff);
      if ts[n - 1] > cutoff then before + [ts[n - 1]] else before
  }

  /** The timestamps after the cutoff. */
  function Recent(ts: seq<real>, cutoff: real): seq<real>
  {
    RecentUpTo(ts, |ts|, cutoff)
  }

  /** Reading a defaultdict of timestamp lists. */
  function At<K>(m: map<K, seq<real>>, k: K): seq<real>
  {
    if k in m then m[k] else []
  }

  /** How far back cleaning up leaves things: the longer of the two. */
  function MaxWindow(cfg: Config): (w: int)
    ensures cfg.defaultWindow <= w && cfg.blockDuration <= w && w in {cfg.defaultWindow, cfg.blockDuration}
  {
    Max(cfg.defaultWindow, cfg.blockDuration)
  }

  predicate Stale(ts: seq<real>, cutoff: real)
  {
    ts == [] || ts[|ts| - 1] < cutoff
  }

  function Cleanup(s: Limiter, now: real, cfg: Config): Limiter
  {
    if now - s.lastCleanup < 120.0 then s
    else
      var cutoff := now - MaxWindow(cfg) as real;
      Limiter(map k | k in s.requests && !Stale(s.requests[k], cutoff) :: s.requests[k],
              map ip | ip in s.blocked && !(now > s.blocked[ip]) :: s.blocked[ip],
              map ip | ip in s.suspicious && !Stale(s.suspicious[ip], cutoff) :: s.suspicious[ip],
              now)
  }

  /** Seconds left of a block, None when there is none. */
  function IsBlocked(s: Limiter, ip: string, now: real): Option<real>
  {
    if ip in s.blocked && s.blocked[ip] != 0.0 && now < s.blocked[ip] then Some(s.blocked[ip] - now) else None
  }

  function Judge(recent: seq<real>, limit: int, window: int, now: real): Verdict
  {
    if |recent| < limit then Admitted
    else if recent == [] then IndexError
    else Denied(Max((recent[0] + window as real - now).Floor + 1, 1))
  }

  /** `_check_rate_limit`: prune, then admit and record, or deny. */
  function Check(requests: map<Key, seq<real>>, key: Key, limit: int, window: int, now: real)
      : (map<Key, seq<real>>, Verdict)
  {
    var recent := Recent(At(requests, key), now - window as real);
    var verdict := Judge(recent, limit, window, now);
    (requests[key := if verdict.Admitted? then recent + [now] else recent], verdict)
  }

  /** What a denial leaves behind: a failure, a violation, and perhaps a block. */
  function Punish(s: Limiter, ip: string, t: Times, cfg: Config): Limiter
  {
    var failures := At(s.requests, Fail(ip));
    Limiter(s.requests[Fail(ip) := failures + [t.failure]],
            if |failures| >= cfg.blockThreshold then s.blocked[ip := t.punish + cfg.blockDuration as real]
            else s.blocked,
            s.suspicious[ip := At(s.suspicious, ip) + [t.violation]], s.lastCleanup)
  }

  predicate LooksLikeBruteForce(s: Limiter, r: Request, now: real)
  {
    r.post && |Recent(At(s.requests, Bf(r.ip, r.path)), now - 60.0)| >= 10
  }

  /** `dispatch`, up to handing the request on. */
  function Dispatch(s: Limiter, r: Request, t: Times, cfg: Config): (Limiter, Response)
  {
    if r.exempt then (s, Passed)
    else
      var s := Cleanup(s, t.cleanup, cfg);
      var left := IsBlocked(s, r.ip, t.block);
      if left.Some? then (s, Blocked(left.value))
      else if LooksLikeBruteForce(s, r, t.brute) then
        (s.(blocked := s.blocked[r.ip := t.brute + cfg.blockDuration as real]), BruteForce)
      else
        var (requests, verdict) := Check(s.requests, Ip(r.ip), r.limit, r.window, t.check);
        match verdict
        case IndexError => (s.(requests := requests), Crashed)
        case Denied(retry) => (Punish(s.(requests := requests), r.ip, t, cfg), Limited(retry))
        case Admitted => (s.(requests := requests - {Fail(r.ip)}), Passed)
  }

  // ----------------------------------------------------------- recent timestamps

  ghost predicate Sorted(ts: seq<real>)
  {
    forall i, j :: 0 <= i < j < |ts| ==> ts[i] <= ts[j]
  }

  ghost predicate AllUpTo(ts: seq<real>, t: real)
  {
    forall i :: 0 <= i < |ts| ==> ts[i] <= t
  }

  /** How many of the first n timestamps are not after the cutoff. */
  function ExpiredUpTo(ts: seq<real>, n: nat, cutoff: real): nat
    requires n <= |ts|
  {
    if n == 0 then 0 else ExpiredUpTo(ts, n - 1, cutoff) + (if ts[n - 1] > cutoff then 0 else 1)
  }

  /** Pruning a sorted list drops a prefix, the expired ones. */
  lemma {:induction false} RecentIsSuffix(ts: seq<real>, n: nat, cutoff: real)
    requires Sorted(ts) && n <= |ts|
    ensures var k := ExpiredUpTo(ts, n, cutoff);
            k <= n && RecentUpTo(ts, n, cutoff) == ts[k..n] &&
            (forall i :: 0 <= i < k ==> ts[i] <= cutoff) && (forall i :: k <= i < n ==> ts[i] > cutoff)
  {
    if n > 0 {
      RecentIsSuffix(ts, n - 1, cutoff);
    }
  }

  lemma {:induction false} RecentOfPrefix(a: seq<real>, b: seq<real>, n: nat, cutoff: real)
    requires n <= |a| && a <= b
    ensures RecentUpTo(b, n, cutoff) == RecentUpTo(a, n, cutoff)
  {
    if n > 0 {
      RecentOfPrefix(a, b, n - 1, cutoff);
    }
  }

  lemma RecentOfSnoc(ts: seq<real>, t: real, cutoff: real)
    ensures Recent(ts + [t], cutoff) == if t > cutoff then Recent(ts, cutoff) + [t] else Recent(ts, cutoff)
  {
    RecentOfPrefix(ts, ts + [t], |ts|, cutoff);
  }

  /** Pruning twice is pruning once at the later cutoff. */
  lemma {:induction false} RecentOfRecent(ts: seq<real>, n: nat, a: real, b: real)
    requires n <= |ts| && a <= b
    ensures Recent(RecentUpTo(ts, n, a), b) == RecentUpTo(ts, n, b)
  {
    if n > 0 {
      RecentOfRecent(ts, n - 1, a, b);
      RecentOfSnoc(RecentUpTo(ts, n - 1, a), ts[n - 1], b);
    }
  }

  /** Pruning up to an earlier moment does not change what is recent later. */
  lemma PrunedSame(ts: seq<real>, a: real)
    ensures forall b :: b >= a ==> Recent(Recent(ts, a), b) == Recent(ts, b)
  {
    forall b | b >= a ensures Recent(Recent(ts, a), b) == Recent(ts, b) {
      RecentOfRecent(ts, |ts|, a, b);
    }
  }

  lemma {:induction false} NoneRecent(ts: seq<real>, n: nat, cutoff: real)
    requires n <= |ts| && AllUpTo(ts, cutoff)
    ensures RecentUpTo(ts, n, cutoff) == []
  {
    if n > 0 {
      NoneRecent(ts, n - 1, cutoff);
    }
  }

  // -------------------------------------------------------------- the full history

  /** Every admission of each address, never forgotten, and its denials since the last one. */
  datatype Log = Log(admissions: map<string, seq<real>>, streak: map<string, nat>)

  function Streak(log: Log, ip: string): nat
  {
    if ip in log.streak then log.streak[ip] else 0
  }

  /** The log after a dispatched request. */
  function Logged(log: Log, r: Request, t: Times, response: Response): Log
  {
    match response
    case Passed =>
      if r.exempt then log
      else Log(log.admissions[r.ip := At(log.admissions, r.ip) + [t.check]], log.streak[r.ip := 0])
    case Limited(_) => log.(streak := log.streak[r.ip := Streak(log, r.ip) + 1])
    case _ => log
  }

  ghost predicate Upto(ts: seq<real>, now: real) { Sorted(ts) && AllUpTo(ts, now) }

  /** From `since` on, the kept timestamps and the full list cannot be told apart. */
  ghost predicate SameSince(kept: seq<real>, all: seq<real>, since: real)
  {
    forall c :: c >= since ==> Recent(kept, c) == Recent(all, c)
  }

  /** What is kept stands for the full history, as far as a window of w seconds can see. */
  ghost predicate HistoryOk(kept: seq<real>, all: seq<real>, now: real, w: int)
  {
    Upto(kept, now) && Upto(all, now) && SameSince(kept, all, now - w as real)
  }

  /** An empty window sees nothing, so there anything stands for anything. */
  lemma NothingSince(kept: seq<real>, all: seq<real>, since: real)
    requires AllUpTo(kept, since) && AllUpTo(all, since)
    ensures SameSince(kept, all, since)
  {
    forall c | c >= since ensures Recent(kept, c) == Recent(all, c) {
      NoneRecent(kept, |kept|, c);
      NoneRecent(all, |all|, c);
    }
  }

  lemma CleanupKeepsHistory(kept: seq<real>, all: seq<real>, now: real, later: real, w: int, cutoff: real)
    requires HistoryOk(kept, all, now, w) && now <= later && (w <= 0 || cutoff <= later - w as real)
    ensures HistoryOk(if Stale(kept, cutoff) then [] else kept, all, later, w)
  {
    if w <= 0 {
      NothingSince(if Stale(kept, cutoff) then [] else kept, all, later - w as real);
    } else if Stale(kept, cutoff) {
      forall c | c >= later - w as real ensures Recent([], c) == Recent(all, c) {
        NoneRecent(kept, |kept|, c);
        assert Recent(kept, c) == Recent(all, c);
      }
    }
  }

  /** Pruning, and perhaps admitting, keeps a history. */
  lemma CheckKeepsHistory(kept: seq<real>, all: seq<real>, now: real, later: real, w: int, window: int, admitted: bool)
    requires HistoryOk(kept, all, now, w) && now <= later && (w <= 0 || w <= window)
    ensures var recent := Recent(kept, later - window as real);
            if admitted then HistoryOk(recent + [later], all + [later], later, w) else HistoryOk(recent, all, later, w)
  {
    var cutoff := later - window as real;
    var recent := Recent(kept, cutoff);
    assert Upto(recent, later) by {
      RecentIsSuffix(kept, |kept|, cutoff);
    }
    assert SameSince(recent, all, later - w as real) by {
      if w <= 0 {
        NothingSince(recent, all, later - w as real);
      } else {
        PrunedSame(kept, cutoff);
        forall c | c >= later - w as real ensures Recent(recent, c) == Recent(all, c) {
          assert Recent(recent, c) == Recent(kept, c);
        }
      }
    }
    if admitted {
      SameAfterSnoc(recent, all, later - w as real, later);
    }
  }

  lemma SameAfterSnoc(kept: seq<real>, all: seq<real>, since: real, t: real)
    requires SameSince(kept, all, since)
    ensures SameSince(kept + [t], all + [t], since)
  {
    forall c | c >= since ensures Recent(kept + [t], c) == Recent(all + [t], c) {
      RecentOfSnoc(kept, t, c);
      RecentOfSnoc(all, t, c);
    }
  }

  ghost predicate TimesOk(now: real, t: Times)
  {
    now <= t.cleanup <= t.block <= t.brute <= t.check <= t.failure <= t.violation <= t.punish
  }

  /** No `bf:` key is ever written, and failures are counted since the last admission. */
  ghost predicate FailuresOk(s: Limiter, log: Log)
  {
    && (forall ip :: |At(s.requests, Fail(ip))| <= Streak(log, ip))
    && (forall ip, path :: Bf(ip, path) !in s.requests)
  }

  ghost predicate AddressOk(s: Limiter, log: Log, ip: string, now: real, w: int)
  {
    HistoryOk(At(s.requests, Ip(ip)), At(log.admissions, ip), now, w)
  }

  /** The request cannot make the address forget what a window of w seconds needs. */
  ghost predicate Harmless(r: Request, ip: string, w: int, cfg: Config)
  {
    w <= 0 || (w <= MaxWindow(cfg) && (r.ip == ip && !r.exempt ==> w <= r.window))
  }

  lemma CleanupKeeps(s: Limiter, log: Log, ip: string, now: real, later: real, w: int, cfg: Config)
    requires AddressOk(s, log, ip, now, w) && now <= later && (w <= 0 || w <= MaxWindow(cfg))
    ensures AddressOk(Cleanup(s, later, cfg), log, ip, later, w)
  {
    var kept, all := At(s.requests, Ip(ip)), At(log.admissions, ip);
    var cutoff := later - MaxWindow(cfg) as real;
    CleanupKeepsHistory(kept, all, now, later, w, cutoff);
    if Cleanup(s, later, cfg) == s {
      TimePasses(kept, all, now, later, w);
    } else {
      assert At(Cleanup(s, later, cfg).requests, Ip(ip)) == if Stale(kept, cutoff) then [] else kept;
    }
  }

  lemma TimePasses(kept: seq<real>, all: seq<real>, now: real, later: real, w: int)
    requires HistoryOk(kept, all, now, w) && now <= later
    ensures HistoryOk(kept, all, later, w)
  {
  }

  lemma NoBruteForce(s: Limiter, log: Log, r: Request, t: real)
    requires FailuresOk(s, log)
    ensures !LooksLikeBruteForce(s, r, t)
  {
  }

  /** Limiter and log after the check of a request that got that far. */
  ghost predicate AfterCheck(s: Limiter, log: Log, r: Request, t: Times, cfg: Config, s': Limiter, log': Log)
  {
    var (requests, verdict) := Check(s.requests, Ip(r.ip), r.limit, r.window, t.check);
    match verdict
    case IndexError => s' == s.(requests := requests) && log' == Logged(log, r, t, Crashed)
    case Denied(n) => s' == Punish(s.(requests := requests), r.ip, t, cfg) && log' == Logged(log, r, t, Limited(n))
    case Admitted => s' == s.(requests := requests - {Fail(r.ip)}) && log' == Logged(log, r, t, Passed)
  }

  lemma CheckKeeps(s: Limiter, log: Log, ip: string, now: real, w: int, r: Request, t: Times, cfg: Config,
                   s': Limiter, log': Log)
    requires AddressOk(s, log, ip, now, w) && now <= t.check && !r.exempt && Harmless(r, ip, w, cfg)
    requires AfterCheck(s, log, r, t, cfg, s', log')
    ensures AddressOk(s', log', ip, t.check, w)
  {
    var verdict := Check(s.requests, Ip(r.ip), r.limit, r.window, t.check).1;
    var kept, all := At(s.requests, Ip(ip)), At(log.admissions, ip);
    if ip == r.ip {
      CheckKeepsHistory(kept, all, now, t.check, w, r.window, verdict.Admitted?);
      var recent := Recent(kept, t.check - r.window as real);
      assert At(s'.requests, Ip(ip)) == if verdict.Admitted? then recent + [t.check] else recent;
      assert At(log'.admissions, ip) == if verdict.Admitted? then all + [t.check] else all;
    } else {
      assert At(s'.requests, Ip(ip)) == kept && At(log'.admissions, ip) == all;
      TimePasses(kept, all, now, t.check, w);
    }
  }

  lemma CleanupKeepsFailures(s: Limiter, log: Log, t: real, cfg: Config)
    requires FailuresOk(s, log)
    ensures FailuresOk(Cleanup(s, t, cfg), log)
  {
  }

  lemma CheckKeepsFailures(s: Limiter, log: Log, r: Request, t: Times, cfg: Config, s': Limiter, log': Log)
    requires FailuresOk(s, log) && !r.exempt && AfterCheck(s, log, r, t, cfg, s', log')
    ensures FailuresOk(s', log')
  {
    assert |At(s.requests, Fail(r.ip))| <= Streak(log, r.ip);
  }

  lemma DispatchKeepsFailures(s: Limiter, log: Log, r: Request, t: Times, cfg: Config, s': Limiter, log': Log)
    requires FailuresOk(s, log)
    requires s' == Dispatch(s, r, t, cfg).0 && log' == Logged(log, r, t, Dispatch(s, r, t, cfg).1)
    ensures FailuresOk(s', log')
  {
    var s1 := Cleanup(s, t.cleanup, cfg);
    CleanupKeepsFailures(s, log, t.cleanup, cfg);
    NoBruteForce(s1, log, r, t.brute);
    if !r.exempt && IsBlocked(s1, r.ip, t.block).None? {
      CheckKeepsFailures(s1, log, r, t, cfg, s', log');
    }
  }

  lemma DispatchKeeps(s: Limiter, log: Log, ip: string, now: real, w: int, r: Request, t: Times, cfg: Config,
                      s': Limiter, log': Log)
    requires FailuresOk(s, log) && AddressOk(s, log, ip, now, w) && TimesOk(now, t) && Harmless(r, ip, w, cfg)
    requires s' == Dispatch(s, r, t, cfg).0 && log' == Logged(log, r, t, Dispatch(s, r, t, cfg).1)
    ensures AddressOk(s', log', ip, t.punish, w)
  {
    var s1, at := Cleanup(s, t.cleanup, cfg), now;
    if !r.exempt {
      CleanupKeeps(s, log, ip, now, t.cleanup, w, cfg);
      at := t.cleanup;
      NoBruteForce(s1, log, r, t.brute);
      if IsBlocked(s1, r.ip, t.block).None? {
        CheckKeeps(s1, log, ip, t.cleanup, w, r, t, cfg, s', log');
        at := t.check;
      }
    }
    assert AddressOk(s', log', ip, at, w);
    TimePasses(At(s'.requests, Ip(ip)), At(log'.admissions, ip), at, t.punish, w);
  }

  // ---------------------------------------------------------------- whole runs

  datatype World = World(limiter: Limiter, log: Log, clock: real)

  function Start(now: real): World
  {
    World(Limiter(map[], map[], map[], now), Log(map[], map[]), now)
  }

  /** Requests one after the other; one whose clock would run backwards does not happen. */
  ghost function Run(start: real, requests: seq<(Request, Times)>, cfg: Config): World
  {
    if requests == [] then Start(start)
    else
      var n := |requests| - 1;
      Advance(Run(start, requests[..n], cfg), requests[n].0, requests[n].1, cfg)
  }

  ghost function Advance(before: World, r: Request, t: Times, cfg: Config): World
  {
    if TimesOk(before.clock, t) then
      var (s, response) := Dispatch(before.limiter, r, t, cfg);
      World(s, Logged(before.log, r, t, response), t.punish)
    else before
  }

  /** The windows of the requests of an address that reach the limiter. */
  ghost predicate MeetsOnly(requests: seq<(Request, Times)>, ip: string, windows: set<int>)
  {
    forall i :: 0 <= i < |requests| && requests[i].0.ip == ip && !requests[i].0.exempt ==>
        requests[i].0.window in windows
  }

  /** No window the address meets is shorter than w seconds, and cleaning up reaches back at least as far. */
  ghost predicate Covered(w: int, windows: set<int>, cfg: Config)
  {
    w <= 0 || (w <= MaxWindow(cfg) && forall v :: v in windows ==> w <= v)
  }

  lemma {:induction false} RunKeeps(start: real, requests: seq<(Request, Times)>, cfg: Config, windows: set<int>,
                                    ip: string, w: int)
    requires MeetsOnly(requests, ip, windows) && Covered(w, windows, cfg)
    ensures var world := Run(start, requests, cfg);
            FailuresOk(world.limiter, world.log) && AddressOk(world.limiter, world.log, ip, world.clock, w)
  {
    if requests != [] {
      var n := |requests| - 1;
      var before, after := Run(start, requests[..n], cfg), Run(start, requests, cfg);
      RunKeeps(start, requests[..n], cfg, windows, ip, w);
      var (r, t) := requests[n];
      if TimesOk(before.clock, t) {
        DispatchKeepsFailures(before.limiter, before.log, r, t, cfg, after.limiter, after.log);
        DispatchKeeps(before.limiter, before.log, ip, before.clock, w, r, t, cfg, after.limiter, after.log);
      }
    }
  }

  /** What every run keeps, whatever the windows are. */
  lemma RunIsSorted(start: real, requests: seq<(Request, Times)>, cfg: Config, ip: string)
    ensures var world := Run(start, requests, cfg);
            FailuresOk(world.limiter, world.log) && Upto(At(world.limiter.requests, Ip(ip)), world.clock)
  {
    var windows := set i | 0 <= i < |requests| :: requests[i].0.window;
    RunKeeps(start, requests, cfg, windows, ip, 0);
  }

  // ------------------------------------------------------- against the full history

  /** What a limiter that never forgets would answer. */
  function Ideal(all: seq<real>, r: Request, t: Times): Response
  {
    match Judge(Recent(all, t.check - r.window as real), r.limit, r.window, t.check)
    case Admitted => Passed
    case Denied(n) => Limited(n)
    case IndexError => Crashed
  }

  /** Admitted exactly with fewer than `limit` admissions in the window, so with this one there are at most as many. */
  ghost predicate Counts(all: seq<real>, response: Response, r: Request, t: Times)
  {
    var cutoff := t.check - r.window as real;
    && (response.Passed? <==> |Recent(all, cutoff)| < r.limit)
    && (response.Crashed? <==> r.limit <= 0 && Recent(all, cutoff) == [])
    && (response.Passed? ==> |Recent(all + [t.check], cutoff)| <= r.limit)
  }

  /** An address that is not blocked is answered as by one. */
  ghost predicate AsHistory(world: World, r: Request, t: Times, cfg: Config)
  {
    var response := Dispatch(world.limiter, r, t, cfg).1;
    response.Blocked? || response == Ideal(At(world.log.admissions, r.ip), r, t)
  }

  /**
   * The pruned limiter answers as one that remembers everything: it admits exactly
   * when fewer than `limit` admissions of the address lie in the window, so an
   * admission is one of at most `limit` in its window.
   */
  lemma AdmissionMatchesHistory(start: real, requests: seq<(Request, Times)>, cfg: Config, windows: set<int>,
                                r: Request, t: Times)
    requires MeetsOnly(requests, r.ip, windows) && Covered(r.window, windows, cfg)
    requires !r.exempt && TimesOk(Run(start, requests, cfg).clock, t)
    ensures var world := Run(start, requests, cfg);
            var response := Dispatch(world.limiter, r, t, cfg).1;
            AsHistory(world, r, t, cfg) && (response.Blocked? || Counts(At(world.log.admissions, r.ip), response, r, t))
  {
    RunAnswers(start, requests, cfg, windows, r, t);
    IdealCounts(At(Run(start, requests, cfg).log.admissions, r.ip), r, t);
  }

  lemma RunAnswers(start: real, requests: seq<(Request, Times)>, cfg: Config, windows: set<int>, r: Request, t: Times)
    requires MeetsOnly(requests, r.ip, windows) && Covered(r.window, windows, cfg)
    requires !r.exempt && TimesOk(Run(start, requests, cfg).clock, t)
    ensures AsHistory(Run(start, requests, cfg), r, t, cfg)
  {
    RunKeeps(start, requests, cfg, windows, r.ip, r.window);
    var world := Run(start, requests, cfg);
    CleanupKeeps(world.limiter, world.log, r.ip, world.clock, t.cleanup, r.window, cfg);
    Answered(world.limiter, world.log, r, t, cfg);
  }

  lemma IdealCounts(all: seq<real>, r: Request, t: Times)
    ensures Counts(all, Ideal(all, r, t), r, t)
  {
    RecentOfSnoc(all, t.check, t.check - r.window as real);
  }

  /** An address that is not blocked is answered from what is kept of it after cleaning up. */
  lemma Answered(s: Limiter, log: Log, r: Request, t: Times, cfg: Config)
    requires FailuresOk(s, log) && !r.exempt
    ensures var s1, response := Cleanup(s, t.cleanup, cfg), Dispatch(s, r, t, cfg).1;
            response.Blocked? || response == Ideal(At(s1.requests, Ip(r.ip)), r, t)
  {
    var s1 := Cleanup(s, t.cleanup, cfg);
    assert forall ip, path :: Bf(ip, path) !in s1.requests;
    assert Recent([], t.brute - 60.0) == [];
  }

  /** In every run in which the address meets these windows, one of w seconds is answered as from the full history. */
  ghost predicate Exact(w: int, windows: set<int>, ip: string, cfg: Config)
  {
    forall start, requests, r: Request, t ::
      MeetsOnly(requests, ip, windows) && r.ip == ip && r.window == w && !r.exempt &&
      TimesOk(Run(start, requests, cfg).clock, t) ==>
        AsHistory(Run(start, requests, cfg), r, t, cfg)
  }

  /** All readings of the clock at one moment. */
  function Moment(t: real): Times { Times(t, t, t, t, t, t, t) }

  function Visit(ip: string, limit: int, window: int): Request { Request(false, ip, "", false, limit, window) }

  lemma CleanupOnlyDrops(s: Limiter, t: real, cfg: Config, ip: string)
    ensures var kept := At(Cleanup(s, t, cfg).requests, Ip(ip)); kept == At(s.requests, Ip(ip)) || kept == []
  {
  }

  /** A visit at one moment that finds room. */
  lemma VisitPasses(s: Limiter, ip: string, limit: int, window: int, t: real, cfg: Config)
    requires ip !in s.blocked && |Recent(At(Cleanup(s, t, cfg).requests, Ip(ip)), t - window as real)| < limit
    ensures var (s', response) := Dispatch(s, Visit(ip, limit, window), Moment(t), cfg);
            && response == Passed && ip !in s'.blocked && s'.lastCleanup == Cleanup(s, t, cfg).lastCleanup
            && At(s'.requests, Ip(ip)) == Recent(At(Cleanup(s, t, cfg).requests, Ip(ip)), t - window as real) + [t]
  {
  }

  lemma RunOn(start: real, requests: seq<(Request, Times)>, r: Request, t: Times, cfg: Config)
    ensures Run(start, requests + [(r, t)], cfg) == Advance(Run(start, requests, cfg), r, t, cfg)
  {
    assert (requests + [(r, t)])[..|requests|] == requests;
  }

  /** One more visit that finds room. */
  lemma NextVisit(world: World, ip: string, limit: int, window: int, t: real, cfg: Config, next: World)
    requires world.clock <= t && next == Advance(world, Visit(ip, limit, window), Moment(t), cfg)
    requires ip !in world.limiter.blocked
    requires |Recent(At(Cleanup(world.limiter, t, cfg).requests, Ip(ip)), t - window as real)| < limit
    ensures next.clock == t && ip !in next.limiter.blocked
    ensures next.limiter.lastCleanup == Cleanup(world.limiter, t, cfg).lastCleanup
    ensures At(next.log.admissions, ip) == At(world.log.admissions, ip) + [t]
    ensures At(next.limiter.requests, Ip(ip)) ==
            Recent(At(Cleanup(world.limiter, t, cfg).requests, Ip(ip)), t - window as real) + [t]
  {
    VisitPasses(world.limiter, ip, limit, window, t, cfg);
  }

  /** One visit to begin with. */
  lemma FirstVisit(ip: string, limit: int, window: int, t: real, cfg: Config) returns (world: World)
    requires 0.0 <= t < 120.0 && limit > 0
    ensures world == Run(0.0, [(Visit(ip, limit, window), Moment(t))], cfg) && world.clock == t
    ensures At(world.limiter.requests, Ip(ip)) == [t] == At(world.log.admissions, ip)
    ensures ip !in world.limiter.blocked && world.limiter.lastCleanup == 0.0
  {
    var visits := [(Visit(ip, limit, window), Moment(t))];
    RunOn(0.0, [], Visit(ip, limit, window), Moment(t), cfg);
    assert [] + visits == visits;
    assert Recent([], t - window as real) == [];
    world := Run(0.0, visits, cfg);
    NextVisit(Start(0.0), ip, limit, window, t, cfg, world);
  }

  lemma RecentOfOne(t: real, cutoff: real)
    ensures Recent([t], cutoff) == if t > cutoff then [t] else []
  {
    assert RecentUpTo([t], 0, cutoff) == [];
  }

  lemma RecentOfTwo(a: real, b: real, cutoff: real)
    requires cutoff < a && cutoff < b
    ensures Recent([a, b], cutoff) == [a, b]
  {
    RecentOfOne(a, cutoff);
    RecentOfSnoc([a], b, cutoff);
    assert [a] + [b] == [a, b];
  }

  /** A full history of two is denied under a limit of two; one kept timestamp is not. */
  lemma TwoAgainstOne(world: World, ip: string, w: int, a: real, b: real, cfg: Config)
    requires At(world.limiter.requests, Ip(ip)) == [b] && At(world.log.admissions, ip) == [a, b]
    requires b - w as real < a <= b && ip !in world.limiter.blocked
    ensures !AsHistory(world, Visit(ip, 2, w), Moment(b), cfg)
  {
    CleanupOnlyDrops(world.limiter, b, cfg, ip);
    RecentOfOne(b, b - w as real);
    assert Recent([], b - w as real) == [];
    VisitPasses(world.limiter, ip, 2, w, b, cfg);
    RecentOfTwo(a, b, b - w as real);
  }

  /** A shorter window prunes what a longer one still needs. */
  lemma ShorterWindowForgets(v: int, w: int, ip: string, cfg: Config)
      returns (requests: seq<(Request, Times)>, r: Request, t: Times)
    requires v < w && 0 < w
    ensures MeetsOnly(requests, ip, {v}) && r.ip == ip && r.window == w && !r.exempt
    ensures TimesOk(Run(0.0, requests, cfg).clock, t) && !AsHistory(Run(0.0, requests, cfg), r, t, cfg)
  {
    var at := Max(v, 0) as real;
    var first := FirstVisit(ip, 1, v, 0.0, cfg);
    requests := [(Visit(ip, 1, v), Moment(0.0))] + [(Visit(ip, 1, v), Moment(at))];
    r, t := Visit(ip, 2, w), Moment(at);
    var world := Run(0.0, requests, cfg);
    RunOn(0.0, [(Visit(ip, 1, v), Moment(0.0))], Visit(ip, 1, v), Moment(at), cfg);
    assert Recent(At(Cleanup(first.limiter, at, cfg).requests, Ip(ip)), at - v as real) == [] by {
      CleanupOnlyDrops(first.limiter, at, cfg, ip);
      RecentOfOne(0.0, at - v as real);
    }
    NextVisit(first, ip, 1, v, at, cfg, world);
    assert [0.0] + [at] == [0.0, at];
    TwoAgainstOne(world, ip, w, 0.0, at, cfg);
  }

  /** Cleaning up drops what a window longer than `MaxWindow` still needs. */
  lemma CleanupForgets(w: int, ip: string, cfg: Config) returns (requests: seq<(Request, Times)>, r: Request, t: Times)
    requires MaxWindow(cfg) < w && 0 < w
    ensures MeetsOnly(requests, ip, {w}) && r.ip == ip && r.window == w && !r.exempt
    ensures TimesOk(Run(0.0, requests, cfg).clock, t) && !AsHistory(Run(0.0, requests, cfg), r, t, cfg)
  {
    var apart := (Max(MaxWindow(cfg), 0) + w) as real / 2.0;
    var at := if apart >= 120.0 then apart else 120.0;
    var world := FirstVisit(ip, 1, w, at - apart, cfg);
    requests, r, t := [(Visit(ip, 1, w), Moment(at - apart))], Visit(ip, 1, w), Moment(at);
    assert At(Cleanup(world.limiter, at, cfg).requests, Ip(ip)) == [];
    assert Recent([], at - w as real) == [];
    VisitPasses(world.limiter, ip, 1, w, at, cfg);
    RecentOfOne(at - apart, at - w as real);
  }

  /**
   * The exact condition: of the windows an address meets, one is answered as from
   * the full history if and only if it is the shortest of them and no longer than
   * `MaxWindow`, or sees nothing at all.
   */
  lemma ExactlyTheShortest(w: int, windows: set<int>, ip: string, cfg: Config)
    requires w in windows
    ensures Exact(w, windows, ip, cfg) <==> Covered(w, windows, cfg)
  {
    if Covered(w, windows, cfg) {
      forall start, requests, r: Request, t |
        MeetsOnly(requests, ip, windows) && r.ip == ip && r.window == w && !r.exempt &&
        TimesOk(Run(start, requests, cfg).clock, t)
        ensures AsHistory(Run(start, requests, cfg), r, t, cfg)
      {
        AdmissionMatchesHistory(start, requests, cfg, windows, r, t);
      }
    } else {
      var requests, r, t;
      if MaxWindow(cfg) < w {
        requests, r, t := CleanupForgets(w, ip, cfg);
      } else {
        var v :| v in windows && v < w;
        requests, r, t := ShorterWindowForgets(v, w, ip, cfg);
      }
      assert MeetsOnly(requests, ip, windows);
      assert !AsHistory(Run(0.0, requests, cfg), r, t, cfg);
    }
  }

  /** So all windows are, if and only if they are one and the same and no longer than `MaxWindow`. */
  lemma ExactlyOneWindow(windows: set<int>, ip: string, cfg: Config)
    requires forall w :: w in windows ==> w > 0
    ensures (forall w :: w in windows ==> Exact(w, windows, ip, cfg)) <==>
            forall v, w :: v in windows && w in windows ==> v == w && w <= MaxWindow(cfg)
  {
    forall w | w in windows ensures Exact(w, windows, ip, cfg) <==> Covered(w, windows, cfg) {
      ExactlyTheShortest(w, windows, ip, cfg);
    }
    if forall w :: w in windows ==> Exact(w, windows, ip, cfg) {
      forall v, w | v in windows && w in windows ensures v == w && w <= MaxWindow(cfg) {
        assert Covered(v, windows, cfg) && Covered(w, windows, cfg);
      }
    }
  }

  /** A later decision is the same with a cleaning up at t as without. */
  ghost predicate SameDecision(s: Limiter, t: real, later: real, ip: string, limit: int, w: int, cfg: Config)
  {
    Check(Cleanup(s, t, cfg).requests, Ip(ip), limit, w, later).1 == Check(s.requests, Ip(ip), limit, w, later).1
  }

  lemma DroppedIsExpired(s: Limiter, t: real, later: real, ip: string, limit: int, w: int, cfg: Config)
    requires Upto(At(s.requests, Ip(ip)), t) && t <= later && (w <= 0 || w <= MaxWindow(cfg))
    ensures SameDecision(s, t, later, ip, limit, w, cfg)
  {
    var kept := At(s.requests, Ip(ip));
    CleanupOnlyDrops(s, t, cfg, ip);
    if At(Cleanup(s, t, cfg).requests, Ip(ip)) != kept {
      NoneRecent(kept, |kept|, later - w as real);
    }
    assert Recent([], later - w as real) == [];
  }

  lemma DroppedIsMissed(ip: string, w: int, cfg: Config) returns (s: Limiter, t: real)
    requires MaxWindow(cfg) < w && 0 < w
    ensures Upto(At(s.requests, Ip(ip)), t) && !SameDecision(s, t, t, ip, 1, w, cfg)
  {
    t := (Max(MaxWindow(cfg), 0) + w) as real / 2.0;
    s := Limiter(map[Ip(ip) := [0.0]], map[], map[], t - 120.0);
    assert At(Cleanup(s, t, cfg).requests, Ip(ip)) == [];
    assert Recent([], t - w as real) == [];
    RecentOfOne(0.0, t - w as real);
  }

  /**
   * Cleaning up changes no later decision under a window if and only if that is no longer than
   * `MaxWindow`, or empty.
   */
  lemma CleanupIsInvisible(w: int, cfg: Config)
    ensures (forall s: Limiter, t, later, ip, limit :: Upto(At(s.requests, Ip(ip)), t) && t <= later ==>
               SameDecision(s, t, later, ip, limit, w, cfg)) <==>
            w <= 0 || w <= MaxWindow(cfg)
  {
    if w <= 0 || w <= MaxWindow(cfg) {
      forall s: Limiter, t, later, ip, limit | Upto(At(s.requests, Ip(ip)), t) && t <= later
        ensures SameDecision(s, t, later, ip, limit, w, cfg)
      {
        DroppedIsExpired(s, t, later, ip, limit, w, cfg);
      }
    } else {
      var s, t := DroppedIsMissed("", w, cfg);
    }
  }

  /** Cleaning up ends no block early. */
  lemma CleanupKeepsBlocks(s: Limiter, t: real, later: real, ip: string, cfg: Config)
    requires t <= later
    ensures IsBlocked(Cleanup(s, t, cfg), ip, later) == IsBlocked(s, ip, later)
  {
  }

  // -------------------------------------------------------------------- blocks

  /** A block is only set by a denial, and only once more than block_threshold came in a row. */
  lemma BlockNeedsDenials(s: Limiter, log: Log, r: Request, t: Times, cfg: Config, ip: string)
    requires FailuresOk(s, log)
    ensures var (s', response) := Dispatch(s, r, t, cfg);
            ip in s'.blocked && (ip !in s.blocked || s'.blocked[ip] != s.blocked[ip]) ==>
              ip == r.ip && response.Limited? && Streak(Logged(log, r, t, response), ip) >= cfg.blockThreshold + 1
  {
    var s1 := Cleanup(s, t.cleanup, cfg);
    assert FailuresOk(s1, log);
    NoBruteForce(s1, log, r, t.brute);
    assert |At(s1.requests, Fail(r.ip))| <= Streak(log, r.ip);
  }

  /** Over whole runs: whoever is blocked was, at some moment, denied block_threshold + 1 times running. */
  lemma {:induction false} BlockedOnlyAfterDenials(start: real, requests: seq<(Request, Times)>, cfg: Config,
                                                   ip: string)
      returns (n: nat)
    requires ip in Run(start, requests, cfg).limiter.blocked
    ensures n <= |requests| && Streak(Run(start, requests[..n], cfg).log, ip) >= cfg.blockThreshold + 1
  {
    var last := |requests| - 1;
    var before := Run(start, requests[..last], cfg);
    if ip in before.limiter.blocked {
      n := BlockedOnlyAfterDenials(start, requests[..last], cfg, ip);
      assert requests[..last][..n] == requests[..n];
    } else {
      RunIsSorted(start, requests[..last], cfg, ip);
      BlockNeedsDenials(before.limiter, before.log, requests[last].0, requests[last].1, cfg, ip);
      n := |requests|;
      assert requests[..n] == requests;
    }
  }

  /** When the limiter last cleaned up: at the first request of at least two minutes after the time before. */
  ghost function Cleaned(start: real, requests: seq<(Request, Times)>, cfg: Config): real
  {
    if requests == [] then start
    else
      var before := requests[..|requests| - 1];
      var (r, t) := requests[|requests| - 1];
      var last := Cleaned(start, before, cfg);
      if Happens(start, before, r, t, cfg) && t.cleanup - last >= 120.0 then t.cleanup else last
  }

  /** A request that is looked at, at a time not before the last one. */
  ghost predicate Happens(start: real, before: seq<(Request, Times)>, r: Request, t: Times, cfg: Config)
  {
    TimesOk(Run(start, before, cfg).clock, t) && !r.exempt
  }

  ghost function Answer(start: real, before: seq<(Request, Times)>, r: Request, t: Times, cfg: Config): Response
  {
    Dispatch(Run(start, before, cfg).limiter, r, t, cfg).1
  }

  /** Cleaning up forgets a list whose last entry is longer ago than `MaxWindow`. */
  function Remembered(ts: seq<real>, last: real, t: Times, cfg: Config): seq<real>
  {
    if t.cleanup - last >= 120.0 && ts != [] && t.cleanup - ts[|ts| - 1] > MaxWindow(cfg) as real then [] else ts
  }

  /** The denials of an address since its last admission, as far as they are remembered. */
  ghost function Failing(start: real, requests: seq<(Request, Times)>, cfg: Config, ip: string): seq<real>
  {
    if requests == [] then []
    else
      var before := requests[..|requests| - 1];
      var (r, t) := requests[|requests| - 1];
      var failing := Failing(start, before, cfg, ip);
      if !Happens(start, before, r, t, cfg) then failing
      else
        var kept := Remembered(failing, Cleaned(start, before, cfg), t, cfg);
        match Answer(start, before, r, t, cfg)
        case Passed => if r.ip == ip then [] else kept
        case Limited(_) => if r.ip == ip then kept + [t.failure] else kept
        case _ => kept
  }

  /** All denials of an address, as far as they are remembered. */
  ghost function Violating(start: real, requests: seq<(Request, Times)>, cfg: Config, ip: string): seq<real>
  {
    if requests == [] then []
    else
      var before := requests[..|requests| - 1];
      var (r, t) := requests[|requests| - 1];
      var violating := Violating(start, before, cfg, ip);
      if !Happens(start, before, r, t, cfg) then violating
      else
        var kept := Remembered(violating, Cleaned(start, before, cfg), t, cfg);
        if r.ip == ip && Answer(start, before, r, t, cfg).Limited? then kept + [t.violation] else kept
  }

  /** The end of an address' block: set by a denial that has at least block_threshold before it, and by no other. */
  ghost function Until(start: real, requests: seq<(Request, Times)>, cfg: Config, ip: string): Option<real>
  {
    if requests == [] then None
    else
      var before := requests[..|requests| - 1];
      var (r, t) := requests[|requests| - 1];
      if Happens(start, before, r, t, cfg) && r.ip == ip && Answer(start, before, r, t, cfg).Limited? &&
         |Failing(start, requests, cfg, ip)| > cfg.blockThreshold
      then Some(t.punish + cfg.blockDuration as real)
      else Until(start, before, cfg, ip)
  }

  /** What the limiter keeps of an address' denials. */
  ghost predicate DenialsOk(s: Limiter, ip: string, failing: seq<real>, violating: seq<real>, last: real)
  {
    At(s.requests, Fail(ip)) == failing && At(s.suspicious, ip) == violating && s.lastCleanup == last
  }

  /** A block that has not run out is kept. */
  ghost predicate BlockOk(s: Limiter, ip: string, until: Option<real>, now: real)
  {
    && (ip in s.blocked ==> until == Some(s.blocked[ip]))
    && (until.Some? && until.value > now ==> ip in s.blocked)
  }

  lemma CleanupKeepsDenials(s: Limiter, ip: string, failing: seq<real>, violating: seq<real>, last: real, t: Times,
                            cfg: Config)
    requires DenialsOk(s, ip, failing, violating, last)
    ensures DenialsOk(Cleanup(s, t.cleanup, cfg), ip, Remembered(failing, last, t, cfg),
                      Remembered(violating, last, t, cfg), if t.cleanup - last >= 120.0 then t.cleanup else last)
  {
  }

  lemma CleanupKeepsBlock(s: Limiter, ip: string, until: Option<real>, now: real, t: Times, cfg: Config)
    requires BlockOk(s, ip, until, now) && now <= t.cleanup
    ensures BlockOk(Cleanup(s, t.cleanup, cfg), ip, until, t.cleanup)
  {
  }

  lemma DispatchKeepsDenials(s: Limiter, log: Log, ip: string, failing: seq<real>, violating: seq<real>, last: real,
                             r: Request, t: Times, cfg: Config)
    requires DenialsOk(s, ip, failing, violating, last) && FailuresOk(s, log) && !r.exempt
    ensures var (s', response) := Dispatch(s, r, t, cfg);
            var kept, noted := Remembered(failing, last, t, cfg), Remembered(violating, last, t, cfg);
            DenialsOk(s', ip,
                      if r.ip != ip then kept
                      else if response.Passed? then []
                      else if response.Limited? then kept + [t.failure] else kept,
                      if r.ip == ip && response.Limited? then noted + [t.violation] else noted,
                      if t.cleanup - last >= 120.0 then t.cleanup else last)
  {
    CleanupKeepsDenials(s, ip, failing, violating, last, t, cfg);
    CleanupKeepsFailures(s, log, t.cleanup, cfg);
    NoBruteForce(Cleanup(s, t.cleanup, cfg), log, r, t.brute);
  }

  lemma DispatchKeepsBlock(s: Limiter, log: Log, ip: string, failing: seq<real>, violating: seq<real>, last: real,
                           until: Option<real>, now: real, r: Request, t: Times, cfg: Config)
    requires DenialsOk(s, ip, failing, violating, last) && FailuresOk(s, log) && !r.exempt
    requires BlockOk(s, ip, until, now) && TimesOk(now, t)
    ensures var (s', response) := Dispatch(s, r, t, cfg);
            BlockOk(s', ip,
                    if r.ip == ip && response.Limited? && |Remembered(failing, last, t, cfg)| >= cfg.blockThreshold
                    then Some(t.punish + cfg.blockDuration as real) else until,
                    t.punish)
  {
    CleanupKeepsDenials(s, ip, failing, violating, last, t, cfg);
    CleanupKeepsBlock(s, ip, until, now, t, cfg);
    CleanupKeepsFailures(s, log, t.cleanup, cfg);
    NoBruteForce(Cleanup(s, t.cleanup, cfg), log, r, t.brute);
  }

  /** In every run the limiter keeps exactly the denials and the block of an address that it should. */
  lemma {:induction false} RunKeepsDenials(start: real, requests: seq<(Request, Times)>, cfg: Config, ip: string)
    ensures DenialsOk(Run(start, requests, cfg).limiter, ip, Failing(start, requests, cfg, ip),
                      Violating(start, requests, cfg, ip), Cleaned(start, requests, cfg))
    ensures BlockOk(Run(start, requests, cfg).limiter, ip, Until(start, requests, cfg, ip),
                    Run(start, requests, cfg).clock)
  {
    if requests != [] {
      var before := requests[..|requests| - 1];
      var (r, t) := requests[|requests| - 1];
      RunKeepsDenials(start, before, cfg, ip);
      if Happens(start, before, r, t, cfg) {
        var world := Run(start, before, cfg);
        var failing, violating := Failing(start, before, cfg, ip), Violating(start, before, cfg, ip);
        RunIsSorted(start, before, cfg, ip);
        DispatchKeepsDenials(world.limiter, world.log, ip, failing, violating, Cleaned(start, before, cfg), r, t, cfg);
        DispatchKeepsBlock(world.limiter, world.log, ip, failing, violating, Cleaned(start, before, cfg),
                           Until(start, before, cfg, ip), world.clock, r, t, cfg);
      }
    }
  }

  /**
   * In every run a request is answered as blocked exactly when its address was denied after at least
   * block_threshold remembered denials in a row, and less than block_duration seconds have passed since the
   * last such denial. (A block that ends at time 0.0 counts as none.)
   */
  lemma BlockedExactly(start: real, requests: seq<(Request, Times)>, cfg: Config, r: Request, t: Times)
    requires Happens(start, requests, r, t, cfg)
    ensures var until, answer := Until(start, requests, cfg, r.ip), Answer(start, requests, r, t, cfg);
            && (answer.Blocked? <==> until.Some? && until.value != 0.0 && t.block < until.value)
            && (answer.Blocked? ==> answer.remaining == until.value - t.block)
            && !answer.BruteForce?
  {
    RunKeepsDenials(start, requests, cfg, r.ip);
    RunIsSorted(start, requests, cfg, r.ip);
    var world := Run(start, requests, cfg);
    CleanupKeepsBlock(world.limiter, r.ip, Until(start, requests, cfg, r.ip), world.clock, t, cfg);
    CleanupKeepsFailures(world.limiter, world.log, t.cleanup, cfg);
    NoBruteForce(Cleanup(world.limiter, t.cleanup, cfg), world.log, r, t.brute);
  }

  /** The answer to the last of some requests, which happened and came from this address. */
  ghost predicate LastAnswered(start: real, requests: seq<(Request, Times)>, cfg: Config, ip: string, passed: bool)
    requires requests != []
  {
    var before := requests[..|requests| - 1];
    var (r, t) := requests[|requests| - 1];
    var answer := Answer(start, before, r, t, cfg);
    Happens(start, before, r, t, cfg) && r.ip == ip && if passed then answer.Passed? else answer.Limited?
  }

  /** How many of the last n requests were denials of an address. */
  ghost function DenialsIn(start: real, requests: seq<(Request, Times)>, n: nat, cfg: Config, ip: string): nat
    requires n <= |requests|
  {
    if n == 0 then 0
    else
      DenialsIn(start, requests[..|requests| - 1], n - 1, cfg, ip) +
      (if LastAnswered(start, requests, cfg, ip, false) then 1 else 0)
  }

  /** Among the last n requests the address was not admitted. */
  ghost predicate NotAdmitted(start: real, requests: seq<(Request, Times)>, n: nat, cfg: Config, ip: string)
    requires n <= |requests|
  {
    n == 0 || (!LastAnswered(start, requests, cfg, ip, true) &&
               NotAdmitted(start, requests[..|requests| - 1], n - 1, cfg, ip))
  }

  /** When the last n requests began. */
  ghost function Since(start: real, requests: seq<(Request, Times)>, n: nat, cfg: Config): real
    requires n <= |requests|
  {
    Run(start, requests[..|requests| - n], cfg).clock
  }

  /** Denials within `MaxWindow` seconds, without an admission between them, are all remembered. */
  lemma {:induction false} DenialsAreRemembered(start: real, requests: seq<(Request, Times)>, n: nat, cfg: Config,
                                                ip: string)
    requires n <= |requests| && NotAdmitted(start, requests, n, cfg, ip)
    requires Run(start, requests, cfg).clock - Since(start, requests, n, cfg) <= MaxWindow(cfg) as real
    ensures Since(start, requests, n, cfg) <= Run(start, requests, cfg).clock
    ensures var failing, denials := Failing(start, requests, cfg, ip), DenialsIn(start, requests, n, cfg, ip);
            |failing| >= denials && (denials > 0 ==> failing[|failing| - 1] >= Since(start, requests, n, cfg))
  {
    if n == 0 {
      assert requests[..|requests| - n] == requests;
    } else {
      var before := requests[..|requests| - 1];
      assert before[..|before| - (n - 1)] == requests[..|requests| - n];
      assert Run(start, before, cfg).clock <= Run(start, requests, cfg).clock;
      DenialsAreRemembered(start, before, n - 1, cfg, ip);
    }
  }

  /**
   * More than block_threshold denials of an address within `MaxWindow` seconds, without an admission between
   * them, block it for block_duration seconds from the last of them.
   */
  lemma DenialsBlock(start: real, requests: seq<(Request, Times)>, n: nat, cfg: Config, ip: string)
    requires 0 < n <= |requests| && NotAdmitted(start, requests, n, cfg, ip)
    requires Run(start, requests, cfg).clock - Since(start, requests, n, cfg) <= MaxWindow(cfg) as real
    requires LastAnswered(start, requests, cfg, ip, false)
    requires DenialsIn(start, requests, n, cfg, ip) > cfg.blockThreshold
    ensures Until(start, requests, cfg, ip) ==
            Some(requests[|requests| - 1].1.punish + cfg.blockDuration as real)
  {
    DenialsAreRemembered(start, requests, n, cfg, ip);
  }

  /**
   * Whatever the table holds, a POST is refused and its address blocked exactly if ten requests were recorded under its
   * path in the last minute, and its address is not blocked already.
   */
  lemma BruteForceBlocks(s: Limiter, r: Request, t: Times, cfg: Config)
    requires !r.exempt
    ensures var s1 := Cleanup(s, t.cleanup, cfg);
            var (s', answer) := Dispatch(s, r, t, cfg);
            && (answer.BruteForce? <==>
                  IsBlocked(s1, r.ip, t.block).None? && r.post &&
                  |Recent(At(s1.requests, Bf(r.ip, r.path)), t.brute - 60.0)| >= 10)
            && (answer.BruteForce? ==>
                  s' == s1.(blocked := s1.blocked[r.ip := t.brute + cfg.blockDuration as real]))
  {
  }

  /** While an address is blocked its requests are answered without reaching the limiter. */
  lemma BlockedIsNotServed(s: Limiter, log: Log, r: Request, t: Times, cfg: Config, now: real)
    requires TimesOk(now, t) && IsBlocked(s, r.ip, t.block).Some? && !r.exempt
    ensures var (s', response) := Dispatch(s, r, t, cfg);
            response.Blocked? && s' == Cleanup(s, t.cleanup, cfg) && Logged(log, r, t, response) == log
  {
  }

  // --------------------------------------------------------------- retry-after

  /** A denial's Retry-After lies between 1 and one more than the window. */
  lemma RetryAfterIsBounded(kept: seq<real>, limit: int, window: int, now: real)
    requires Upto(kept, now) && Judge(Recent(kept, now - window as real), limit, window, now).Denied?
    ensures 1 <= Judge(Recent(kept, now - window as real), limit, window, now).retryAfter <= window + 1
  {
    RecentIsSuffix(kept, |kept|, now - window as real);
  }

  /** It is the first whole second by which the oldest recent admission has left the window. */
  lemma RetryAfterIsTight(kept: seq<real>, limit: int, window: int, now: real)
    requires Judge(Recent(kept, now - window as real), limit, window, now).Denied?
    ensures var recent := Recent(kept, now - window as real);
            recent != [] && var wait := recent[0] + window as real - now;
            var retryAfter := Judge(recent, limit, window, now).retryAfter as real;
            wait > 0.0 && retryAfter - 1.0 <= wait < retryAfter
  {
    RecentAreAfter(kept, |kept|, now - window as real);
  }

  lemma {:induction false} RecentAreAfter(ts: seq<real>, n: nat, cutoff: real)
    requires n <= |ts|
    ensures forall i :: 0 <= i < |RecentUpTo(ts, n, cutoff)| ==> RecentUpTo(ts, n, cutoff)[i] > cutoff
  {
    if n > 0 {
      RecentAreAfter(ts, n - 1, cutoff);
    }
  }

  /**
   * A client that waits exactly that long, with no admission in between, is
   * admitted if and only if the oldest of its last `limit` recent admissions has
   * left the window by then.
   */
  lemma RetryAfterExactly(requests: map<Key, seq<real>>, key: Key, limit: int, window: int, now: real)
    requires Upto(At(requests, key), now) && limit >= 1 && Check(requests, key, limit, window, now).1.Denied?
    ensures var (after, verdict) := Check(requests, key, limit, window, now);
            var recent, retry := At(after, key), now + verdict.retryAfter as real;
            |recent| >= limit &&
            (Check(after, key, limit, window, retry).1.Admitted? <==>
                recent[|recent| - limit] <= retry - window as real)
  {
    var (after, verdict) := Check(requests, key, limit, window, now);
    var recent := At(after, key);
    RecentIsSuffix(At(requests, key), |At(requests, key)|, now - window as real);
    FewerLeft(recent, limit, now + verdict.retryAfter as real - window as real);
  }

  /** Fewer than k of a sorted list are after the cutoff exactly when the k-th last is not. */
  lemma FewerLeft(ts: seq<real>, k: nat, cutoff: real)
    requires Sorted(ts) && 1 <= k <= |ts|
    ensures |Recent(ts, cutoff)| < k <==> ts[|ts| - k] <= cutoff
  {
    RecentIsSuffix(ts, |ts|, cutoff);
  }

  /** With no more recent admissions than the limit, waiting that long is enough. */
  lemma RetryAfterIsHonoured(requests: map<Key, seq<real>>, key: Key, limit: int, window: int, now: real)
    requires Upto(At(requests, key), now) && limit >= 1 && |At(requests, key)| <= limit
    requires Check(requests, key, limit, window, now).1.Denied?
    ensures var (after, verdict) := Check(requests, key, limit, window, now);
            Check(after, key, limit, window, now + verdict.retryAfter as real).1.Admitted?
  {
    RetryAfterExactly(requests, key, limit, window, now);
    RecentIsSuffix(At(requests, key), |At(requests, key)|, now - window as real);
  }

  /** The limits and windows of the requests of an address that reach the limiter. */
  ghost predicate MeetsClasses(requests: seq<(Request, Times)>, ip: string, classes: set<(int, int)>)
  {
    forall i :: 0 <= i < |requests| && requests[i].0.ip == ip && !requests[i].0.exempt ==>
      (requests[i].0.limit, requests[i].0.window) in classes
  }

  /** None of the classes has a larger limit and a window that sees anything. */
  predicate NoneLarger(limit: int, classes: set<(int, int)>)
  {
    forall c :: c in classes ==> c.0 <= limit || c.1 <= 0
  }

  lemma {:induction false} RecentIsShorter(ts: seq<real>, n: nat, cutoff: real)
    requires n <= |ts|
    ensures |RecentUpTo(ts, n, cutoff)| <= n
  {
    if n > 0 {
      RecentIsShorter(ts, n - 1, cutoff);
    }
  }

  lemma CheckKeepsLimit(kept: seq<real>, limit: nat, r: Request, t: real)
    requires |kept| <= limit && limit >= 1 && AllUpTo(kept, t) && (r.limit <= limit || r.window <= 0)
    ensures |Recent(kept, t - r.window as real)| <= limit
    ensures |Recent(kept, t - r.window as real)| < r.limit ==> |Recent(kept, t - r.window as real)| < limit
  {
    RecentIsShorter(kept, |kept|, t - r.window as real);
    if r.window <= 0 {
      NoneRecent(kept, |kept|, t - r.window as real);
    }
  }

  lemma DispatchKeepsLimit(s: Limiter, ip: string, limit: nat, r: Request, t: Times, now: real, cfg: Config)
    requires |At(s.requests, Ip(ip))| <= limit && limit >= 1 && AllUpTo(At(s.requests, Ip(ip)), now) && TimesOk(now, t)
    requires r.ip == ip && !r.exempt ==> r.limit <= limit || r.window <= 0
    ensures |At(Dispatch(s, r, t, cfg).0.requests, Ip(ip))| <= limit
  {
    CleanupOnlyDrops(s, t.cleanup, cfg, ip);
    if r.ip == ip && !r.exempt {
      CheckKeepsLimit(At(Cleanup(s, t.cleanup, cfg).requests, Ip(ip)), limit, r, t.check);
    }
  }

  /** An address that meets no larger limit never has more recent admissions than the limit. */
  lemma {:induction false} LargestLimitIsKept(start: real, requests: seq<(Request, Times)>, cfg: Config, ip: string,
                                              classes: set<(int, int)>, limit: nat)
    requires MeetsClasses(requests, ip, classes) && NoneLarger(limit, classes) && limit >= 1
    ensures |At(Run(start, requests, cfg).limiter.requests, Ip(ip))| <= limit
  {
    if requests != [] {
      var n := |requests| - 1;
      var before := Run(start, requests[..n], cfg);
      LargestLimitIsKept(start, requests[..n], cfg, ip, classes, limit);
      RunIsSorted(start, requests[..n], cfg, ip);
      var (r, t) := requests[n];
      if TimesOk(before.clock, t) {
        assert r.ip == ip && !r.exempt ==> (r.limit, r.window) in classes;
        DispatchKeepsLimit(before.limiter, ip, limit, r, t, before.clock, cfg);
      }
    }
  }

  /** Denials in between only prune: they change no later decision. */
  lemma DenialsInBetween(requests: map<Key, seq<real>>, key: Key, limit: int, window: int, t: real, later: real)
    requires Check(requests, key, limit, window, t).1.Denied? && t <= later
    ensures Check(Check(requests, key, limit, window, t).0, key, limit, window, later).1 ==
            Check(requests, key, limit, window, later).1
  {
    PrunedSame(At(requests, key), t - window as real);
  }

  /** A client that is denied waits as told and is admitted. */
  ghost predicate Served(requests: map<Key, seq<real>>, ip: string, limit: int, window: int, now: real)
  {
    var (after, verdict) := Check(requests, Ip(ip), limit, window, now);
    verdict.Denied? ==> Check(after, Ip(ip), limit, window, now + verdict.retryAfter as real).1.Admitted?
  }

  /** After every run in which the address meets these classes, waiting as told under one is enough. */
  ghost predicate WaitingServes(limit: int, window: int, classes: set<(int, int)>, ip: string, cfg: Config)
  {
    forall start, requests, now ::
      MeetsClasses(requests, ip, classes) && Run(start, requests, cfg).clock <= now ==>
        Served(Run(start, requests, cfg).limiter.requests, ip, limit, window, now)
  }

  /** A window of one second has passed whatever the wait. */
  lemma OneSecondPasses(requests: map<Key, seq<real>>, ip: string, limit: int, window: int, now: real)
    requires Upto(At(requests, Ip(ip)), now) && limit >= 1 && window <= 1
    ensures Served(requests, ip, limit, window, now)
  {
    var (after, verdict) := Check(requests, Ip(ip), limit, window, now);
    if verdict.Denied? {
      RetryAfterIsBounded(At(requests, Ip(ip)), limit, window, now);
      var recent := At(after, Ip(ip));
      RecentIsSuffix(At(requests, Ip(ip)), |At(requests, Ip(ip))|, now - window as real);
      NoneRecent(recent, |recent|, now + verdict.retryAfter as real - window as real);
    }
  }

  /**
   * Over whole runs: an address that is denied is told to wait between 1 and
   * window + 1 seconds, and if it meets no larger limit, or the window is one
   * second, it is admitted when it has.
   */
  lemma WaitingIsEnough(start: real, requests: seq<(Request, Times)>, cfg: Config, ip: string,
                        classes: set<(int, int)>, limit: int, window: int, now: real)
    requires MeetsClasses(requests, ip, classes) && limit >= 1 && (window <= 1 || NoneLarger(limit, classes))
    requires Run(start, requests, cfg).clock <= now
    ensures var before := Run(start, requests, cfg).limiter.requests;
            var verdict := Check(before, Ip(ip), limit, window, now).1;
            (verdict.Denied? ==> 1 <= verdict.retryAfter <= window + 1) && Served(before, ip, limit, window, now)
  {
    var before := Run(start, requests, cfg).limiter.requests;
    assert Upto(At(before, Ip(ip)), now) by {
      RunIsSorted(start, requests, cfg, ip);
    }
    if Check(before, Ip(ip), limit, window, now).1.Denied? {
      RetryAfterIsBounded(At(before, Ip(ip)), limit, window, now);
      if window <= 1 {
        OneSecondPasses(before, ip, limit, window, now);
      } else {
        LargestLimitIsKept(start, requests, cfg, ip, classes, limit);
        RetryAfterIsHonoured(before, Ip(ip), limit, window, now);
      }
    }
  }

  /** One visit, and k more nine tenths of a second later. */
  function Burst(k: nat): seq<real>
  {
    if k == 0 then [0.0] else Burst(k - 1) + [0.9]
  }

  function Visits(ip: string, limit: int, window: int, k: nat): seq<(Request, Times)>
  {
    if k == 0 then [(Visit(ip, limit, window), Moment(0.0))]
    else Visits(ip, limit, window, k - 1) + [(Visit(ip, limit, window), Moment(0.9))]
  }

  lemma {:induction false} VisitsMeet(ip: string, limit: int, window: int, k: nat, classes: set<(int, int)>)
    requires (limit, window) in classes
    ensures MeetsClasses(Visits(ip, limit, window, k), ip, classes)
  {
    if k > 0 {
      VisitsMeet(ip, limit, window, k - 1, classes);
    }
  }

  /** All of it is after a cutoff before the first visit, and the k later ones after one before them. */
  lemma {:induction false} RecentOfBurst(k: nat, cutoff: real)
    ensures |Burst(k)| == k + 1 && Burst(k)[0] == 0.0
    ensures cutoff < 0.0 ==> Recent(Burst(k), cutoff) == Burst(k)
    ensures 0.0 <= cutoff < 0.9 ==> |Recent(Burst(k), cutoff)| == k
  {
    if k == 0 {
      RecentOfOne(0.0, cutoff);
    } else {
      RecentOfBurst(k - 1, cutoff);
      RecentOfSnoc(Burst(k - 1), 0.9, cutoff);
    }
  }

  ghost predicate Bursting(world: World, ip: string, k: nat)
  {
    && At(world.limiter.requests, Ip(ip)) == Burst(k) && world.clock <= 0.9
    && ip !in world.limiter.blocked && world.limiter.lastCleanup == 0.0
  }

  lemma BurstGoesOn(world: World, ip: string, limit: int, window: int, k: nat, cfg: Config, next: World)
    requires Bursting(world, ip, k) && k + 1 < limit && window >= 1
    requires next == Advance(world, Visit(ip, limit, window), Moment(0.9), cfg)
    ensures Bursting(next, ip, k + 1)
  {
    RecentOfBurst(k, 0.9 - window as real);
    assert Cleanup(world.limiter, 0.9, cfg) == world.limiter;
    NextVisit(world, ip, limit, window, 0.9, cfg, next);
  }

  lemma {:induction false} AfterVisits(ip: string, limit: int, window: int, k: nat, cfg: Config)
    requires k < limit && window >= 1
    ensures Bursting(Run(0.0, Visits(ip, limit, window, k), cfg), ip, k)
  {
    if k == 0 {
      var world := FirstVisit(ip, limit, window, 0.0, cfg);
    } else {
      var before := Run(0.0, Visits(ip, limit, window, k - 1), cfg);
      AfterVisits(ip, limit, window, k - 1, cfg);
      RunOn(0.0, Visits(ip, limit, window, k - 1), Visit(ip, limit, window), Moment(0.9), cfg);
      BurstGoesOn(before, ip, limit, window, k - 1, cfg, Run(0.0, Visits(ip, limit, window, k), cfg));
    }
  }

  /** A burst that is denied under a smaller limit is told to come back too early. */
  lemma BurstIsMisled(requests: map<Key, seq<real>>, ip: string, limit: nat, window: int)
    requires limit >= 1 && window >= 2 && At(requests, Ip(ip)) == Burst(limit)
    ensures !Served(requests, ip, limit, window, 1.1)
  {
    RecentOfBurst(limit, 1.1 - window as real);
    var (after, verdict) := Check(requests, Ip(ip), limit, window, 1.1);
    assert (window as real - 1.1).Floor == window - 2;
    assert verdict == Denied(window - 1);
    assert At(after, Ip(ip)) == Burst(limit);
    RecentOfBurst(limit, 1.1 + (window - 1) as real - window as real);
  }

  /** For every larger limit a run after which an address waits as told and is denied again. */
  lemma RetryAfterCanMislead(limit: nat, window: int, larger: int, seen: int, ip: string, cfg: Config)
      returns (requests: seq<(Request, Times)>)
    requires 1 <= limit < larger && window >= 2 && seen >= 1
    ensures MeetsClasses(requests, ip, {(larger, seen)})
    ensures Run(0.0, requests, cfg).clock <= 1.1
    ensures !Served(Run(0.0, requests, cfg).limiter.requests, ip, limit, window, 1.1)
  {
    requests := Visits(ip, larger, seen, limit);
    VisitsMeet(ip, larger, seen, limit, {(larger, seen)});
    AfterVisits(ip, larger, seen, limit, cfg);
    BurstIsMisled(Run(0.0, requests, cfg).limiter.requests, ip, limit, window);
  }

  /**
   * The exact condition: of the classes an address meets, waiting as told under a
   * limit and a window is enough in every run if and only if none of them has a
   * larger limit (and a window that sees anything), or the window is one second.
   */
  lemma WaitingServesExactly(limit: int, window: int, classes: set<(int, int)>, ip: string, cfg: Config)
    requires limit >= 1
    ensures WaitingServes(limit, window, classes, ip, cfg) <==> window <= 1 || NoneLarger(limit, classes)
  {
    if window <= 1 || NoneLarger(limit, classes) {
      forall start, requests, now | MeetsClasses(requests, ip, classes) && Run(start, requests, cfg).clock <= now
        ensures Served(Run(start, requests, cfg).limiter.requests, ip, limit, window, now)
      {
        WaitingIsEnough(start, requests, cfg, ip, classes, limit, window, now);
      }
    } else {
      var c :| c in classes && c.0 > limit && c.1 > 0;
      var requests := RetryAfterCanMislead(limit, window, c.0, c.1, ip, cfg);
      assert MeetsClasses(requests, ip, classes);
      assert !Served(Run(0.0, requests, cfg).limiter.requests, ip, limit, window, 1.1);
    }
  }

  // ------------------------------------------------------------- the middleware

  /** The middleware object; each method is given the readings of the clock it takes. */
  class RateLimitMiddleware {
    const cfg: Config
    var requests: map<Key, seq<real>>
    var blocked: map<string, real>
    var suspicious: map<string, seq<real>>
    var lastCleanup: real

    function Model(): Limiter reads this { Limiter(requests, blocked, suspicious, lastCleanup) }

    constructor (cfg: Config, now: real)
      ensures this.cfg == cfg && Model() == Start(now).limiter
    {
      this.cfg := cfg;
      requests, blocked, suspicious, lastCleanup := map[], map[], map[], now;
    }

    method CleanupOldEntries(now: real)
      modifies this
      ensures Model() == Cleanup(old(Model()), now, cfg)
    {
      if now - lastCleanup < 120.0 {
        return;
      }
      lastCleanup := now;
      var cutoff := now - MaxWindow(cfg) as real;
      var expiredKeys := set k | k in requests && Stale(requests[k], cutoff);
      requests := requests - expiredKeys;
      var expiredBlocks := set ip | ip in blocked && now > blocked[ip];
      blocked := blocked - expiredBlocks;
      var expiredSuspicious := set ip | ip in suspicious && Stale(suspicious[ip], cutoff);
      suspicious := suspicious - expiredSuspicious;
    }

    /** Drops the timestamps up to the cutoff, one at a time. */
    method Prune(timestamps: seq<real>, cutoff: real) returns (kept: seq<real>)
      ensures kept == Recent(timestamps, cutoff)
    {
      kept := [];
      for i := 0 to |timestamps|
        invariant kept == RecentUpTo(timestamps, i, cutoff)
      {
        if timestamps[i] > cutoff {
          kept := kept + [timestamps[i]];
        }
      }
    }

    method CheckRateLimit(key: Key, limit: int, window: int, now: real) returns (verdict: Verdict)
      modifies this
      ensures (requests, verdict) == Check(old(requests), key, limit, window, now)
      ensures Model() == old(Model()).(requests := requests)
    {
      var cutoff := now - window as real;
      var timestamps := if key in requests then requests[key] else [];
      var kept := Prune(timestamps, cutoff);
      requests := requests[key := kept];
      var count := |kept|;
      if count >= limit {
        if count == 0 {
          return IndexError;
        }
        return Denied(Max((kept[0] + window as real - now).Floor + 1, 1));
      }
      requests := requests[key := kept + [now]];
      assert requests == old(requests)[key := kept + [now]];
      verdict := Admitted;
    }

    method DetectBruteForcePattern(r: Request, now: real) returns (detected: bool)
      modifies this`blocked
      ensures detected == (|Recent(At(requests, Bf(r.ip, r.path)), now - 60.0)| >= 10)
      ensures blocked == if detected then old(blocked)[r.ip := now + cfg.blockDuration as real] else old(blocked)
    {
      var key := Bf(r.ip, r.path);
      var timestamps := if key in requests then requests[key] else [];
      var recent := Prune(timestamps, now - 60.0);
      detected := |recent| >= 10;
      if detected {
        blocked := blocked[r.ip := now + cfg.blockDuration as real];
      }
    }

    method RecordDenial(ip: string, t: Times)
      modifies this
      ensures Model() == Punish(old(Model()), ip, t, cfg)
    {
      var failures := At(requests, Fail(ip));
      var failureCount := |failures|;
      requests := requests[Fail(ip) := failures + [t.failure]];
      suspicious := suspicious[ip := At(suspicious, ip) + [t.violation]];
      if failureCount >= cfg.blockThreshold {
        blocked := blocked[ip := t.punish + cfg.blockDuration as real];
      }
    }

    method HandleRequest(r: Request, t: Times) returns (response: Response)
      modifies this
      ensures (Model(), response) == Dispatch(old(Model()), r, t, cfg)
    {
      if r.exempt {
        return Passed;
      }
      CleanupOldEntries(t.cleanup);
      var left := IsBlocked(Model(), r.ip, t.block);
      if left.Some? {
        return Blocked(left.value);
      }
      if r.post {
        var detected := DetectBruteForcePattern(r, t.brute);
        if detected {
          return BruteForce;
        }
      }
      var verdict := CheckRateLimit(Ip(r.ip), r.limit, r.window, t.check);
      match verdict
      case IndexError => response := Crashed;
      case Denied(retryAfter) =>
        RecordDenial(r.ip, t);
        response := Limited(retryAfter);
      case Admitted =>
        requests := requests - {Fail(r.ip)};
        response := Passed;
    }
  }
}
