/**
 * Connecting to the first of several addresses that answers
 * (`start_connection` and `_connect_sock`, backend/uploads/66a60f4e64164e7694427d9c0e5787ec_impl.py).
 *
 * Sockets are numbered in the order they are created.  When attempts are raced,
 * a Step is either an event of the race or a socket event of one attempt, and
 * any legal sequence of steps is an interleaving of the attempts.
 */
module StartConnection {
  import opened Common
  import opened StaggeredRace
  import opened AddrInfos

  /** The two kinds of exceptions an attempt records. */
  predicate Recordable(e: Error) { e.OsError? || e.RuntimeError? }

  function Text(e: Error): string
  {
    match e
    case OsError(_, text) => text
    case RuntimeError(text) => text
    case OtherError(text) => text
    case CancelledError => ""
  }

  /** The error raised for a non-empty list of recorded exceptions; `combined` is the joined message. */
  function Combine(all: seq<Error>, combined: string): Error
    requires all != []
  {
    var first := all[0];
    if |all| == 1 || forall e :: e in all ==> Text(e) == Text(first) then first
    else if first.OsError? && forall e :: e in all ==> e.OsError? && e.errno == first.errno then
      OsError(first.errno, combined)
    else if first.RuntimeError? && forall e :: e in all ==> e.RuntimeError? then RuntimeError(combined)
    else OsError(None, combined)
  }

  predicate SameText(all: seq<Error>) { forall d, e :: d in all && e in all ==> Text(d) == Text(e) }

  /**
   * If the recorded exceptions all read the same, the first is raised again.  Otherwise the message is
   * the joined one, and the error is a RuntimeError exactly if they all are, and else an OSError,
   * with an errno exactly if they are all OSErrors with that errno.
   */
  lemma CombineKeepsWhatAgrees(all: seq<Error>, combined: string)
    requires all != [] && forall e :: e in all ==> Recordable(e)
    ensures SameText(all) ==> Combine(all, combined) == all[0]
    ensures !SameText(all) ==>
              var e := Combine(all, combined);
              && Recordable(e) && Text(e) == combined
              && (e.RuntimeError? <==> forall d :: d in all ==> d.RuntimeError?)
              && (e.OsError? ==> forall n :: e.errno == Some(n) <==> forall d :: d in all ==> HasErrno(d, n))
  {
    assert all[0] in all;
    if |all| > 1 && !SameText(all) && Combine(all, combined).OsError? {
      forall n ensures Combine(all, combined).errno == Some(n) <==> forall d :: d in all ==> HasErrno(d, n) {
        assert (forall d :: d in all ==> HasErrno(d, n)) ==> HasErrno(all[0], n);
      }
    }
  }

  predicate HasErrno(e: Error, n: int) { e.OsError? && e.errno == Some(n) }

  /** What a connection attempt comes to; IndexError is Python's, from `all_exceptions[0]`. */
  datatype Connection =
    | Connected(sock: nat)
    | Refused(error: Error)
    | Propagated(error: Error)
    | IndexError
    | ValueError

  function Report(all: seq<Error>, combined: string): Connection
  {
    if all == [] then IndexError else Refused(Combine(all, combined))
  }

  function Flatten(lists: seq<seq<Error>>): seq<Error>
  {
    if lists == [] then [] else Flatten(lists[..|lists| - 1]) + lists[|lists| - 1]
  }

  lemma {:induction false} FlattenEmpty(lists: seq<seq<Error>>)
    ensures Flatten(lists) == [] <==> forall i :: 0 <= i < |lists| ==> lists[i] == []
  {
    if lists != [] {
      FlattenEmpty(lists[..|lists| - 1]);
    }
  }

  /** The sockets created so far are 0 .. created - 1. */
  class Sockets {
    var created: nat
    var closed: set<nat>

    constructor ()
      ensures created == 0 && closed == {}
    {
      created, closed := 0, {};
    }

    /** Everything is closed, except for the kept one. */
    ghost predicate OnlyOpen(kept: Option<nat>)
      reads this
    {
      forall k: nat :: k in closed <==> k < created && kept != Some(k)
    }
  }

  // ------------------------------------------------------------- one attempt

  /** A local address: of the remote address' family or not, and what binding to it raises. */
  datatype Bind = Bind(sameFamily: bool, error: Option<Error>)

  /** Closing a socket raises nothing but an OSError. */
  type CloseError = e: Error | e.OsError? witness OsError(None, "")

  /** What the operating system answers to one attempt. */
  datatype Answers = Answers(create: Option<Error>, binds: Option<seq<Bind>>, connect: Option<Error>,
                             close: Option<CloseError>)

  datatype SockResult = Got(sock: nat) | Threw(error: Error)

  /** Every matching local address of the first i is refused by the system. */
  predicate NoneOfFirst(binds: seq<Bind>, i: nat)
    requires i <= |binds|
  {
    forall j :: 0 <= j < i && binds[j].sameFamily ==> binds[j].error.Some? && binds[j].error.value.OsError?
  }

  /** The loop ends at address i: it can be bound, or binding it raises something that is not an OSError. */
  predicate EndsAt(binds: seq<Bind>, i: nat)
  {
    && i < |binds| && binds[i].sameFamily && NoneOfFirst(binds, i)
    && (binds[i].error.None? || !binds[i].error.value.OsError?)
  }

  function BindError(e: Error): Error
    requires e.OsError?
  {
    OsError(e.errno, "error while attempting to bind: " + e.text)
  }

  /** The errors of the matching ones of the first i. */
  function Noted(binds: seq<Bind>, i: nat): seq<Error>
    requires i <= |binds| && NoneOfFirst(binds, i)
  {
    if i == 0 then []
    else if binds[i - 1].sameFamily then Noted(binds, i - 1) + [BindError(binds[i - 1].error.value)]
    else Noted(binds, i - 1)
  }

  /** A local address is bound, after these errors. */
  ghost predicate Bound(binds: seq<Bind>, mine: seq<Error>)
  {
    exists i: nat :: EndsAt(binds, i) && binds[i].error.None? && mine == Noted(binds, i)
  }

  /** Binding raises e, after these errors: another exception, the last refusal, or that nothing matches. */
  ghost predicate BindRaises(binds: seq<Bind>, e: Error, mine: seq<Error>)
  {
    || (exists i: nat :: EndsAt(binds, i) && binds[i].error == Some(e) && mine == Noted(binds, i))
    || (NoneOfFirst(binds, |binds|) &&
          if Noted(binds, |binds|) == [] then e == OsError(None, "no matching local address found") && mine == []
          else mine + [e] == Noted(binds, |binds|))
  }

  /** The bind loop: the first local address that can be bound ends it; errors before are recorded. */
  method BindLocal(binds: seq<Bind>) returns (thrown: Option<Error>, mine: seq<Error>)
    ensures thrown.None? ==> Bound(binds, mine)
    ensures thrown.Some? ==> BindRaises(binds, thrown.value, mine)
  {
    mine := [];
    for i := 0 to |binds|
      invariant NoneOfFirst(binds, i) && mine == Noted(binds, i)
    {
      if binds[i].sameFamily {
        match binds[i].error
        case None =>
          assert EndsAt(binds, i);
          return None, mine;
        case Some(e) =>
          if !e.OsError? {
            assert EndsAt(binds, i);
            return Some(e), mine;
          }
          mine := mine + [BindError(e)];
      }
    }
    if mine != [] {
      return Some(mine[|mine| - 1]), mine[..|mine| - 1];
    }
    return Some(OsError(None, "no matching local address found")), mine;
  }

  /** The socket is there and a local address bound, or none asked for, after these errors. */
  ghost predicate Ready(a: Answers, mine: seq<Error>)
  {
    a.create.None? && if a.binds.None? then mine == [] else Bound(a.binds.value, mine)
  }

  /** The attempt gets through. */
  ghost predicate Succeeds(a: Answers)
  {
    a.connect.None? && exists mine :: Ready(a, mine)
  }

  /** The first exception of the attempt, after these errors. */
  ghost predicate Raises(a: Answers, e: Error, mine: seq<Error>)
  {
    || (a.create == Some(e) && mine == [])
    || (a.create.None? && a.binds.Some? && BindRaises(a.binds.value, e, mine))
    || (Ready(a, mine) && a.connect == Some(e))
  }

  /**
   * The attempt fails: it raises the first exception, or the one from closing the socket after it, and
   * records the errors before, the first exception if it is an OSError or a RuntimeError, and the
   * one from closing.
   */
  ghost predicate Fails(a: Answers, raised: Error, mine: seq<Error>)
  {
    exists e, before :: Raises(a, e, before) && Ended(a, e, before, raised, mine)
  }

  predicate Ended(a: Answers, e: Error, before: seq<Error>, raised: Error, mine: seq<Error>)
  {
    var noted := if Recordable(e) then before + [e] else before;
    if a.create.None? && a.close.Some? then raised == a.close.value && mine == noted + [a.close.value]
    else raised == e && mine == noted
  }

  lemma EndsInOnePlace(binds: seq<Bind>, i: nat)
    requires EndsAt(binds, i)
    ensures !NoneOfFirst(binds, |binds|) && forall j: nat :: EndsAt(binds, j) ==> j == i
  {
  }

  /** The bind loop has one result. */
  lemma BindsInOneWay(binds: seq<Bind>, mine: seq<Error>)
    requires Bound(binds, mine)
    ensures forall e, m :: !BindRaises(binds, e, m)
    ensures forall m :: Bound(binds, m) ==> m == mine
  {
    var i: nat :| EndsAt(binds, i) && binds[i].error.None? && mine == Noted(binds, i);
    EndsInOnePlace(binds, i);
  }

  lemma BindRaisesInOneWay(binds: seq<Bind>, d: Error, m: seq<Error>)
    requires BindRaises(binds, d, m)
    ensures forall e, n :: BindRaises(binds, e, n) ==> e == d && n == m
  {
    if NoneOfFirst(binds, |binds|) {
      forall e, n | BindRaises(binds, e, n) ensures e == d && n == m {
        assert forall i: nat :: !EndsAt(binds, i);
        if Noted(binds, |binds|) != [] {
          assert (m + [d])[..|m|] == m && (n + [e])[..|m|] == n;
        }
      }
    } else {
      var i: nat :| EndsAt(binds, i) && binds[i].error == Some(d) && m == Noted(binds, i);
      EndsInOnePlace(binds, i);
    }
  }

  lemma RaisesInOneWay(a: Answers, d: Error, m: seq<Error>, e: Error, n: seq<Error>)
    requires Raises(a, d, m) && Raises(a, e, n)
    ensures d == e && m == n
  {
    if a.create.None? && a.binds.Some? {
      if BindRaises(a.binds.value, d, m) {
        BindRaisesInOneWay(a.binds.value, d, m);
        if Bound(a.binds.value, n) {
          BindsInOneWay(a.binds.value, n);
        }
      } else {
        BindsInOneWay(a.binds.value, m);
      }
    }
  }

  /** An attempt either gets through or fails, and in one way. */
  lemma FailsInOneWay(a: Answers, d: Error, e: Error, m: seq<Error>, n: seq<Error>)
    requires Fails(a, d, m)
    ensures !Succeeds(a)
    ensures Fails(a, e, n) ==> d == e && m == n
  {
    var d0, m0 :| Raises(a, d0, m0) && Ended(a, d0, m0, d, m);
    if Fails(a, e, n) {
      var e0, n0 :| Raises(a, e0, n0) && Ended(a, e0, n0, e, n);
      RaisesInOneWay(a, d0, m0, e0, n0);
    }
    if mine :| Ready(a, mine) && a.connect.None? {
      if a.binds.Some? {
        BindsInOneWay(a.binds.value, mine);
      }
    }
  }

  /**
   * One attempt outside a race: at most one socket is created; it is the result,
   * or it is closed.  It is the result exactly if the attempt gets through.
   */
  method ConnectSock(net: Sockets, a: Answers) returns (r: SockResult, mine: seq<Error>)
    modifies net
    ensures net.created == old(net.created) + (if a.create.None? then 1 else 0)
    ensures r.Got? ==> r.sock == old(net.created) < net.created && net.closed == old(net.closed)
    ensures r.Threw? ==>
              forall k: nat :: k in net.closed <==> k in old(net.closed) || old(net.created) <= k < net.created
    ensures r.Got? <==> Succeeds(a)
    ensures r.Threw? ==> Fails(a, r.error, mine)
  {
    var thrown := a.create;
    mine := [];
    if thrown.None? {
      var sock := net.created;
      net.created := sock + 1;
      if a.binds.Some? { thrown, mine := BindLocal(a.binds.value); }
      if thrown.None? {
        assert Ready(a, mine);
        thrown := a.connect;
      }
      if thrown.None? { return Got(sock), mine; }
    }
    ghost var first, before := thrown.value, mine;
    assert Raises(a, first, before);
    if Recordable(thrown.value) { mine := mine + [thrown.value]; }
    if a.create.None? {
      net.closed := net.closed + {net.created - 1};
      if a.close.Some? {
        mine, thrown := mine + [a.close.value], Some(a.close.value);
      }
    }
    assert Ended(a, first, before, thrown.value, mine);
    FailsInOneWay(a, thrown.value, thrown.value, mine, mine);
    return Threw(thrown.value), mine;
  }

  ghost predicate FailsWith(a: Answers, e: Error) { exists mine :: Fails(a, e, mine) }

  /** The first n attempts fail with what is recorded: these are their exceptions. */
  ghost predicate AllFail(answers: nat -> Answers, n: nat, lists: seq<seq<Error>>)
  {
    |lists| == n && forall k :: 0 <= k < n ==> FailsRecordably(answers(k), lists[k])
  }

  ghost predicate EachFails(answers: nat -> Answers, n: nat) { exists lists :: AllFail(answers, n, lists) }

  ghost predicate FailsRecordably(a: Answers, mine: seq<Error>)
  {
    exists e :: Recordable(e) && Fails(a, e, mine)
  }

  /**
   * What n addresses tried in turn come to, m of them: all but the last one tried fail with what is
   * recorded; it gets through, raises something else, or was the last of all and fails alike.
   */
  ghost predicate InTurn(c: Connection, m: nat, answers: nat -> Answers, n: nat, combined: string)
  {
    && 0 < m <= n && EachFails(answers, m - 1)
    && match c
       case Connected(_) => Succeeds(answers(m - 1))
       case Propagated(e) => !Recordable(e) && FailsWith(answers(m - 1), e)
       case Refused(e) => m == n && exists lists :: AllFail(answers, n, lists) && Report(Flatten(lists), combined) == c
       case _ => false
  }

  lemma AllFailInOneWay(answers: nat -> Answers, m: nat, lists: seq<seq<Error>>, n: nat, others: seq<seq<Error>>)
    requires AllFail(answers, m, lists) && AllFail(answers, n, others) && m <= n
    ensures lists == others[..m]
  {
    forall k | 0 <= k < m ensures lists[k] == others[k] {
      var d :| Recordable(d) && Fails(answers(k), d, lists[k]);
      var e :| Recordable(e) && Fails(answers(k), e, others[k]);
      FailsInOneWay(answers(k), d, e, lists[k], others[k]);
    }
  }

  lemma NotAmongFailed(answers: nat -> Answers, m: nat, n: nat, lists: seq<seq<Error>>)
    requires AllFail(answers, n, lists) && m < n
    ensures !Succeeds(answers(m)) && forall e :: FailsWith(answers(m), e) ==> Recordable(e)
  {
    assert FailsRecordably(answers(m), lists[m]);
    var d :| Recordable(d) && Fails(answers(m), d, lists[m]);
    FailsInOneWay(answers(m), d, d, lists[m], lists[m]);
    forall e, mine | Fails(answers(m), e, mine) ensures Recordable(e) {
      FailsInOneWay(answers(m), d, e, lists[m], mine);
    }
  }

  /** There is one such result: so each of them comes about exactly when the attempts are as it says. */
  lemma InTurnIsExact(c: Connection, m: nat, d: Connection, k: nat, answers: nat -> Answers, n: nat, combined: string)
    requires InTurn(c, m, answers, n, combined) && InTurn(d, k, answers, n, combined) && m <= k
    ensures m == k && (c == d || (c.Connected? && d.Connected?))
  {
    var lists :| AllFail(answers, k - 1, lists);
    if m < k {
      assert c.Propagated? ==> FailsWith(answers(m - 1), c.error);
      NotAmongFailed(answers, m - 1, k - 1, lists);
    } else if c.Propagated? && d.Propagated? {
      var p :| Fails(answers(m - 1), c.error, p);
      var q :| Fails(answers(m - 1), d.error, q);
      FailsInOneWay(answers(m - 1), c.error, d.error, p, q);
    } else if c.Connected? || d.Connected? {
      SucceedsOnly(c, d, answers, n, m, combined);
    } else {
      LastOnly(c, d, answers, n, combined);
    }
  }

  lemma FailsNotSucceeds()
    ensures forall a, e :: FailsWith(a, e) ==> !Succeeds(a)
  {
    forall a, e | FailsWith(a, e) ensures !Succeeds(a) {
      var mine :| Fails(a, e, mine);
      FailsInOneWay(a, e, e, mine, mine);
    }
  }

  lemma NoneSucceeds(answers: nat -> Answers, n: nat)
    ensures (exists lists :: AllFail(answers, n, lists)) ==> forall k :: 0 <= k < n ==> !Succeeds(answers(k))
  {
    if lists :| AllFail(answers, n, lists) {
      forall k | 0 <= k < n ensures !Succeeds(answers(k)) {
        NotAmongFailed(answers, k, n, lists);
      }
    }
  }

  lemma SucceedsOnly(c: Connection, d: Connection, answers: nat -> Answers, n: nat, m: nat, combined: string)
    requires InTurn(c, m, answers, n, combined) && InTurn(d, m, answers, n, combined) && (c.Connected? || d.Connected?)
    ensures c.Connected? && d.Connected?
  {
    FailsNotSucceeds();
    NoneSucceeds(answers, n);
  }

  lemma LastOnly(c: Connection, d: Connection, answers: nat -> Answers, n: nat, combined: string)
    requires InTurn(c, n, answers, n, combined) && InTurn(d, n, answers, n, combined)
    requires (c.Refused? || d.Refused?) && !c.Connected? && !d.Connected?
    ensures c == d
  {
    if c.Refused? && d.Refused? {
      var p :| AllFail(answers, n, p) && Report(Flatten(p), combined) == c;
      var q :| AllFail(answers, n, q) && Report(Flatten(q), combined) == d;
      AllFailInOneWay(answers, n, p, n, q);
      assert q[..n] == q;
    } else {
      var e := if c.Propagated? then c.error else d.error;
      var lists :| AllFail(answers, n, lists);
      assert FailsWith(answers(n - 1), e);
      NotAmongFailed(answers, n - 1, n, lists);
    }
  }

  /** One address after the other, until one connects; `m` is how many were tried. */
  method ConnectInTurn(net: Sockets, n: nat, answers: nat -> Answers, combined: string) returns (c: Connection, m: nat)
    requires net.created == 0 && net.closed == {}
    requires n > 0
    modifies net
    ensures net.OnlyOpen(if c.Connected? then Some(c.sock) else None)
    ensures c.Connected? ==> c.sock == net.created - 1
    ensures InTurn(c, m, answers, n, combined)
  {
    var exceptions := [];
    m := 0;
    while m < n
      invariant m <= n && net.OnlyOpen(None) && net.created <= m
      invariant AllFail(answers, m, exceptions)
    {
      var r, mine := ConnectSock(net, answers(m));
      m := m + 1;
      match r
      case Got(sock) => return Connected(sock), m;
      case Threw(e) =>
        assert FailsWith(answers(m - 1), e);
        if !Recordable(e) { return Propagated(e), m; }
      exceptions := exceptions + [mine];
    }
    SomethingRecorded(answers(0), exceptions[0]);
    FlattenEmpty(exceptions);
    assert AllFail(answers, n - 1, exceptions[..n - 1]);
    c := Report(Flatten(exceptions), combined);
  }

  lemma SomethingRecorded(a: Answers, mine: seq<Error>)
    requires FailsRecordably(a, mine)
    ensures mine != []
  {
  }

  /** Whatever the system refuses in the attempt, it refuses with this errno. */
  predicate RefusedAlike(a: Answers, n: int)
  {
    && (a.create.Some? ==> HasErrno(a.create.value, n)) && (a.connect.Some? ==> HasErrno(a.connect.value, n))
    && (a.close.Some? ==> HasErrno(a.close.value, n))
    && (a.binds.Some? ==>
          (forall b :: b in a.binds.value && b.error.Some? ==> HasErrno(b.error.value, n)) &&
          (exists b :: b in a.binds.value && b.sameFamily))
  }

  lemma {:induction false} NotedAlike(binds: seq<Bind>, i: nat, n: int)
    requires i <= |binds| && NoneOfFirst(binds, i)
    requires forall b :: b in binds && b.error.Some? ==> HasErrno(b.error.value, n)
    ensures forall e :: e in Noted(binds, i) ==> HasErrno(e, n)
    ensures (exists j :: 0 <= j < i && binds[j].sameFamily) ==> Noted(binds, i) != []
  {
    if i > 0 {
      NotedAlike(binds, i - 1, n);
      assert binds[i - 1] in binds;
    }
  }

  lemma FailsAlike(a: Answers, e: Error, mine: seq<Error>, n: int)
    requires RefusedAlike(a, n) && Fails(a, e, mine)
    ensures HasErrno(e, n) && forall d :: d in mine ==> HasErrno(d, n)
  {
    var first, before :| Raises(a, first, before) && Ended(a, first, before, e, mine);
    if a.create.None? && a.binds.Some? {
      var binds := a.binds.value;
      assert forall b :: b in binds && b.error.Some? ==> HasErrno(b.error.value, n);
      forall i: nat | i <= |binds| && NoneOfFirst(binds, i)
        ensures forall d :: d in Noted(binds, i) ==> HasErrno(d, n)
      {
        NotedAlike(binds, i, n);
      }
      if NoneOfFirst(binds, |binds|) {
        NotedAlike(binds, |binds|, n);
        var b :| b in binds && b.sameFamily;
        assert first in before + [first];
      }
    }
  }

  lemma {:induction false} FlattenAlike(lists: seq<seq<Error>>, n: int)
    requires forall i, d :: 0 <= i < |lists| && d in lists[i] ==> HasErrno(d, n)
    ensures forall d :: d in Flatten(lists) ==> HasErrno(d, n)
  {
    if lists != [] {
      FlattenAlike(lists[..|lists| - 1], n);
    }
  }

  /** When every address is refused with the same errno, so is the connection. */
  lemma RefusedWithTheErrno(c: Connection, m: nat, answers: nat -> Answers, n: nat, combined: string, errno: int)
    requires InTurn(c, m, answers, n, combined) && !c.Connected?
    requires forall k :: 0 <= k < n ==> RefusedAlike(answers(k), errno)
    ensures c.Refused? && m == n && HasErrno(c.error, errno)
  {
    if c.Propagated? {
      var mine :| Fails(answers(m - 1), c.error, mine);
      FailsAlike(answers(m - 1), c.error, mine, errno);
    } else {
      var lists :| AllFail(answers, n, lists) && Report(Flatten(lists), combined) == c;
      forall k | 0 <= k < n ensures forall d :: d in lists[k] ==> HasErrno(d, errno) {
        assert FailsRecordably(answers(k), lists[k]);
        var e :| Recordable(e) && Fails(answers(k), e, lists[k]);
        FailsAlike(answers(k), e, lists[k], errno);
      }
      FlattenAlike(lists, errno);
      CombineKeepsWhatAgrees(Flatten(lists), combined);
      assert Flatten(lists)[0] in Flatten(lists);
    }
  }

  // ------------------------------------------------------------ raced attempts

  /**
   * The sockets of a race: held[i] is the socket of attempt i, owners[k] the
   * attempt that created socket k, recorded[i] the exceptions of attempt i, and
   * open the shared set `open_sockets`.
   */
  datatype Ledger = Ledger(
    held: seq<Option<nat>>, owners: seq<nat>, recorded: seq<seq<Error>>, closed: set<nat>, open: set<nat>)

  datatype Net = Net(race: World<()>, sockets: Ledger)

  /** Records: an exception on the way, of a failed bind or one that closing the socket replaces. */
  datatype Step =
    | Create(i: nat)
    | Records(i: nat, error: Error)
    | Racing(event: Event<()>)

  function NoSockets(): Net
  {
    Net(Idle(), Ledger([], [], [], {}, {}))
  }

  predicate SameLength(s: Net)
  {
    |s.sockets.held| == |s.sockets.recorded| == |s.race.coros| == |s.race.exceptions|
  }

  /** A socket is made once an attempt runs; only an attempt with a socket can succeed. */
  predicate Allowed(s: Net, step: Step, delayed: bool)
  {
    SameLength(s) &&
    match step
    case Create(i) => i < |s.race.coros| && s.race.coros[i].Running? && s.sockets.held[i].None?
    case Records(i, e) => i < |s.race.coros| && s.race.coros[i].Running? && s.sockets.held[i].Some? && Recordable(e)
    case Racing(e) => Enabled(s.race, e, delayed) && (e.Return? ==> s.sockets.held[e.i].Some?)
  }

  function Recorded(l: Ledger, i: nat, e: Error): Ledger
    requires i < |l.recorded|
  {
    l.(recorded := l.recorded[i := l.recorded[i] + [e]])
  }

  /** What the `except BaseException` block does with the socket. */
  function Released(l: Ledger, i: nat): Ledger
    requires i < |l.held|
  {
    if l.held[i].None? then l
    else l.(open := l.open - {l.held[i].value}, closed := l.closed + {l.held[i].value})
  }

  function DoSockets(l: Ledger, step: Step): Ledger
    requires match step
             case Create(i) => i < |l.held|
             case Records(i, _) => i < |l.recorded|
             case Racing(e) => e.Raise? ==> e.i < |l.held| && e.i < |l.recorded|
  {
    match step
    case Create(i) =>
      l.(held := l.held[i := Some(|l.owners|)], owners := l.owners + [i], open := l.open + {|l.owners|})
    case Records(i, e) => Recorded(l, i, e)
    case Racing(e) =>
      if e.Start? then l.(held := l.held + [None], recorded := l.recorded + [[]])
      else if e.Raise? then Released(if Recordable(e.error) then Recorded(l, e.i, e.error) else l, e.i)
      else l
  }

  function Do(s: Net, step: Step, delayed: bool): Net
    requires Allowed(s, step, delayed)
  {
    Net(if step.Racing? then Apply(s.race, step.event) else s.race, DoSockets(s.sockets, step))
  }

  predicate AllAllowed(s: Net, steps: seq<Step>, delayed: bool)
    decreases |steps|
  {
    steps == [] || (Allowed(s, steps[0], delayed) && AllAllowed(Do(s, steps[0], delayed), steps[1..], delayed))
  }

  function DoAll(s: Net, steps: seq<Step>, delayed: bool): Net
    requires AllAllowed(s, steps, delayed)
    decreases |steps|
  {
    if steps == [] then s else DoAll(Do(s, steps[0], delayed), steps[1..], delayed)
  }

  /** The events of the race among the steps. */
  function Events(steps: seq<Step>): seq<Event<()>>
    decreases |steps|
  {
    if steps == [] then []
    else if steps[0].Racing? then [steps[0].event] + Events(steps[1..])
    else Events(steps[1..])
  }

  // ---------------------------------------------------------------- invariants

  predicate Live(c: Coro<()>) { c.Running? || c.Succeeded? }

  /** Every socket belongs to one attempt that has begun. */
  ghost predicate OwnersOk(l: Ledger, coros: seq<Coro<()>>)
  {
    && |l.held| == |coros|
    && (forall k :: 0 <= k < |l.owners| ==> l.owners[k] < |coros| && l.held[l.owners[k]] == Some(k))
    && (forall i :: 0 <= i < |coros| && l.held[i].Some? ==>
         l.held[i].value < |l.owners| && l.owners[l.held[i].value] == i &&
         !coros[i].Created? && !coros[i].Dropped?)
    && (forall i :: 0 <= i < |coros| && coros[i].Succeeded? ==> l.held[i].Some?)
  }

  /** `open_sockets` is exactly the sockets of the attempts in flight or succeeded; all others are closed. */
  ghost predicate OpenOk(l: Ledger, coros: seq<Coro<()>>)
    requires OwnersOk(l, coros)
  {
    && (forall k: nat :: k in l.open <==> k < |l.owners| && Live(coros[l.owners[k]]))
    && (forall k: nat :: k in l.closed <==> k < |l.owners| && !Live(coros[l.owners[k]]))
  }

  ghost predicate RecordedOk(l: Ledger, coros: seq<Coro<()>>)
  {
    && |l.recorded| == |coros|
    && forall i :: 0 <= i < |coros| && coros[i].Failed? && Recordable(coros[i].error) ==> l.recorded[i] != []
  }

  ghost predicate NetOk(s: Net)
  {
    && SameLength(s) && OwnersOk(s.sockets, s.race.coros) && OpenOk(s.sockets, s.race.coros)
    && RecordedOk(s.sockets, s.race.coros)
  }

  lemma CreateKeeps(s: Net, i: nat, s': Net, delayed: bool)
    requires NetOk(s) && Allowed(s, Create(i), delayed) && s' == Do(s, Create(i), delayed)
    ensures NetOk(s')
  {
  }

  lemma RaiseKeeps(s: Net, i: nat, error: Error, s': Net, delayed: bool)
    requires NetOk(s) && Allowed(s, Racing(Raise(i, error)), delayed)
    requires s' == Do(s, Racing(Raise(i, error)), delayed)
    ensures NetOk(s')
  {
  }

  lemma StartKeeps(s: Net, s': Net, delayed: bool)
    requires NetOk(s) && Allowed(s, Racing(Start), delayed) && s' == Do(s, Racing(Start), delayed)
    ensures NetOk(s')
  {
  }

  lemma OtherEventKeeps(s: Net, e: Event<()>, s': Net, delayed: bool)
    requires NetOk(s) && Allowed(s, Racing(e), delayed) && s' == Do(s, Racing(e), delayed)
    requires !e.Start? && !e.Raise?
    ensures NetOk(s')
  {
  }

  lemma StepKeepsNet(s: Net, step: Step, s': Net, delayed: bool)
    requires NetOk(s) && Allowed(s, step, delayed) && s' == Do(s, step, delayed)
    ensures NetOk(s')
  {
    match step
    case Create(i) => CreateKeeps(s, i, s', delayed);
    case Records(_, _) =>
    case Racing(e) =>
      if e.Start? {
        StartKeeps(s, s', delayed);
      } else if e.Raise? {
        RaiseKeeps(s, e.i, e.error, s', delayed);
      } else {
        OtherEventKeeps(s, e, s', delayed);
      }
  }

  /** In every interleaving, at any point, the open sockets are exactly those of live attempts. */
  lemma {:induction false} OpenSocketsAreExact(s: Net, steps: seq<Step>, delayed: bool)
    requires NetOk(s) && AllAllowed(s, steps, delayed)
    ensures NetOk(DoAll(s, steps, delayed))
    decreases |steps|
  {
    if steps != [] {
      StepKeepsNet(s, steps[0], Do(s, steps[0], delayed), delayed);
      OpenSocketsAreExact(Do(s, steps[0], delayed), steps[1..], delayed);
    }
  }

  /** The race inside an interleaving is what the race's own events make of it. */
  lemma {:induction false} RaceOfSteps(s: Net, steps: seq<Step>, delayed: bool)
    requires AllAllowed(s, steps, delayed)
    ensures Legal(s.race, Events(steps), delayed)
    ensures DoAll(s, steps, delayed).race == After(s.race, Events(steps))
    decreases |steps|
  {
    if steps != [] {
      RaceOfSteps(Do(s, steps[0], delayed), steps[1..], delayed);
      if steps[0].Racing? {
        assert Events(steps)[1..] == Events(steps[1..]);
      }
    }
  }

  /** One interleaving for a schedule: an attempt makes its socket just before it succeeds. */
  function Lift(es: seq<Event<()>>): seq<Step>
  {
    if es == [] then []
    else if es[0].Return? then [Create(es[0].i), Racing(es[0])] + Lift(es[1..])
    else [Racing(es[0])] + Lift(es[1..])
  }

  predicate NoneHeldYet(s: Net)
  {
    SameLength(s) &&
    forall i :: 0 <= i < |s.race.coros| && s.race.coros[i].Unfinished() ==> s.sockets.held[i].None?
  }

  lemma LiftedReturn(s: Net, e: Event<()>, rest: seq<Step>, delayed: bool)
    requires e.Return? && Allowed(s, Create(e.i), delayed)
    requires Allowed(Do(s, Create(e.i), delayed), Racing(e), delayed)
    requires AllAllowed(Do(Do(s, Create(e.i), delayed), Racing(e), delayed), rest, delayed)
    ensures var steps := [Create(e.i), Racing(e)] + rest;
            AllAllowed(s, steps, delayed) && Events(steps) == [e] + Events(rest)
  {
    var steps := [Create(e.i), Racing(e)] + rest;
    assert steps[1..] == [Racing(e)] + rest && steps[1..][1..] == rest;
  }

  lemma LiftedOther(s: Net, e: Event<()>, rest: seq<Step>, delayed: bool)
    requires Allowed(s, Racing(e), delayed) && AllAllowed(Do(s, Racing(e), delayed), rest, delayed)
    ensures var steps := [Racing(e)] + rest; AllAllowed(s, steps, delayed) && Events(steps) == [e] + Events(rest)
  {
    assert ([Racing(e)] + rest)[1..] == rest;
  }

  /** Every schedule of the race is the race of some interleaving. */
  lemma {:induction false} ScheduleCanBeLifted(s: Net, es: seq<Event<()>>, delayed: bool)
    requires NoneHeldYet(s) && Legal(s.race, es, delayed)
    ensures AllAllowed(s, Lift(es), delayed) && Events(Lift(es)) == es
    decreases |es|
  {
    if es != [] {
      var e, rest := es[0], Lift(es[1..]);
      if e.Return? {
        var s2 := Do(Do(s, Create(e.i), delayed), Racing(e), delayed);
        ScheduleCanBeLifted(s2, es[1..], delayed);
        LiftedReturn(s, e, rest, delayed);
      } else {
        ScheduleCanBeLifted(Do(s, Racing(e), delayed), es[1..], delayed);
        LiftedOther(s, e, rest, delayed);
      }
    }
  }

  /** The `finally` block: close every socket that is still open but the winner's. */
  method CloseRunnersUp(net: Sockets, open: set<nat>, kept: Option<nat>)
    modifies net`closed
    ensures forall k: nat :: k in net.closed <==> k in old(net.closed) || (k in open && kept != Some(k))
  {
    var rest := open;
    while rest != {}
      invariant rest <= open
      invariant forall k: nat :: k in net.closed <==> k in old(net.closed) || (k in open - rest && kept != Some(k))
      decreases |rest|
    {
      var k :| k in rest;
      if kept != Some(k) { net.closed := net.closed + {k}; }
      rest := rest - {k};
    }
  }

  /** The connection a finished race comes to. */
  function Verdict(outcome: Outcome<()>, s: Net, combined: string): Connection
    requires OutcomeOk(outcome, s.race) && OwnersOk(s.sockets, s.race.coros)
  {
    match outcome
    case Winner(_, i) => Connected(s.sockets.held[i].value)
    case NoWinner => Report(Flatten(s.sockets.recorded), combined)
    case Interrupted => Propagated(CancelledError)
  }

  /** A race of attempts: what woke the racing loop, the interleaving, and where it leads. */
  datatype Raced = Raced(wakes: seq<Wakeup>, steps: seq<Step>, end: Net)

  ghost predicate Happened(r: Raced, delayed: bool)
  {
    AllAllowed(NoSockets(), r.steps, delayed) && r.end == DoAll(NoSockets(), r.steps, delayed) && NetOk(r.end)
  }

  /** The last wake-up decides: the socket of the attempt that succeeds, an interruption, or what was recorded. */
  ghost predicate Settled(c: Connection, r: Raced, combined: string)
    requires SameLength(r.end)
  {
    var n, w, l := |r.wakes|, r.end.race, r.end.sockets;
    && (forall k :: 0 <= k < n - 1 ==> !r.wakes[k].Interrupt? && !Wins(r.wakes[k], w))
    && (c.Connected? <==> n > 0 && Wins(r.wakes[n - 1], w))
    && (c.Connected? ==> l.held[r.wakes[n - 1].i] == Some(c.sock))
    && (c.Propagated? <==> n > 0 && r.wakes[n - 1].Interrupt?) && (c.Propagated? ==> c.error == CancelledError)
    && (c.Refused? || c.IndexError? ==> c == Report(Flatten(l.recorded), combined) && AllFailed(w)) && !c.ValueError?
  }

  /** The race of the attempts, with some interleaving of their socket operations. */
  method RaceAttempts(addrs: seq<AddrInfo>, delayed: bool)
      returns (outcome: Outcome<()>, r: Raced, tried: seq<AddrInfo>)
    ensures Happened(r, delayed) && tried <= addrs && |tried| == |r.end.race.coros|
    ensures OutcomeOk(outcome, r.end.race) && DecidedBy(outcome, r.wakes, r.end.race)
    ensures AllFinished(r.end.race)
    ensures outcome.NoWinner? ==> tried == addrs && AllFailed(r.end.race)
  {
    var w, wakes, schedule;
    outcome, w, tried, wakes, schedule := Race<AddrInfo, ()>(addrs, delayed);
    ScheduleCanBeLifted(NoSockets(), schedule, delayed);
    var steps :| AllAllowed(NoSockets(), steps, delayed) && Events(steps) == schedule;
    r := Raced(wakes, steps, DoAll(NoSockets(), steps, delayed));
    OpenSocketsAreExact(NoSockets(), steps, delayed);
    RaceOfSteps(NoSockets(), steps, delayed);
  }

  /** Only the winner, or an attempt that finished in the cancellation window, still holds an open socket. */
  lemma FinishedSockets(s: Net, outcome: Outcome<()>)
    requires NetOk(s) && OutcomeOk(outcome, s.race)
    ensures s.sockets.open !! s.sockets.closed
    ensures forall k: nat :: k in s.sockets.open + s.sockets.closed <==> k < |s.sockets.owners|
    ensures outcome.Winner? ==> s.sockets.held[outcome.index].value in s.sockets.open
  {
  }

  /**
   * The raced attempts, under every interleaving: every socket ever created is
   * closed, except for the one that is returned, that of the first attempt seen to
   * have succeeded.  Python's IndexError escapes exactly when every attempt failed
   * without recording an exception; then none of them raised an OSError or a RuntimeError.
   */
  method ConnectRaced(addrs: seq<AddrInfo>, delayed: bool, combined: string)
      returns (c: Connection, net: Sockets, tried: seq<AddrInfo>, r: Raced)
    ensures fresh(net) && net.OnlyOpen(if c.Connected? then Some(c.sock) else None)
    ensures c.Connected? ==> c.sock < net.created
    ensures Happened(r, delayed) && Settled(c, r, combined) && AllFinished(r.end.race)
    ensures tried <= addrs && |tried| == |r.end.race.coros|
    ensures c.IndexError? || c.Refused? ==>
              tried == addrs && (c.IndexError? <==> forall i :: 0 <= i < |tried| ==> r.end.sockets.recorded[i] == [])
    ensures c.IndexError? ==> forall i :: 0 <= i < |tried| ==> !Recordable(r.end.race.coros[i].error)
  {
    var outcome;
    outcome, r, tried := RaceAttempts(addrs, delayed);
    var s := r.end;
    c := Verdict(outcome, s, combined);
    FinishedSockets(s, outcome);
    FlattenEmpty(s.sockets.recorded);
    net := new Sockets();
    net.created, net.closed := |s.sockets.owners|, s.sockets.closed;
    CloseRunnersUp(net, s.sockets.open, if c.Connected? then Some(c.sock) else None);
  }

  /** m more attempts, from number `from` on, each ended by the given exception before it has a socket. */
  function FailingSteps(from: nat, m: nat, error: Error): seq<Step>
    decreases m
  {
    if m == 0 then []
    else
      [Racing(Start)] +
      ([Racing(Begin(from))] + ([Racing(Raise(from, error))] + FailingSteps(from + 1, m - 1, error)))
  }

  ghost predicate FailedSilently(s: Net, n: nat)
  {
    SameLength(s) && |s.race.coros| == n && AllFailed(s.race) && (n > 0 ==> s.race.signalled) &&
    forall i :: 0 <= i < n ==> s.sockets.recorded[i] == []
  }

  lemma OneStepMore(s: Net, step: Step, rest: seq<Step>, delayed: bool)
    requires Allowed(s, step, delayed) && AllAllowed(Do(s, step, delayed), rest, delayed)
    ensures AllAllowed(s, [step] + rest, delayed) &&
            DoAll(s, [step] + rest, delayed) == DoAll(Do(s, step, delayed), rest, delayed)
  {
    assert ([step] + rest)[1..] == rest;
  }

  /** One more attempt that ends like that. */
  lemma OneFailsSilently(s: Net, error: Error, delayed: bool) returns (s1: Net, s2: Net, s3: Net)
    requires FailedSilently(s, |s.race.coros|) && !Recordable(error)
    ensures var from := |s.race.coros|;
            && Allowed(s, Racing(Start), delayed) && s1 == Do(s, Racing(Start), delayed)
            && Allowed(s1, Racing(Begin(from)), delayed) && s2 == Do(s1, Racing(Begin(from)), delayed)
            && Allowed(s2, Racing(Raise(from, error)), delayed) && s3 == Do(s2, Racing(Raise(from, error)), delayed)
            && FailedSilently(s3, from + 1) && |s3.race.coros| == from + 1
  {
    var from := |s.race.coros|;
    s1 := Do(s, Racing(Start), delayed);
    s2 := Do(s1, Racing(Begin(from)), delayed);
    s3 := Do(s2, Racing(Raise(from, error)), delayed);
  }

  /** Such races exist, for every number of attempts and every exception of another kind. */
  lemma {:induction false} RaceCanFailSilently(s: Net, m: nat, error: Error, delayed: bool)
    requires FailedSilently(s, |s.race.coros|) && !Recordable(error)
    ensures var steps := FailingSteps(|s.race.coros|, m, error);
            AllAllowed(s, steps, delayed) && FailedSilently(DoAll(s, steps, delayed), |s.race.coros| + m)
    decreases m
  {
    if m > 0 {
      var from := |s.race.coros|;
      var s1, s2, s3 := OneFailsSilently(s, error, delayed);
      RaceCanFailSilently(s3, m - 1, error, delayed);
      var rest := FailingSteps(from + 1, m - 1, error);
      OneStepMore(s2, Racing(Raise(from, error)), rest, delayed);
      OneStepMore(s1, Racing(Begin(from)), [Racing(Raise(from, error))] + rest, delayed);
      OneStepMore(s, Racing(Start), [Racing(Begin(from))] + ([Racing(Raise(from, error))] + rest), delayed);
    }
  }

  // --------------------------------------------------------------- the function

  /** The order the addresses are tried in. */
  function TryOrder(addrs: seq<AddrInfo>, delay: Option<int>, interleave: Option<int>): seq<AddrInfo>
  {
    var n := if delay.Some? && interleave.None? then Some(1) else interleave;
    if n.Some? && n.value != 0 && |addrs| != 1 then Interleaved(addrs, n.value) else addrs
  }

  /**
   * All addresses are tried, each family in its order; they are taken as given exactly where no
   * interleaving is asked for or none is possible.
   */
  lemma OrderIsPermutation(addrs: seq<AddrInfo>, delay: Option<int>, interleave: Option<int>)
    ensures multiset(TryOrder(addrs, delay, interleave)) == multiset(addrs)
    ensures |TryOrder(addrs, delay, interleave)| == |addrs|
    ensures |addrs| == 1 || interleave == Some(0) || (delay.None? && interleave.None?) ==>
              TryOrder(addrs, delay, interleave) == addrs
    ensures delay.Some? && interleave.None? ==> TryOrder(addrs, delay, interleave) == TryOrder(addrs, delay, Some(1))
    ensures interleave.Some? ==> TryOrder(addrs, delay, interleave) == TryOrder(addrs, None, interleave)
  {
    var n := if delay.Some? && interleave.None? then Some(1) else interleave;
    if n.Some? && n.value != 0 && |addrs| != 1 {
      InterleavingIsPermutation(addrs, n.value);
      assert |multiset(Interleaved(addrs, n.value))| == |multiset(addrs)|;
    }
  }

  /** Attempts are raced when there is a delay (0 means none between them) and more than one address. */
  predicate IsRaced(addrs: seq<AddrInfo>, delay: Option<int>) { delay.Some? && |addrs| > 1 }

  /**
   * `start_connection`: in every outcome every socket ever created is closed,
   * except for the one returned.
   */
  method StartConnection(addrs: seq<AddrInfo>, delay: Option<int>, interleave: Option<int>,
                         answers: nat -> Answers, combined: string)
      returns (c: Connection, net: Sockets, tried: seq<AddrInfo>, raced: Option<Raced>)
    ensures fresh(net) && net.OnlyOpen(if c.Connected? then Some(c.sock) else None)
    ensures c.Connected? ==> c.sock < net.created
    ensures c.ValueError? <==> addrs == []
    ensures tried <= TryOrder(addrs, delay, interleave)
    ensures addrs != [] && !IsRaced(addrs, delay) ==> InTurn(c, |tried|, answers, |addrs|, combined)
    ensures raced.Some? <==> IsRaced(addrs, delay)
    ensures raced.Some? ==> Happened(raced.value, delay.value != 0) && Settled(c, raced.value, combined) &&
                            |tried| == |raced.value.end.race.coros|
    ensures c.Refused? || c.IndexError? ==> tried == TryOrder(addrs, delay, interleave)
    ensures c.IndexError? ==> IsRaced(addrs, delay)
  {
    raced := None;
    if addrs == [] {
      net := new Sockets();
      return ValueError, net, [], None;
    }
    var n := interleave;
    if delay.Some? && interleave.None? { n := Some(1); }
    var order := addrs;
    if n.Some? && n.value != 0 && |addrs| != 1 {
      order := InterleaveAddrInfos(addrs, n.value);
    }
    OrderIsPermutation(addrs, delay, interleave);
    if delay.None? || |addrs| == 1 {
      net := new Sockets();
      var m;
      c, m := ConnectInTurn(net, |order|, answers, combined);
      tried := order[..m];
    } else {
      var r;
      c, net, tried, r := ConnectRaced(order, delay.value != 0, combined);
      raced := Some(r);
    }
  }
}
