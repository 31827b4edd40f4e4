/**
 * Flow control for writers
 * (backend/uploads/47e18846f5de4b6bbad20e71da3b0f74_base_protocol.py).
 *
 * Drains that start while writing is paused share one future, the drain waiter.
 * A drain is suspended as long as the future it awaits is pending, and resumes some
 * time after. As in asyncio, cancelling a suspended drain cancels the future it awaits,
 * and cancelling one that has yet to resume makes it end in CancelledError alone.
 */
module BaseProtocol {
  import opened Common

  datatype Outcome = Pending | Resumed | Failed | Cancelled

  /** The protocol object; `futures` are all those it ever made, in order. */
  datatype State = State(paused: bool, connected: bool, waiter: Option<nat>, futures: seq<Outcome>)

  datatype Event =
    | Pause | Resume | Made | Lost(failed: bool)
    | Drain
    | CancelDrain(drain: nat)
    | Wake(drain: nat)

  /** What a drain does: it fails, passes or awaits a future; AssertionError is the caller's. */
  datatype Reply = Ok | AssertionError | ConnectionReset | Passed | Awaits(future: nat)

  // ---------------------------------------------------------------- operations

  function Settle(futures: seq<Outcome>, i: nat, outcome: Outcome): seq<Outcome>
  {
    if i < |futures| && futures[i].Pending? then futures[i := outcome] else futures
  }

  /** The waiter is let go of, and woken unless it is done already. */
  function Release(s: State, outcome: Outcome): State
  {
    if s.waiter.None? then s
    else s.(waiter := None, futures := Settle(s.futures, s.waiter.value, outcome))
  }

  function DoResume(s: State): (State, Reply)
  {
    if s.paused then (Release(s.(paused := false), Resumed), Ok) else (s, AssertionError)
  }

  function DoLost(s: State, failed: bool): State
  {
    var s := s.(connected := false);
    if s.paused then Release(s, if failed then Failed else Resumed) else s
  }

  /** `_drain_helper`, up to its await. */
  function DoDrain(s: State): (State, Reply)
  {
    if !s.connected then (s, ConnectionReset)
    else if !s.paused then (s, Passed)
    else if s.waiter.Some? then (s, Awaits(s.waiter.value))
    else (s.(waiter := Some(|s.futures|), futures := s.futures + [Pending]), Awaits(|s.futures|))
  }

  // --------------------------------------------------------------------- drains

  /**
   * A drain that got as far as its await: on which future, after how many wake-ups,
   * whether it was cancelled while suspended, or later but before it resumed, and how it ended.
   */
  datatype DrainOf = DrainOf(future: nat, wakeups: nat, cancelled: bool, late: bool, ended: Option<Outcome>)

  datatype World = World(state: State, drains: seq<DrainOf>, wakeups: nat)

  /** The future a drain awaits is still pending. */
  predicate Suspended(w: World, k: nat)
  {
    k < |w.drains| && w.drains[k].future < |w.state.futures| && w.state.futures[w.drains[k].future].Pending?
  }

  /** Its future is done, but the drain has not resumed. */
  predicate Ready(w: World, k: nat)
  {
    k < |w.drains| && w.drains[k].ended.None? && w.drains[k].future < |w.state.futures| &&
    !w.state.futures[w.drains[k].future].Pending?
  }

  /** Awaiting a future that is done already ends at once. */
  function Joined(futures: seq<Outcome>, future: nat, wakeups: nat): DrainOf
  {
    DrainOf(future, wakeups, false, false,
            if future < |futures| && !futures[future].Pending? then Some(futures[future]) else None)
  }

  function Advance(w: World, e: Event): World
  {
    match e
    case Pause => if w.state.paused then w else w.(state := w.state.(paused := true))
    case Resume => w.(state := DoResume(w.state).0, wakeups := if w.state.paused then w.wakeups + 1 else w.wakeups)
    case Made => w.(state := w.state.(connected := true))
    case Lost(failed) => w.(state := DoLost(w.state, failed), wakeups := w.wakeups + 1)
    case Drain =>
      var (state, reply) := DoDrain(w.state);
      if reply.Awaits? then World(state, w.drains + [Joined(state.futures, reply.future, w.wakeups)], w.wakeups)
      else w.(state := state)
    case CancelDrain(k) =>
      if Suspended(w, k) then
        w.(state := w.state.(futures := Settle(w.state.futures, w.drains[k].future, Cancelled)),
           drains := w.drains[k := w.drains[k].(cancelled := true)])
      else if Ready(w, k) then w.(drains := w.drains[k := w.drains[k].(late := true)])
      else w
    case Wake(k) =>
      if Ready(w, k) then
        var outcome := if w.drains[k].late then Cancelled else w.state.futures[w.drains[k].future];
        w.(drains := w.drains[k := w.drains[k].(ended := Some(outcome))])
      else w
  }

  const START: World := World(State(false, false, None, []), [], 0)

  function Run(events: seq<Event>, n: nat): World
    requires n <= |events|
  {
    if n == 0 then START else Advance(Run(events, n - 1), events[n - 1])
  }

  // ----------------------------------------------------------------- invariants

  /** A pending future is the waiter, and a waiter is kept only while paused and connected. */
  ghost predicate StateOk(s: State)
  {
    && (s.waiter.Some? ==> s.paused && s.connected && s.waiter.value == |s.futures| - 1)
    && (forall i :: 0 <= i < |s.futures| && s.futures[i].Pending? ==> s.waiter == Some(i))
  }

  /** Futures are shared exactly by the drains between two wake-ups. */
  ghost predicate DrainsOk(w: World)
  {
    && (forall k :: 0 <= k < |w.drains| ==> w.drains[k].future < |w.state.futures| && w.drains[k].wakeups <= w.wakeups)
    && (forall k, l :: 0 <= k < |w.drains| && 0 <= l < |w.drains| ==>
          (w.drains[k].future == w.drains[l].future <==> w.drains[k].wakeups == w.drains[l].wakeups))
    && (forall k :: 0 <= k < |w.drains| ==>
          (w.drains[k].wakeups == w.wakeups <==> w.state.waiter == Some(w.drains[k].future)))
    && (w.state.waiter.Some? ==> exists k :: 0 <= k < |w.drains| && w.drains[k].future == w.state.waiter.value)
  }

  /** A future was cancelled exactly when a drain suspended on it was. */
  ghost predicate CancelledOk(w: World)
  {
    && (forall k :: 0 <= k < |w.drains| && w.drains[k].cancelled ==>
          w.drains[k].future < |w.state.futures| && w.state.futures[w.drains[k].future].Cancelled?)
    && (forall i :: 0 <= i < |w.state.futures| && w.state.futures[i].Cancelled? ==>
          exists k :: 0 <= k < |w.drains| && w.drains[k].future == i && w.drains[k].cancelled)
  }

  /** A drain ends as its future did, unless it was cancelled on its own. */
  ghost predicate EndedOk(w: World)
  {
    forall k :: 0 <= k < |w.drains| && w.drains[k].ended.Some? ==>
      && w.drains[k].future < |w.state.futures| && !w.state.futures[w.drains[k].future].Pending?
      && w.drains[k].ended.value == if w.drains[k].late then Cancelled else w.state.futures[w.drains[k].future]
  }

  ghost predicate Inv(w: World) { StateOk(w.state) && DrainsOk(w) && CancelledOk(w) && EndedOk(w) }

  /** What is settled stays settled. */
  lemma EndedKept(w: World, e: Event, w': World)
    requires StateOk(w.state) && EndedOk(w) && w' == Advance(w, e)
    ensures EndedOk(w')
  {
    var futures, futures' := w.state.futures, w'.state.futures;
    assert forall i :: 0 <= i < |futures| && !futures[i].Pending? ==> i < |futures'| && futures'[i] == futures[i];
  }

  lemma StateKept(w: World, e: Event, w': World)
    requires StateOk(w.state) && w' == Advance(w, e)
    ensures StateOk(w'.state)
  {
  }

  lemma DrainsKept(w: World, e: Event, w': World)
    requires StateOk(w.state) && DrainsOk(w) && w' == Advance(w, e)
    ensures DrainsOk(w')
  {
    match e {
      case Drain => DrainsKeptByDrain(w, w');
      case CancelDrain(_) => DrainsKeptByTask(w, e, w');
      case Wake(_) => DrainsKeptByTask(w, e, w');
      case _ =>
    }
  }

  lemma DrainsKeptByDrain(w: World, w': World)
    requires StateOk(w.state) && DrainsOk(w) && w' == Advance(w, Drain)
    ensures DrainsOk(w')
  {
    if w.state.connected && w.state.paused {
      var k := |w.drains|;
      assert w'.drains[k] == Joined(w'.state.futures, DoDrain(w.state).1.future, w.wakeups);
    }
  }

  lemma DrainsKeptByTask(w: World, e: Event, w': World)
    requires StateOk(w.state) && DrainsOk(w) && w' == Advance(w, e) && (e.CancelDrain? || e.Wake?)
    ensures DrainsOk(w')
  {
    assert forall j :: 0 <= j < |w.drains| ==>
      w'.drains[j].future == w.drains[j].future && w'.drains[j].wakeups == w.drains[j].wakeups;
    if w.state.waiter.Some? {
      var j :| 0 <= j < |w.drains| && w.drains[j].future == w.state.waiter.value;
      assert w'.drains[j].future == w.state.waiter.value;
    }
  }

  /** No other step cancels a future, or forgets who was cancelled. */
  lemma CancelledKept(w: World, e: Event, w': World)
    requires Inv(w) && !e.CancelDrain? && !e.Wake? && w' == Advance(w, e)
    ensures CancelledOk(w')
  {
    var futures, futures' := w.state.futures, w'.state.futures;
    assert |futures| <= |futures'| && w.drains <= w'.drains;
    assert forall i :: 0 <= i < |futures| ==> (futures'[i].Cancelled? <==> futures[i].Cancelled?);
    forall i | 0 <= i < |futures'| && futures'[i].Cancelled?
      ensures exists k :: 0 <= k < |w'.drains| && w'.drains[k].future == i && w'.drains[k].cancelled
    {
      var k :| 0 <= k < |w.drains| && w.drains[k].future == i && w.drains[k].cancelled;
      assert w'.drains[k] == w.drains[k];
    }
  }

  lemma CancelledKeptByTask(w: World, e: Event, w': World)
    requires Inv(w) && w' == Advance(w, e) && (e.CancelDrain? || e.Wake?)
    ensures CancelledOk(w')
  {
    var hit := e.CancelDrain? && Suspended(w, e.drain);
    forall i | 0 <= i < |w'.state.futures| && w'.state.futures[i].Cancelled?
      ensures exists j :: 0 <= j < |w'.drains| && w'.drains[j].future == i && w'.drains[j].cancelled
    {
      if hit && w.drains[e.drain].future == i {
        assert w'.drains[e.drain].cancelled;
      } else {
        var j :| 0 <= j < |w.drains| && w.drains[j].future == i && w.drains[j].cancelled;
        assert w'.drains[j].future == i && w'.drains[j].cancelled;
      }
    }
  }

  lemma {:induction false} RunKeeps(events: seq<Event>, n: nat)
    requires n <= |events|
    ensures Inv(Run(events, n))
  {
    if n > 0 {
      RunKeeps(events, n - 1);
      var w, w' := Run(events, n - 1), Run(events, n);
      StateKept(w, events[n - 1], w');
      DrainsKept(w, events[n - 1], w');
      EndedKept(w, events[n - 1], w');
      if events[n - 1].CancelDrain? || events[n - 1].Wake? {
        CancelledKeptByTask(w, events[n - 1], w');
      } else {
        CancelledKept(w, events[n - 1], w');
      }
    }
  }

  // ------------------------------------------------------------------- theorems

  /**
   * No lost wake-up: whatever is cancelled in between, a drain is suspended only
   * while writing is paused and the connection is up, and only if neither a
   * `resume_writing` nor a `connection_lost` came after it.
   */
  lemma NoLostWakeUp(events: seq<Event>, n: nat, k: nat)
    requires n <= |events| && Suspended(Run(events, n), k)
    ensures var w := Run(events, n);
            && w.state.paused && w.state.connected
            && w.state.waiter == Some(w.drains[k].future) && w.drains[k].wakeups == w.wakeups
  {
    RunKeeps(events, n);
  }

  /** So right after either of the two nothing is suspended. */
  lemma WokenAtOnce(events: seq<Event>, n: nat, k: nat)
    requires 0 < n <= |events|
    requires events[n - 1].Lost? || (events[n - 1].Resume? && Run(events, n - 1).state.paused)
    ensures !Suspended(Run(events, n), k) && Run(events, n).state.waiter.None?
  {
    RunKeeps(events, n);
    RunKeeps(events, n - 1);
  }

  /** Two drains await the same future exactly when no wake-up came between them. */
  lemma SharedBetweenWakeUps(events: seq<Event>, n: nat, k: nat, l: nat)
    requires n <= |events| && k < |Run(events, n).drains| && l < |Run(events, n).drains|
    ensures var drains := Run(events, n).drains;
            drains[k].future == drains[l].future <==> drains[k].wakeups == drains[l].wakeups
  {
    RunKeeps(events, n);
  }

  /**
   * A drain that has ended ended in CancelledError exactly when it was cancelled
   * before it resumed, or some drain between the same two wake-ups was cancelled
   * while suspended, itself or another.
   */
  lemma CancelledExactly(events: seq<Event>, n: nat, k: nat)
    requires n <= |events| && k < |Run(events, n).drains| && Run(events, n).drains[k].ended.Some?
    ensures var drains := Run(events, n).drains;
            drains[k].ended.value.Cancelled? <==>
            || drains[k].late
            || exists l :: 0 <= l < |drains| && drains[l].cancelled && drains[l].wakeups == drains[k].wakeups
  {
    RunKeeps(events, n);
  }

  /** What the wake-ups among the first n events mean to those they wake. */
  function Causes(events: seq<Event>, n: nat): seq<Outcome>
    requires n <= |events|
  {
    if n == 0 then []
    else
      match events[n - 1]
      case Lost(failed) => Causes(events, n - 1) + [if failed then Failed else Resumed]
      case Resume => if Paused(events, n - 1) then Causes(events, n - 1) + [Resumed] else Causes(events, n - 1)
      case _ => Causes(events, n - 1)
  }

  /** Writing was paused after the last time it was resumed. */
  predicate Paused(events: seq<Event>, n: nat)
    requires n <= |events|
  {
    n > 0 && (events[n - 1].Pause? || (!events[n - 1].Resume? && Paused(events, n - 1)))
  }

  /** The connection was made after the last time it was lost. */
  predicate Connected(events: seq<Event>, n: nat)
    requires n <= |events|
  {
    n > 0 && (events[n - 1].Made? || (!events[n - 1].Lost? && Connected(events, n - 1)))
  }

  lemma {:induction false} FlagsAreExact(events: seq<Event>, n: nat)
    requires n <= |events|
    ensures var w := Run(events, n);
            w.state.paused == Paused(events, n) && w.state.connected == Connected(events, n) &&
            w.wakeups == |Causes(events, n)|
  {
    if n > 0 {
      FlagsAreExact(events, n - 1);
    }
  }

  /** A drain fails without a connection, passes while writing is not paused, and otherwise waits. */
  lemma DrainsExactly(events: seq<Event>, n: nat)
    requires n <= |events|
    ensures var w := Run(events, n);
            var (state, reply) := DoDrain(w.state);
            && (reply.ConnectionReset? <==> !Connected(events, n))
            && (reply.Passed? <==> Connected(events, n) && !Paused(events, n))
            && (!reply.Awaits? ==> reply.ConnectionReset? || reply.Passed?)
            && (reply.Awaits? ==> state.waiter == Some(reply.future))
            && (!reply.Awaits? ==> state == w.state)
  {
    FlagsAreExact(events, n);
  }

  /** Resuming fails its assertion exactly when writing is not paused, and then changes nothing. */
  lemma ResumesExactly(events: seq<Event>, n: nat)
    requires n <= |events|
    ensures var s := Run(events, n).state;
            var (s', reply) := DoResume(s);
            && (reply == AssertionError <==> !Paused(events, n)) && (reply == AssertionError ==> s' == s)
            && (reply != AssertionError ==> reply == Ok && !s'.paused && s'.waiter.None?)
  {
    FlagsAreExact(events, n);
  }

  /** If the future of the drain is done and was not cancelled, it has the outcome of the wake-up waited for. */
  ghost predicate WokenBy(d: DrainOf, futures: seq<Outcome>, causes: seq<Outcome>)
  {
    d.future < |futures| && !futures[d.future].Pending? && !futures[d.future].Cancelled? ==>
      (d.wakeups < |causes| && futures[d.future] == causes[d.wakeups])
  }

  ghost predicate WokenOk(w: World, causes: seq<Outcome>)
  {
    forall k :: 0 <= k < |w.drains| ==> WokenBy(w.drains[k], w.state.futures, causes)
  }

  lemma WokenKept(w: World, e: Event, w': World, causes: seq<Outcome>, causes': seq<Outcome>)
    requires StateOk(w.state) && DrainsOk(w) && WokenOk(w, causes) && |causes| == w.wakeups && !e.Drain?
    requires w' == Advance(w, e)
    requires causes' == if e.Lost? then causes + [if e.failed then Failed else Resumed]
                        else if e.Resume? && w.state.paused then causes + [Resumed] else causes
    ensures WokenOk(w', causes')
  {
    forall k | 0 <= k < |w'.drains| ensures WokenBy(w'.drains[k], w'.state.futures, causes') {
      assert WokenBy(w.drains[k], w.state.futures, causes);
    }
  }

  lemma WokenKeptByDrain(w: World, w': World, causes: seq<Outcome>)
    requires StateOk(w.state) && DrainsOk(w) && WokenOk(w, causes) && |causes| == w.wakeups && w' == Advance(w, Drain)
    ensures WokenOk(w', causes)
  {
    var waiter := w.state.waiter;
    if w.state.connected && w.state.paused && waiter.Some? {
      var j :| 0 <= j < |w.drains| && w.drains[j].future == waiter.value;
      assert WokenBy(w.drains[j], w.state.futures, causes);
    }
    forall k | 0 <= k < |w'.drains| ensures WokenBy(w'.drains[k], w'.state.futures, causes) {
      if k < |w.drains| {
        assert WokenBy(w.drains[k], w.state.futures, causes);
      }
    }
  }

  lemma {:induction false} AllAreWoken(events: seq<Event>, n: nat)
    requires n <= |events|
    ensures WokenOk(Run(events, n), Causes(events, n))
  {
    if n > 0 {
      AllAreWoken(events, n - 1);
      FlagsAreExact(events, n - 1);
      RunKeeps(events, n - 1);
      var w, w', causes := Run(events, n - 1), Run(events, n), Causes(events, n - 1);
      if events[n - 1].Drain? {
        WokenKeptByDrain(w, w', causes);
      } else {
        WokenKept(w, events[n - 1], w', causes, Causes(events, n));
      }
    }
  }

  /**
   * A drain that ends uncancelled ends as the first wake-up after its start says: it fails if that was the
   * loss of the connection with an exception, and else it just resumes.
   */
  lemma EndsAsWoken(events: seq<Event>, n: nat, k: nat)
    requires n <= |events| && k < |Run(events, n).drains|
    requires Run(events, n).drains[k].ended.Some? && !Run(events, n).drains[k].ended.value.Cancelled?
    ensures var drain := Run(events, n).drains[k];
            drain.wakeups < |Causes(events, n)| && drain.ended.value == Causes(events, n)[drain.wakeups]
  {
    RunKeeps(events, n);
    AllAreWoken(events, n);
  }

  /**
   * What a step does to a drain: cancelling it while suspended cancels its future and is noted, cancelling it
   * later is noted as late, and it ends when it is woken, if its future is done.
   */
  lemma TasksExactly(events: seq<Event>, n: nat, k: nat)
    requires n < |events| && k < |Run(events, n).drains|
    ensures var w, w' := Run(events, n), Run(events, n + 1);
            |w.drains| <= |w'.drains| && var d, d' := w.drains[k], w'.drains[k];
            && d'.future == d.future && d'.wakeups == d.wakeups
            && (d'.cancelled <==> d.cancelled || (events[n] == CancelDrain(k) && Suspended(w, k)))
            && (d'.late <==> d.late || (events[n] == CancelDrain(k) && Ready(w, k)))
            && (d'.ended.Some? <==> d.ended.Some? || (events[n] == Wake(k) && Ready(w, k)))
  {
  }

  /** A drain that waits is added with the number of wake-ups so far, one that does not leaves nothing. */
  lemma DrainsAreNoted(events: seq<Event>, n: nat)
    requires n < |events|
    ensures var w, w' := Run(events, n), Run(events, n + 1);
            && |w'.drains| == |w.drains| + (if events[n].Drain? && DoDrain(w.state).1.Awaits? then 1 else 0)
            && (|w'.drains| > |w.drains| ==>
                  var d := w'.drains[|w.drains|];
                  d.wakeups == w.wakeups && d.future == DoDrain(w.state).1.future && !d.cancelled && !d.late)
            && (events[n].Drain? ==> w'.state == DoDrain(w.state).0)
  {
  }

  /**
   * Here the second drain and the third, which starts later, end in CancelledError though only the
   * first was cancelled.
   */
  lemma CancellingOneCancelsAll()
    ensures var drains := Run([Made, Pause, Drain, Drain, CancelDrain(0), Drain, Wake(1)], 7).drains;
            && |drains| == 3 && drains[0].cancelled && !drains[1].cancelled && !drains[1].late
            && !drains[2].cancelled && !drains[2].late
            && drains[1].ended == Some(Cancelled) && drains[2].ended == Some(Cancelled)
  {
    var events := [Made, Pause, Drain, Drain, CancelDrain(0), Drain, Wake(1)];
    assert Run(events, 2) == World(State(true, true, None, []), [], 0) by {
      assert Run(events, 1) == World(State(false, true, None, []), [], 0);
    }
    var first := DrainOf(0, 0, false, false, None);
    var hit := first.(cancelled := true);
    assert Run(events, 3) == World(State(true, true, Some(0), [Pending]), [first], 0);
    assert Run(events, 4) == World(State(true, true, Some(0), [Pending]), [first, first], 0);
    assert Run(events, 5) == World(State(true, true, Some(0), [Cancelled]), [hit, first], 0);
    var third := first.(ended := Some(Cancelled));
    assert Run(events, 6) == World(State(true, true, Some(0), [Cancelled]), [hit, first, third], 0);
  }

  // ------------------------------------------------------------------ the object

  class Future {
    var outcome: Outcome

    constructor ()
      ensures outcome == Pending
    {
      outcome := Pending;
    }

    method SetOutcome(outcome: Outcome)
      modifies this
      ensures this.outcome == outcome
    {
      this.outcome := outcome;
    }

    /** Cancelling a future that is done does nothing. */
    method Cancel()
      modifies this
      ensures outcome == if old(outcome).Pending? then Cancelled else old(outcome)
    {
      if outcome.Pending? {
        outcome := Cancelled;
      }
    }
  }

  ghost function Outcomes(futures: seq<Future>): seq<Outcome>
    reads futures
  {
    seq(|futures|, i requires 0 <= i < |futures| reads futures => futures[i].outcome)
  }

  class Protocol {
    var paused: bool
    var connected: bool
    var drainWaiter: Future?
    ghost var made: seq<Future>

    /** Futures are told apart, and the waiter, if any, is the last one made. */
    ghost predicate Valid()
      reads this
    {
      && (forall i, j :: 0 <= i < j < |made| ==> made[i] != made[j])
      && (drainWaiter != null ==> made != [] && drainWaiter == made[|made| - 1])
    }

    ghost function Model(): State
      requires Valid()
      reads this, made
    {
      State(paused, connected, if drainWaiter == null then None else Some(|made| - 1), Outcomes(made))
    }

    constructor ()
      ensures Valid() && Model() == START.state && made == []
    {
      paused, connected, drainWaiter, made := false, false, null, [];
    }

    method PauseWriting() returns (reply: Reply)
      requires Valid()
      modifies this`paused
      ensures Valid() && made == old(made)
      ensures Model() == old(Model()).(paused := true) && (reply == AssertionError <==> old(paused))
    {
      if paused {
        return AssertionError;
      }
      paused := true;
      reply := Ok;
    }

    method ResumeWriting() returns (reply: Reply)
      requires Valid()
      modifies this`paused, this`drainWaiter, made
      ensures Valid() && made == old(made)
      ensures Model() == DoResume(old(Model())).0 && reply == DoResume(old(Model())).1
    {
      if !paused {
        return AssertionError;
      }
      paused := false;
      var waiter := drainWaiter;
      if waiter != null {
        drainWaiter := null;
        if waiter.outcome.Pending? {
          waiter.SetOutcome(Resumed);
        }
      }
      reply := Ok;
    }

    method ConnectionMade()
      requires Valid()
      modifies this`connected
      ensures Valid() && made == old(made)
      ensures Model() == old(Model()).(connected := true)
    {
      connected := true;
    }

    method ConnectionLost(failed: bool)
      requires Valid()
      modifies this`connected, this`drainWaiter, made
      ensures Valid() && made == old(made)
      ensures Model() == DoLost(old(Model()), failed)
    {
      connected := false;
      if !paused {
        return;
      }
      var waiter := drainWaiter;
      if waiter == null {
        return;
      }
      drainWaiter := null;
      if !waiter.outcome.Pending? {
        return;
      }
      waiter.SetOutcome(if failed then Failed else Resumed);
    }

    /** Returns the future to await, if any; `reset` is the exception for a closed connection. */
    method DrainHelper() returns (waiter: Future?, reset: bool)
      requires Valid()
      modifies this`drainWaiter, this`made
      ensures Valid() && old(made) <= made && (forall f :: f in made[|old(made)|..] ==> fresh(f))
      ensures Model() == DoDrain(old(Model())).0
      ensures var reply := DoDrain(old(Model())).1;
              && (reset <==> reply.ConnectionReset?)
              && (if reply.Awaits? then reply.future < |made| && waiter == made[reply.future] else waiter == null)
    {
      if !connected {
        return null, true;
      }
      if !paused {
        return null, false;
      }
      waiter := drainWaiter;
      if waiter == null {
        waiter := new Future();
        drainWaiter := waiter;
        made := made + [waiter];
      }
      reset := false;
    }

    /** The task of a drain suspended on that future is cancelled. */
    method CancelTask(waiter: Future, ghost i: nat)
      requires Valid() && i < |made| && made[i] == waiter
      modifies waiter
      ensures Valid()
      ensures Model() == old(Model()).(futures := Settle(old(Model()).futures, i, Cancelled))
    {
      waiter.Cancel();
    }
  }
}
