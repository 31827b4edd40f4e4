/**
 * The staggered race (backend/uploads/3a52126cec6b4f2490830cf5e3603678__staggered.py).
 *
 * The coroutines, the exceptions list and the current start signal form a
 * World that moves by atomic Events; a schedule is any legal sequence of them.
 * StaggeredRace is the racing loop: wherever it awaits, an arbitrary legal
 * sequence of background events happens first.
 */
module StaggeredRace {
  import opened Common

  datatype Error =
    | OsError(errno: Option<int>, text: string)
    | RuntimeError(text: string)
    | OtherError(text: string)
    | CancelledError

  /** Dropped: cancelled before its first step, so its body never ran. */
  datatype Coro<T> = Created | Running | Failed(error: Error) | Succeeded(value: T) | Dropped
  {
    predicate Unfinished() { Created? || Running? }
  }

  /** signalled: the start_next future of the latest coroutine is done. */
  datatype World<T> = World(coros: seq<Coro<T>>, exceptions: seq<Option<Error>>, signalled: bool)

  datatype Event<T> =
    | Start
    | Begin(i: nat)
    | Raise(i: nat, error: Error)
    | Return(i: nat, value: T)
    | Timer
    | Drop(i: nat)

  predicate Enabled<T>(w: World<T>, e: Event<T>, delayed: bool)
  {
    match e
    case Start => w.coros == [] || w.signalled
    case Begin(i) => i < |w.coros| && w.coros[i].Created?
    case Raise(i, _) => i < |w.coros| && w.coros[i].Running?
    case Return(i, _) => i < |w.coros| && w.coros[i].Running?
    case Timer => delayed && w.coros != []
    case Drop(i) => i < |w.coros| && w.coros[i].Created?
  }

  /** `run_one_coro` and the timer; an enabled event's effect. */
  function Apply<T>(w: World<T>, e: Event<T>): World<T>
  {
    match e
    case Start => World(w.coros + [Created], w.exceptions + [None], false)
    case Begin(i) => if i < |w.coros| then w.(coros := w.coros[i := Running]) else w
    case Raise(i, error) =>
      if i < |w.coros| == |w.exceptions| then
        World(w.coros[i := Failed(error)], w.exceptions[i := Some(error)], w.signalled || i == |w.coros| - 1)
      else w
    case Return(i, value) => if i < |w.coros| then w.(coros := w.coros[i := Succeeded(value)]) else w
    case Timer => w.(signalled := true)
    case Drop(i) => if i < |w.coros| then w.(coros := w.coros[i := Dropped]) else w
  }

  function After<T>(w: World<T>, es: seq<Event<T>>): World<T>
    decreases |es|
  {
    if es == [] then w else After(Apply(w, es[0]), es[1..])
  }

  predicate Legal<T>(w: World<T>, es: seq<Event<T>>, delayed: bool)
    decreases |es|
  {
    es == [] || (Enabled(w, es[0], delayed) && Legal(Apply(w, es[0]), es[1..], delayed))
  }

  /** Before the first coroutine is started. */
  function Idle<T>(): World<T>
  {
    World([], [], false)
  }

  predicate NoStart<T>(es: seq<Event<T>>)
  {
    forall k :: 0 <= k < |es| ==> !es[k].Start?
  }

  /** Events that happen without the racing loop. */
  predicate Background<T>(es: seq<Event<T>>)
  {
    forall k :: 0 <= k < |es| ==> !es[k].Start? && !es[k].Drop?
  }

  /** What an event does: only the coroutine it names changes, and only a failure leaves an entry. */
  lemma EventsAct<T>(w: World<T>, e: Event<T>, delayed: bool, i: nat)
    requires Enabled(w, e, delayed) && |w.exceptions| == |w.coros| && i < |w.coros|
    ensures var w' := Apply(w, e);
            && |w'.exceptions| == |w'.coros| == |w.coros| + (if e.Start? then 1 else 0)
            && (e.Start? ==> w'.coros[|w.coros|].Created? && w'.exceptions[|w.coros|] == None && !w'.signalled)
            && w'.coros[i] == (if e == Begin(i) then Running
                               else if e.Raise? && e.i == i then Failed(e.error)
                               else if e.Return? && e.i == i then Succeeded(e.value)
                               else if e == Drop(i) then Dropped else w.coros[i])
            && w'.exceptions[i] == (if e.Raise? && e.i == i then Some(e.error) else w.exceptions[i])
            && (!e.Start? ==>
                  (w'.signalled <==> w.signalled || e.Timer? || (e.Raise? && e.i == |w.coros| - 1)))
  {
  }

  /** A race can be won: the first coroutine returns. */
  lemma SuccessCanHappen<T>(value: T, delayed: bool)
    ensures var es := [Start, Begin(0), Return(0, value)];
            Legal(Idle<T>(), es, delayed) && After(Idle<T>(), es) == World([Succeeded(value)], [None], false)
  {
    var a: seq<Event<T>>, b: seq<Event<T>> := [Start], [Begin(0), Return(0, value)];
    assert a + b == [Start, Begin(0), Return(0, value)];
    var w := World([Created], [None], false);
    assert a[1..] == [] && b[1..] == [Return(0, value)] && b[1..][1..] == [];
    assert After(Idle<T>(), a) == After(Apply(Idle<T>(), a[0]), a[1..]) == w;
    var w' := Apply(w, b[0]);
    assert w' == World([Running], [None], false);
    assert After(w, b) == After(w', b[1..]) == Apply(w', b[1]);
    assert Legal(w', b[1..], delayed) && Legal(w, b, delayed);
    assert Legal(Idle<T>(), a, delayed);
    Compose(Idle<T>(), a, b, delayed);
  }

  // ---------------------------------------------------------------- invariants

  /** One exceptions entry a coroutine, set exactly when it failed. */
  ghost predicate EntriesMatch<T>(w: World<T>)
  {
    && |w.exceptions| == |w.coros|
    && (forall i :: 0 <= i < |w.coros| ==>
         w.exceptions[i] == if w.coros[i].Failed? then Some(w.coros[i].error) else None)
  }

  /** The entries match, and the start signal stands for the latest coroutine's failure or its timer. */
  ghost predicate Consistent<T>(w: World<T>, delayed: bool)
  {
    && EntriesMatch(w)
    && (w.coros != [] && w.coros[|w.coros| - 1].Failed? ==> w.signalled)
    && (w.signalled ==> w.coros != [] && (delayed || w.coros[|w.coros| - 1].Failed?))
    && (!delayed ==> forall i :: 0 <= i < |w.coros| - 1 ==> w.coros[i].Failed?)
  }

  /** The coroutines of w are still there in w', and the finished ones are unchanged. */
  ghost predicate Extends<T>(w: World<T>, w': World<T>)
  {
    && |w.coros| <= |w'.coros|
    && (forall i :: 0 <= i < |w.coros| && !w.coros[i].Unfinished() ==> w'.coros[i] == w.coros[i])
    && (|w.coros| == |w'.coros| && w.signalled ==> w'.signalled)
  }

  ghost predicate NoneDropped<T>(w: World<T>)
  {
    forall i :: 0 <= i < |w.coros| ==> !w.coros[i].Dropped?
  }

  lemma StepKeeps<T>(w: World<T>, e: Event<T>, delayed: bool)
    requires Consistent(w, delayed) && Enabled(w, e, delayed)
    ensures Consistent(Apply(w, e), delayed) && Extends(w, Apply(w, e))
    ensures !e.Start? ==> |Apply(w, e).coros| == |w.coros|
    ensures !e.Drop? && NoneDropped(w) ==> NoneDropped(Apply(w, e))
  {
  }

  lemma {:induction false} ScheduleKeeps<T>(w: World<T>, es: seq<Event<T>>, delayed: bool)
    requires Consistent(w, delayed) && Legal(w, es, delayed)
    ensures Consistent(After(w, es), delayed) && Extends(w, After(w, es))
    ensures NoStart(es) ==> |After(w, es).coros| == |w.coros|
    ensures Background(es) && NoneDropped(w) ==> NoneDropped(After(w, es))
    decreases |es|
  {
    if es != [] {
      StepKeeps(w, es[0], delayed);
      ScheduleKeeps(Apply(w, es[0]), es[1..], delayed);
    }
  }

  lemma {:induction false} Compose<T>(w: World<T>, a: seq<Event<T>>, b: seq<Event<T>>, delayed: bool)
    ensures After(w, a + b) == After(After(w, a), b)
    ensures Legal(w, a + b, delayed) <==> Legal(w, a, delayed) && Legal(After(w, a), b, delayed)
    decreases |a|
  {
    if a == [] {
      assert a + b == b;
    } else {
      assert (a + b)[1..] == a[1..] + b;
      Compose(Apply(w, a[0]), a[1..], b, delayed);
    }
  }

  /** The schedule is a legal one from the start, and w is where it leads. */
  ghost predicate Reached<T>(schedule: seq<Event<T>>, w: World<T>, delayed: bool)
  {
    Legal(Idle<T>(), schedule, delayed) && w == After(Idle<T>(), schedule) && Consistent(w, delayed)
  }

  lemma Continue<T>(schedule: seq<Event<T>>, w: World<T>, es: seq<Event<T>>, w': World<T>, delayed: bool)
    requires Reached(schedule, w, delayed) && Legal(w, es, delayed) && w' == After(w, es)
    ensures Reached(schedule + es, w', delayed) && Extends(w, w')
    ensures NoStart(es) ==> |w'.coros| == |w.coros|
    ensures Background(es) && NoneDropped(w) ==> NoneDropped(w')
  {
    Compose(Idle<T>(), schedule, es, delayed);
    ScheduleKeeps(w, es, delayed);
  }

  /** Without a delay two coroutines are never unfinished at once, at any point of any legal schedule. */
  lemma SequentialWithoutDelay<T>(es: seq<Event<T>>, k: nat, i: nat, j: nat)
    requires Legal(Idle<T>(), es, false) && k <= |es|
    ensures var w := After(Idle<T>(), es[..k]);
            i < j < |w.coros| ==> !(w.coros[i].Unfinished() && w.coros[j].Unfinished())
  {
    var init := Idle<T>();
    assert es == es[..k] + es[k..];
    Compose(init, es[..k], es[k..], false);
    ScheduleKeeps(init, es[..k], false);
  }

  // ------------------------------------------------------------------ the race

  datatype Wakeup = TaskDone(i: nat) | StartNext | Interrupt

  datatype Outcome<T> = Winner(value: T, index: nat) | NoWinner | Interrupted

  /** The futures handed to `_wait_one` that are done. */
  predicate IsDone<T>(w: World<T>, tasks: set<nat>, pending: bool, done: Wakeup)
  {
    match done
    case TaskDone(i) => i in tasks && i < |w.coros| && !w.coros[i].Unfinished()
    case StartNext => pending && w.signalled
    case Interrupt => true
  }

  /** Tasks that are still running can always finish, so a wait can always return. */
  lemma CanWake<T>(w: World<T>, tasks: set<nat>, pending: bool, delayed: bool)
      returns (es: seq<Event<T>>, done: Wakeup)
    requires Consistent(w, delayed) && forall i :: i in tasks ==> i < |w.coros|
    requires tasks != {} || (pending && w.signalled)
    ensures Legal(w, es, delayed) && Background(es)
    ensures IsDone(After(w, es), tasks, pending, done) && !done.Interrupt?
  {
    if tasks == {} {
      es, done := [], StartNext;
    } else {
      var i :| i in tasks;
      es, done := Ending(w, i, delayed), TaskDone(i);
    }
  }

  /** A schedule that ends coroutine i. */
  function Ending<T>(w: World<T>, i: nat, delayed: bool): (es: seq<Event<T>>)
    requires i < |w.coros| == |w.exceptions|
    ensures Legal(w, es, delayed) && Background(es)
    ensures i < |After(w, es).coros| && !After(w, es).coros[i].Unfinished()
  {
    if w.coros[i].Created? then
      var es := [Begin(i), Raise(i, CancelledError)];
      assert es[1..] == [Raise(i, CancelledError)] && es[1..][1..] == [];
      assert After(w, es) == After(Apply(w, es[0]), es[1..]) == Apply(Apply(w, es[0]), es[1]);
      es
    else if w.coros[i].Running? then
      var es := [Raise(i, CancelledError)];
      assert es[1..] == [];
      es
    else []
  }

  /** `_wait_one`: some background events happen, and one of the futures that are done wakes the loop. */
  method WaitOne<T>(w: World<T>, tasks: set<nat>, pending: bool, delayed: bool)
      returns (w': World<T>, done: Wakeup, es: seq<Event<T>>)
    requires Consistent(w, delayed) && forall i :: i in tasks ==> i < |w.coros|
    requires tasks != {} || (pending && w.signalled)
    ensures Legal(w, es, delayed) && Background(es) && w' == After(w, es)
    ensures IsDone(w', tasks, pending, done)
  {
    ghost var possible, wake := CanWake(w, tasks, pending, delayed);
    var happened: seq<Event<T>>, woken: Wakeup :|
      Legal(w, happened, delayed) && Background(happened) && IsDone(After(w, happened), tasks, pending, woken);
    es, done, w' := happened, woken, After(w, happened);
  }

  /** Await a task: background events happen until it is finished. */
  method AwaitTask<T>(w: World<T>, i: nat, delayed: bool) returns (w': World<T>, es: seq<Event<T>>)
    requires Consistent(w, delayed) && i < |w.coros|
    ensures Legal(w, es, delayed) && Background(es) && w' == After(w, es)
    ensures i < |w'.coros| && !w'.coros[i].Unfinished()
  {
    ghost var possible := Ending(w, i, delayed);
    var happened: seq<Event<T>> :|
      Legal(w, happened, delayed) && Background(happened) &&
      i < |After(w, happened).coros| && !After(w, happened).coros[i].Unfinished();
    w', es := After(w, happened), happened;
  }

  /** At this point of the schedule coroutine i is cancelled: if it has not begun it never will. */
  ghost predicate CancelledAt<T>(schedule: seq<Event<T>>, p: nat, i: nat)
  {
    p <= |schedule| &&
    var w := After(Idle<T>(), schedule[..p]);
    i < |w.coros| && (w.coros[i].Created? ==> p < |schedule| && schedule[p] == Drop(i))
  }

  /** All these were cancelled, at the points noted. */
  ghost predicate AllCancelled<T>(schedule: seq<Event<T>>, tasks: set<nat>, at: map<nat, nat>, from: nat)
  {
    forall i :: i in tasks ==> i in at && from <= at[i] && CancelledAt(schedule, at[i], i)
  }

  lemma CancelledStays<T>(schedule: seq<Event<T>>, tasks: set<nat>, at: map<nat, nat>, from: nat, more: seq<Event<T>>)
    requires AllCancelled(schedule, tasks, at, from)
    ensures AllCancelled(schedule + more, tasks, at, from)
  {
    forall i | i in tasks ensures CancelledAt(schedule + more, at[i], i) {
      assert CancelledAt(schedule, at[i], i);
      assert (schedule + more)[..at[i]] == schedule[..at[i]];
    }
  }

  lemma CancelledNow<T>(schedule: seq<Event<T>>, w: World<T>, i: nat, more: seq<Event<T>>)
    requires w == After(Idle<T>(), schedule) && i < |w.coros|
    requires w.coros[i].Created? ==> more != [] && more[0] == Drop(i)
    ensures CancelledAt(schedule + more, |schedule|, i)
  {
    assert (schedule + more)[..|schedule|] == schedule;
  }

  /** Cancel a task and wait for it. */
  method CancelOne<T>(w: World<T>, i: nat, delayed: bool, schedule: seq<Event<T>>)
      returns (w': World<T>, more: seq<Event<T>>)
    requires Reached(schedule, w, delayed) && i < |w.coros|
    ensures Reached(schedule + more, w', delayed) && Extends(w, w') && |w'.coros| == |w.coros|
    ensures !w'.coros[i].Unfinished() && CancelledAt(schedule + more, |schedule|, i)
  {
    w', more := w, [];
    if w.coros[i].Created? {  // cancelled before its first step
      w', more := Apply(w, Drop(i)), [Drop(i)];
      Continue(schedule, w, more, w', delayed);
    }
    assert schedule + [] == schedule;
    ghost var before := w';
    var dropped := more;
    var es;
    w', es := AwaitTask(w', i, delayed);
    Continue(schedule + dropped, before, es, w', delayed);
    more := dropped + es;
    assert schedule + dropped + es == schedule + more;
    CancelledNow(schedule, w, i, more);
  }

  /** The `finally` block: cancel each remaining task and wait for it; one that has not begun is dropped. */
  method CancelRest<T>(w: World<T>, tasks: set<nat>, delayed: bool, schedule: seq<Event<T>>)
      returns (w': World<T>, schedule': seq<Event<T>>, ghost at: map<nat, nat>)
    requires Reached(schedule, w, delayed) && forall i :: i in tasks ==> i < |w.coros|
    ensures Reached(schedule', w', delayed) && Extends(w, w') && |w'.coros| == |w.coros| && schedule <= schedule'
    ensures forall i :: i in tasks ==> !w'.coros[i].Unfinished()
    ensures AllCancelled(schedule', tasks, at, |schedule|)
  {
    var rest := tasks;
    w', schedule', at := w, schedule, map[];
    while rest != {}
      invariant rest <= tasks && Reached(schedule', w', delayed) && Extends(w, w') && |w'.coros| == |w.coros|
      invariant schedule <= schedule' && AllCancelled(schedule', tasks - rest, at, |schedule|)
      invariant forall i :: i in tasks - rest ==> !w'.coros[i].Unfinished()
      decreases |rest|
    {
      var i :| i in rest;
      ghost var before := schedule';
      var more;
      w', more := CancelOne(w', i, delayed, schedule');
      schedule' := schedule' + more;
      CancelledStays(before, tasks - rest, at, |schedule|, more);
      at := at[i := |before|];
      rest := rest - {i};
    }
  }

  /** Where the race stands: a prefix of length next is started, what is not in tasks has failed. */
  ghost predicate Racing<T>(w: World<T>, tasks: set<nat>, next: nat)
  {
    && |w.coros| == next && NoneDropped(w)
    && (forall i :: i in tasks ==> i < next)
    && (forall i :: 0 <= i < next && i !in tasks ==> w.coros[i].Failed?)
  }

  /** One turn of the waiting loop. */
  method Turn<T>(w: World<T>, tasks: set<nat>, pending: bool, delayed: bool, schedule: seq<Event<T>>)
      returns (w': World<T>, done: Wakeup, schedule': seq<Event<T>>)
    requires Reached(schedule, w, delayed) && Racing(w, tasks, |w.coros|) && w.coros != []
    requires tasks != {} || pending
    ensures Reached(schedule', w', delayed) && Racing(w', tasks, |w.coros|) && Extends(w, w')
    ensures IsDone(w', tasks, pending, done)
  {
    var es;
    w', done, es := WaitOne(w, tasks, pending, delayed);
    Continue(schedule, w, es, w', delayed);
    schedule' := schedule + es;
  }

  ghost predicate AllFailed<T>(w: World<T>)
  {
    forall i :: 0 <= i < |w.coros| ==> w.coros[i].Failed?
  }

  ghost predicate AllFinished<T>(w: World<T>)
  {
    forall i :: 0 <= i < |w.coros| ==> !w.coros[i].Unfinished()
  }

  /** The outcome fits what the coroutines did. */
  ghost predicate OutcomeOk<T>(outcome: Outcome<T>, w: World<T>)
  {
    outcome.Winner? ==> outcome.index < |w.coros| && w.coros[outcome.index] == Succeeded(outcome.value)
  }

  /** A success among the tasks. */
  predicate Wins<T>(done: Wakeup, w: World<T>)
  {
    done.TaskDone? && done.i < |w.coros| && w.coros[done.i].Succeeded?
  }

  /**
   * The outcome is that of the last wake-up: an interruption, or a task that has succeeded, who is
   * the winner; no wake-up before it was either, and no task wakes the loop twice.
   */
  ghost predicate DecidedBy<T>(outcome: Outcome<T>, wakes: seq<Wakeup>, w: World<T>)
  {
    && (forall k :: 0 <= k < |wakes| - 1 ==> !wakes[k].Interrupt? && !Wins(wakes[k], w))
    && (outcome.Interrupted? <==> wakes != [] && wakes[|wakes| - 1].Interrupt?)
    && (outcome.Winner? <==> wakes != [] && Wins(wakes[|wakes| - 1], w))
    && (outcome.Winner? ==>
          outcome.index == wakes[|wakes| - 1].i && w.coros[outcome.index] == Succeeded(outcome.value))
    && (forall j, k :: 0 <= j < k < |wakes| && wakes[j].TaskDone? ==> wakes[j] != wakes[k])
  }

  /** The tasks that woke the loop are finished, and the loop no longer waits for them. */
  ghost predicate Woken<T>(wakes: seq<Wakeup>, w: World<T>, tasks: set<nat>)
  {
    forall k :: 0 <= k < |wakes| && wakes[k].TaskDone? ==>
      wakes[k].i < |w.coros| && !w.coros[wakes[k].i].Unfinished() && wakes[k].i !in tasks
  }

  /** How often the loop was woken to start the next coroutine. */
  function StartsIn(wakes: seq<Wakeup>): nat
  {
    if wakes == [] then 0
    else StartsIn(wakes[..|wakes| - 1]) + (if wakes[|wakes| - 1].StartNext? then 1 else 0)
  }

  lemma StartsOfSnoc(wakes: seq<Wakeup>, done: Wakeup)
    ensures StartsIn(wakes + [done]) == StartsIn(wakes) + (if done.StartNext? then 1 else 0)
  {
    assert (wakes + [done])[..|wakes|] == wakes;
  }

  /** What has finished stays as it is, so the decision does too. */
  lemma DecisionStays<T>(outcome: Outcome<T>, wakes: seq<Wakeup>, w: World<T>, tasks: set<nat>, w': World<T>)
    requires DecidedBy(outcome, wakes, w) && Woken(wakes, w, tasks) && Extends(w, w')
    ensures DecidedBy(outcome, wakes, w') && Woken(wakes, w', tasks)
  {
  }

  /** One more wake-up. */
  lemma WokenOnce<T>(wakes: seq<Wakeup>, done: Wakeup, w: World<T>, tasks: set<nat>, outcome: Outcome<T>)
    requires DecidedBy(Outcome<T>.NoWinner, wakes, w) && Woken(wakes, w, tasks)
    requires done.TaskDone? ==> done.i in tasks && done.i < |w.coros| && !w.coros[done.i].Unfinished()
    requires outcome == if done.Interrupt? then Interrupted
                        else if Wins(done, w) then Winner(w.coros[done.i].value, done.i) else NoWinner
    ensures DecidedBy(outcome, wakes + [done], w)
    ensures Woken(wakes + [done], w, if done.TaskDone? then tasks - {done.i} else tasks)
    ensures StartsIn(wakes + [done]) == StartsIn(wakes) + (if done.StartNext? then 1 else 0)
  {
    StartsOfSnoc(wakes, done);
  }

  /** Start the next coroutine. */
  method Launch<T>(w: World<T>, tasks: set<nat>, delayed: bool, schedule: seq<Event<T>>, ghost wakes: seq<Wakeup>)
      returns (w': World<T>, schedule': seq<Event<T>>)
    requires Reached(schedule, w, delayed) && Racing(w, tasks, |w.coros|) && Enabled(w, Event<T>.Start, delayed)
    requires DecidedBy(Outcome<T>.NoWinner, wakes, w) && Woken(wakes, w, tasks)
    ensures Reached(schedule', w', delayed) && Racing(w', tasks + {|w.coros|}, |w.coros| + 1)
    ensures DecidedBy(Outcome<T>.NoWinner, wakes, w') && Woken(wakes, w', tasks + {|w.coros|})
  {
    w' := Apply(w, Start);
    Continue(schedule, w, [Start], w', delayed);
    DecisionStays(Outcome<T>.NoWinner, wakes, w, tasks, w');
    schedule' := schedule + [Start];
  }

  /**
   * The inner loop: wait until the next coroutine is due, there is a winner, or
   * no task is left.  Without a verdict the race goes on.
   */
  method AwaitTurns<T>(w: World<T>, tasks: set<nat>, pending: bool, delayed: bool, schedule: seq<Event<T>>,
                       wakes: seq<Wakeup>)
      returns (verdict: Outcome<T>, w': World<T>, tasks': set<nat>, wakes': seq<Wakeup>, schedule': seq<Event<T>>)
    requires Reached(schedule, w, delayed) && Racing(w, tasks, |w.coros|) && w.coros != []
    requires DecidedBy(Outcome<T>.NoWinner, wakes, w) && Woken(wakes, w, tasks)
    ensures Reached(schedule', w', delayed) && OutcomeOk(verdict, w') && |w'.coros| == |w.coros| && tasks' <= tasks
    ensures wakes <= wakes' && DecidedBy(verdict, wakes', w') && Woken(wakes', w', tasks')
    ensures |wakes'| + (if verdict.NoWinner? then |tasks'| else 0) <= |wakes| + |tasks| + (if pending then 1 else 0)
    ensures verdict.NoWinner? ==> Racing(w', tasks', |w.coros|) && (if pending then w'.signalled else tasks' == {})
    ensures StartsIn(wakes') == StartsIn(wakes) + (if pending && verdict.NoWinner? then 1 else 0)
    ensures forall i :: 0 <= i < |w.coros| && i !in tasks' ==> !w'.coros[i].Unfinished()
  {
    var waiting := pending;
    verdict, w', tasks', wakes', schedule' := NoWinner, w, tasks, wakes, schedule;
    while tasks' != {} || waiting
      invariant verdict.NoWinner? && tasks' <= tasks
      invariant pending && !waiting ==> w'.signalled
      invariant waiting == pending
      invariant Reached(schedule', w', delayed) && Racing(w', tasks', |w.coros|)
      invariant wakes <= wakes' && DecidedBy(verdict, wakes', w') && Woken(wakes', w', tasks')
      invariant StartsIn(wakes') == StartsIn(wakes)
      invariant |wakes'| + |tasks'| <= |wakes| + |tasks|
      decreases |tasks'|
    {
      var done;
      ghost var before := w';
      w', done, schedule' := Turn(w', tasks', waiting, delayed, schedule');
      DecisionStays(verdict, wakes', before, tasks', w');
      WokenOnce(wakes', done, w', tasks',
                if done.Interrupt? then Interrupted
                else if Wins(done, w') then Winner(w'.coros[done.i].value, done.i) else NoWinner);
      wakes' := wakes' + [done];
      match done
      case Interrupt =>
        verdict := Interrupted;
        break;
      case StartNext =>
        waiting := false;
        break;
      case TaskDone(i) =>
        tasks' := tasks' - {i};
        if w'.coros[i].Succeeded? {
          verdict := Winner(w'.coros[i].value, i);
          break;
        }
    }
  }

  /** One round of the racing loop: start the next coroutine, if there is one, and wait. */
  method Round<T>(w: World<T>, tasks: set<nat>, pending: bool, delayed: bool, schedule: seq<Event<T>>,
                  wakes: seq<Wakeup>)
      returns (verdict: Outcome<T>, w': World<T>, tasks': set<nat>, wakes': seq<Wakeup>, schedule': seq<Event<T>>)
    requires Reached(schedule, w, delayed) && Racing(w, tasks, |w.coros|)
    requires DecidedBy(Outcome<T>.NoWinner, wakes, w) && Woken(wakes, w, tasks)
    requires if pending then w.coros == [] || w.signalled else tasks != {}
    ensures Reached(schedule', w', delayed) && Stands(verdict, w', tasks', wakes')
    ensures |w'.coros| == |w.coros| + (if pending then 1 else 0)
    ensures |wakes'| + (if verdict.NoWinner? then |tasks'| else 0) <= |wakes| + |tasks| + (if pending then 2 else 0)
    ensures StartsIn(wakes') == StartsIn(wakes) + (if pending && verdict.NoWinner? then 1 else 0)
    ensures verdict.NoWinner? ==> if pending then w'.signalled else tasks' == {}
  {
    w', tasks', schedule' := w, tasks, schedule;
    if pending {
      w', schedule' := Launch(w, tasks, delayed, schedule, wakes);
      tasks' := tasks + {|w.coros|};
    }
    assert w'.coros != [];
    verdict, w', tasks', wakes', schedule' := AwaitTurns(w', tasks', pending, delayed, schedule', wakes);
  }

  /** Where the race stands after a round. */
  ghost predicate Stands<T>(verdict: Outcome<T>, w: World<T>, tasks: set<nat>, wakes: seq<Wakeup>)
  {
    && OutcomeOk(verdict, w) && DecidedBy(verdict, wakes, w) && Woken(wakes, w, tasks)
    && (verdict.NoWinner? ==> Racing(w, tasks, |w.coros|))
    && (forall i :: i in tasks ==> i < |w.coros|)
    && (forall i :: 0 <= i < |w.coros| && i !in tasks ==> !w.coros[i].Unfinished())
  }

  /** Where the racing loop ends: with a verdict, or with all started and failed. */
  ghost predicate Decided<F, T>(fns: seq<F>, outcome: Outcome<T>, w: World<T>, launched: seq<F>, tasks: set<nat>)
  {
    && launched <= fns && |launched| == |w.coros| && OutcomeOk(outcome, w)
    && (forall i :: i in tasks ==> i < |w.coros|)
    && (forall i :: 0 <= i < |w.coros| && i !in tasks ==> !w.coros[i].Unfinished())
    && (outcome.NoWinner? ==> |launched| == |fns| && AllFailed(w))
  }

  /** The racing loop. */
  method Contest<F, T>(fns: seq<F>, delayed: bool)
      returns (outcome: Outcome<T>, w: World<T>, launched: seq<F>, tasks: set<nat>, wakes: seq<Wakeup>,
               schedule: seq<Event<T>>)
    ensures |wakes| <= 2 * |fns| && Reached(schedule, w, delayed) && Decided(fns, outcome, w, launched, tasks)
    ensures DecidedBy(outcome, wakes, w) && Woken(wakes, w, tasks) && |launched| == Min(|fns|, StartsIn(wakes) + 1)
  {
    w, launched, tasks, wakes, schedule, outcome := Idle(), [], {}, [], [], NoWinner;
    while |launched| < |fns| || tasks != {}
      invariant outcome.NoWinner? && launched <= fns && |launched| == |w.coros|
      invariant Reached(schedule, w, delayed) && Stands(outcome, w, tasks, wakes)
      invariant launched == [] || launched == fns || w.signalled
      invariant |launched| == Min(|fns|, StartsIn(wakes))
      invariant |wakes| + |tasks| <= 2 * |launched|
      decreases |fns| - |launched|, |tasks|
    {
      var pending := |launched| < |fns|;
      ghost var before := launched;
      if pending { launched := launched + [fns[|launched|]]; }
      outcome, w, tasks, wakes, schedule := Round(w, tasks, pending, delayed, schedule, wakes);
      if !outcome.NoWinner? { break; }
    }
  }

  /** Cancelling what is left changes neither the winner nor that all have failed. */
  lemma DecidedStays<F, T>(fns: seq<F>, outcome: Outcome<T>, w: World<T>, launched: seq<F>, tasks: set<nat>,
                           after: World<T>)
    requires Decided(fns, outcome, w, launched, tasks) && Extends(w, after) && |after.coros| == |w.coros|
    requires EntriesMatch(after) && forall i :: i in tasks ==> i < |after.coros| && !after.coros[i].Unfinished()
    ensures AllFinished(after) && OutcomeOk(outcome, after)
    ensures outcome.Winner? ==> after.exceptions[outcome.index] == None
    ensures outcome.NoWinner? <==> !outcome.Interrupted? && |launched| == |fns| && AllFailed(after)
  {
    forall i | 0 <= i < |after.coros| ensures !after.coros[i].Unfinished() {
      if i !in tasks {
        assert after.coros[i] == w.coros[i];
      }
    }
    if outcome.Winner? {
      assert after.coros[outcome.index] == w.coros[outcome.index];
    }
  }

  /**
   * The race over fns, under every schedule: at most two waits per coroutine
   * function; a prefix of fns is started, in order, each with its exceptions
   * entry; nothing is left running; no winner exactly when all were started and
   * failed; otherwise the winner succeeded and its entry is None.
   */
  method Race<F, T>(fns: seq<F>, delayed: bool)
      returns (outcome: Outcome<T>, w: World<T>, launched: seq<F>, wakes: seq<Wakeup>, schedule: seq<Event<T>>)
    ensures |wakes| <= 2 * |fns| && DecidedBy(outcome, wakes, w) && |launched| == Min(|fns|, StartsIn(wakes) + 1)
    ensures Reached(schedule, w, delayed)
    ensures launched <= fns && |launched| == |w.coros| && AllFinished(w) && EntriesMatch(w)
    ensures OutcomeOk(outcome, w) && (outcome.Winner? ==> w.exceptions[outcome.index] == None)
    ensures outcome.NoWinner? <==> !outcome.Interrupted? && |launched| == |fns| && AllFailed(w)
  {
    var before, tasks;
    outcome, before, launched, tasks, wakes, schedule := Contest(fns, delayed);
    ghost var at;
    w, schedule, at := CancelRest(before, tasks, delayed, schedule);
    DecisionStays(outcome, wakes, before, tasks, w);
    DecidedStays(fns, outcome, before, launched, tasks, w);
  }
}
