/**
 * The mailbox monitor (Email/server/monitor.js) as a state machine whose steps
 * are the stretches of code between two awaits.
 *
 * One mailbox that only grows is synchronised into the store.  Calls of
 * `#syncNew` are suspended in `calls`, the event loop's pending setImmediate
 * callbacks are counted in `followUps`, and stopping, starting, connecting and
 * losing a connection are the Link event, which may set both flags at any
 * moment.
 */
module EmailMonitor {
  import opened Common
  import S = EmailStore

  /** A message in the mailbox; hasSource is false when the server sends no body for it. */
  datatype Message = Message(uid: int, hasSource: bool, messageId: string, content: string)

  /** The ranges `startSeq:*` (sequence numbers, from 1) and `uid:*`. */
  datatype Range = BySeq(start: nat) | ByUid(from: int)

  /** Where a call inside the guarded section is suspended; positions are mailbox positions. */
  datatype Phase =
    | Requested(range: Range)
    | Streaming(next: nat, end: nat)
    | Parsing(at: nat, end: nat)

  datatype Config = Config(syncLimit: nat, cap: nat, assess: S.Email -> string)

  /**
   * The server's mailbox and the store.  The rest is a record of what happened:
   * the emails emitted and the positions they come from, the positions turned
   * away as duplicates, and the start of the last backfill.
   */
  datatype Mail = Mail(
    mailbox: seq<Message>, store: S.StoreState,
    emitted: seq<S.Email>, origins: seq<nat>, rejected: set<nat>, base: nat)

  /**
   * The flags `_fetching` and `_fetchQueued` and the pending follow-ups.  The
   * record part is the time, the times of the forced calls, and the last time
   * the guarded section was entered.
   */
  datatype Gate = Gate(
    fetching: bool, queued: bool, followUps: nat,
    clock: nat, forced: set<nat>, entered: int)

  datatype State = State(mail: Mail, gate: Gate, calls: map<nat, Phase>, stopped: bool, online: bool)

  datatype Event =
    | Arrive(msg: Message)
    | Sync(force: bool, known: nat)
    | FollowUp(known: nat)
    | Serve(id: nat)
    | Deliver(id: nat)
    | Parsed(id: nat)
    | Exit(id: nat)
    | Link(stopped: bool, online: bool)

  // --------------------------------------------------------------------- steps

  function ParsedEmail(m: Message, cfg: Config): S.Email
  {
    S.Sealed(S.Email(Some(m.uid), m.messageId, None, m.content), cfg.assess)
  }

  /** The first mailbox position with a uid of at least `from`. */
  function FirstFrom(mailbox: seq<Message>, from: int): (k: nat)
    ensures k <= |mailbox|
    ensures forall i :: 0 <= i < k ==> mailbox[i].uid < from
    ensures k < |mailbox| ==> mailbox[k].uid >= from
  {
    if mailbox == [] || mailbox[0].uid >= from then 0 else 1 + FirstFrom(mailbox[1..], from)
  }

  /** First position the server answers a range with; `n:*` always includes the last message. */
  function Answer(mailbox: seq<Message>, range: Range): (p: nat)
    ensures p <= |mailbox|
  {
    match range
    case BySeq(start) => Min(Max(start - 1, 0), Max(|mailbox| - 1, 0))
    case ByUid(from) =>
      var k := FirstFrom(mailbox, from);
      if k == |mailbox| && k > 0 then k - 1 else k
  }

  /** `finally`: leave the guarded section and reschedule a queued call. */
  function Leave(g: Gate): Gate
  {
    g.(fetching := false, queued := false, followUps := if g.queued then g.followUps + 1 else g.followUps)
  }

  function Finish(s: State, id: nat): State
  {
    s.(gate := Leave(s.gate), calls := s.calls - {id})
  }

  /** Where the guarded section gets to before its first await; None when it returns at once. */
  function FirstRequest(s: State, known: nat, cfg: Config): Option<Range>
  {
    if !s.online || s.stopped then None
    else if s.mail.store.lastUid.Some? then Some(ByUid(s.mail.store.lastUid.value + 1))
    else if known == 0 then None
    else Some(BySeq(Max(1, known - Min(cfg.syncLimit, known) + 1)))
  }

  /** A call of `#syncNew` up to its first await. */
  function Call(s: State, force: bool, known: nat, cfg: Config): State
  {
    var g := s.gate.(forced := if force then s.gate.forced + {s.gate.clock} else s.gate.forced);
    if g.fetching then s.(gate := g.(queued := g.queued || force))
    else
      var g := g.(fetching := true, entered := g.clock);
      match FirstRequest(s, known, cfg)
      case None => s.(gate := Leave(g))
      case Some(range) =>
        s.(gate := g, calls := s.calls[g.clock := Requested(range)],
           mail := if range.BySeq? then s.mail.(base := range.start - 1) else s.mail)
  }

  /** One message of the answer, up to the await of the parser. */
  function Process(s: State, id: nat, next: nat, end: nat): State
    requires next < |s.mail.mailbox|
  {
    var m := s.mail.mailbox[next];
    if s.stopped then Finish(s, id)
    else if !m.hasSource then s.(calls := s.calls[id := Streaming(next + 1, end)])
    else if S.Has(s.mail.store.emails, Some(m.uid), "") then
      s.(calls := s.calls[id := Streaming(next + 1, end)], mail := Reject(s.mail, next))
    else s.(calls := s.calls[id := Parsing(next, end)])
  }

  function Reject(m: Mail, p: nat): Mail
  {
    m.(rejected := m.rejected + {p})
  }

  function Emit(m: Mail, p: nat, e: S.Email, cap: nat): Mail
  {
    m.(store := S.Push(m.store, e, cap), emitted := m.emitted + [e], origins := m.origins + [p])
  }

  /** Store and emit a parsed message, unless the store turns it away. */
  function Keep(m: Mail, p: nat, cfg: Config): Mail
    requires p < |m.mailbox|
  {
    var e := ParsedEmail(m.mailbox[p], cfg);
    if S.Has(m.store.emails, e.uid, e.messageId) then Reject(m, p) else Emit(m, p, e, cfg.cap)
  }

  /** Whether an event can happen: uids ascend, and the client knows of no more messages than there are. */
  predicate Enabled(s: State, e: Event)
  {
    var mailbox := s.mail.mailbox;
    match e
    case Arrive(m) => forall i :: 0 <= i < |mailbox| ==> mailbox[i].uid < m.uid
    case Sync(_, n) => n <= |mailbox|
    case FollowUp(n) => n <= |mailbox| && s.gate.followUps > 0
    case Serve(id) => id in s.calls && s.calls[id].Requested?
    case Deliver(id) => id in s.calls && s.calls[id].Streaming? && s.calls[id].next < s.calls[id].end <= |mailbox|
    case Parsed(id) => id in s.calls && s.calls[id].Parsing? && s.calls[id].at < |mailbox|
    case Exit(id) => id in s.calls
    case Link(_, _) => true
  }

  /** Exit covers the end of an answer, a failing fetch and a failing parser alike. */
  function Act(s: State, e: Event, cfg: Config): State
    requires Enabled(s, e)
  {
    match e
    case Arrive(m) => s.(mail := s.mail.(mailbox := s.mail.mailbox + [m]))
    case Sync(force, n) => Call(s, force, n, cfg)
    case FollowUp(n) => Call(s.(gate := s.gate.(followUps := s.gate.followUps - 1)), true, n, cfg)
    case Serve(id) =>
      s.(calls := s.calls[id := Streaming(Answer(s.mail.mailbox, s.calls[id].range), |s.mail.mailbox|)])
    case Deliver(id) => Process(s, id, s.calls[id].next, s.calls[id].end)
    case Parsed(id) =>
      s.(calls := s.calls[id := Streaming(s.calls[id].at + 1, s.calls[id].end)],
         mail := Keep(s.mail, s.calls[id].at, cfg))
    case Exit(id) => Finish(s, id)
    case Link(stopped, online) => s.(stopped := stopped, online := online)
  }

  function Tick(s: State): State
  {
    s.(gate := s.gate.(clock := s.gate.clock + 1))
  }

  /** Events that cannot happen leave the state alone. */
  function Step(s: State, e: Event, cfg: Config): State
  {
    if Enabled(s, e) then Tick(Act(s, e, cfg)) else s
  }

  const INITIAL := State(
    Mail([], S.StoreState([], 0, None), [], [], {}, 0), Gate(false, false, 0, 0, {}, -1), map[], false, false)

  function Run(events: seq<Event>, cfg: Config): State
  {
    if events == [] then INITIAL
    else Step(Run(events[..|events| - 1], cfg), events[|events| - 1], cfg)
  }

  // ---------------------------------------------------------------- invariants

  /** The mailbox position of the newest stored message, -1 when there is none. */
  function Top(m: Mail): int
  {
    if m.origins == [] then -1 else m.origins[|m.origins| - 1]
  }

  ghost predicate AscendingUids(mailbox: seq<Message>)
  {
    forall i, j :: 0 <= i < j < |mailbox| ==> mailbox[i].uid < mailbox[j].uid
  }

  /** Emitted emails come from ascending mailbox positions. */
  ghost predicate OriginsOk(m: Mail, cfg: Config)
  {
    && |m.origins| == |m.emitted|
    && (forall i :: 0 <= i < |m.origins| ==> m.origins[i] < |m.mailbox| && m.mailbox[m.origins[i]].hasSource)
    && (forall i :: 0 <= i < |m.origins| ==> m.emitted[i] == ParsedEmail(m.mailbox[m.origins[i]], cfg))
    && (forall i, j :: 0 <= i < j < |m.origins| ==> m.origins[i] < m.origins[j])
    && (forall p :: p in m.rejected ==> p < |m.mailbox| && m.mailbox[p].hasSource)
  }

  ghost predicate StoreOk(m: Mail, cfg: Config)
  {
    && m.store == S.View(m.emitted, None, cfg.cap)
    && m.store.lastUid == (if 0 <= Top(m) < |m.mailbox| then Some(m.mailbox[Top(m)].uid) else None)
  }

  /** Position p was emitted, or turned away as a duplicate. */
  ghost predicate Settled(m: Mail, p: nat)
  {
    p in m.origins || p in m.rejected
  }

  /** Positions from the backfill start up to `upTo` are settled, but for those without a source. */
  ghost predicate SettledUpTo(m: Mail, upTo: int)
  {
    forall p :: m.base <= p < upTo && p < |m.mailbox| && m.mailbox[p].hasSource ==> Settled(m, p)
  }

  /** Nothing from before the backfill start was emitted or turned away; the first to be settled was emitted. */
  ghost predicate NoneOlder(m: Mail)
  {
    forall p :: Settled(m, p) ==> m.base <= p && m.origins != []
  }

  ghost predicate MailOk(m: Mail, cfg: Config)
  {
    AscendingUids(m.mailbox) && OriginsOk(m, cfg) && StoreOk(m, cfg) && SettledUpTo(m, Top(m) + 1) && NoneOlder(m)
  }

  ghost predicate PhaseOk(m: Mail, phase: Phase)
  {
    match phase
    case Requested(BySeq(start)) => m.origins == [] && start == m.base + 1 && m.base < |m.mailbox|
    case Requested(ByUid(from)) => 0 <= Top(m) < |m.mailbox| && from == m.mailbox[Top(m)].uid + 1
    case Streaming(next, end) =>
      // all still to come is new, or just the newest known message is repeated
      && m.base <= next <= end <= |m.mailbox| && SettledUpTo(m, next)
      && (Top(m) < next || (Top(m) == next && next + 1 == end))
    case Parsing(at, end) =>
      m.base <= at < end <= |m.mailbox| && SettledUpTo(m, at) && Top(m) < at && m.mailbox[at].hasSource
  }

  ghost predicate GateOk(g: Gate)
  {
    && g.entered < g.clock
    && (forall t :: t in g.forced ==> t < g.clock)
    && (g.queued ==> g.fetching)
  }

  /** Every forced call was answered by an entry since, or is still waiting for one. */
  ghost predicate ForcedOk(g: Gate)
  {
    forall t :: t in g.forced ==> g.entered >= t || g.queued || g.followUps > 0
  }

  ghost predicate Inv(s: State, cfg: Config)
  {
    Steady(s, cfg) && ForcedOk(s.gate)
  }

  ghost predicate Steady(s: State, cfg: Config)
  {
    && cfg.syncLimit >= 1 && cfg.cap >= 1
    && MailOk(s.mail, cfg) && GateOk(s.gate)
    && s.calls.Keys == (if s.gate.fetching then {s.gate.entered} else {})
    && (forall id :: id in s.calls ==> PhaseOk(s.mail, s.calls[id]))
  }

  // ------------------------------------------------------ every step keeps them

  /** The newest stored message is still in the window. */
  lemma TopIsStored(m: Mail, cfg: Config)
    requires MailOk(m, cfg) && cfg.cap >= 1 && Top(m) >= 0
    ensures S.Has(m.store.emails, Some(m.mailbox[Top(m)].uid), "")
  {
    var n := |m.store.emails|;
    assert m.store.emails[n - 1] == m.emitted[|m.emitted| - 1];
    assert S.Matches(m.store.emails[n - 1], Some(m.mailbox[Top(m)].uid), "");
  }

  lemma ArriveKeepsMail(m: Mail, msg: Message, cfg: Config)
    requires MailOk(m, cfg)
    requires forall i :: 0 <= i < |m.mailbox| ==> m.mailbox[i].uid < msg.uid
    ensures MailOk(m.(mailbox := m.mailbox + [msg]), cfg)
  {
    var m' := m.(mailbox := m.mailbox + [msg]);
    assert forall p :: Settled(m', p) <==> Settled(m, p);
  }

  lemma ArriveKeepsPhase(m: Mail, msg: Message, phase: Phase)
    requires PhaseOk(m, phase)
    ensures PhaseOk(m.(mailbox := m.mailbox + [msg]), phase)
  {
  }

  lemma RejectKeeps(m: Mail, p: nat, m': Mail, cfg: Config)
    requires MailOk(m, cfg) && m.base <= p < |m.mailbox| && m.mailbox[p].hasSource && SettledUpTo(m, p)
    requires m.store.emails != []
    requires m' == Reject(m, p)
    ensures MailOk(m', cfg) && SettledUpTo(m', p + 1)
  {
    assert m.origins != [];
    assert forall q :: Settled(m', q) <==> Settled(m, q) || q == p;
  }

  lemma EmitKeepsStore(m: Mail, p: nat, e: S.Email, m': Mail, cfg: Config)
    requires AscendingUids(m.mailbox) && StoreOk(m, cfg) && p < |m.mailbox| && Top(m) < p
    requires e == ParsedEmail(m.mailbox[p], cfg) && m' == Emit(m, p, e, cfg.cap)
    ensures StoreOk(m', cfg)
  {
    S.PushExtendsView(m.emitted, None, cfg.cap, e, m.store, m'.emitted);
  }

  lemma EmitKeepsOrigins(m: Mail, p: nat, e: S.Email, m': Mail, cfg: Config)
    requires OriginsOk(m, cfg) && p < |m.mailbox| && m.mailbox[p].hasSource && Top(m) < p
    requires e == ParsedEmail(m.mailbox[p], cfg) && m' == Emit(m, p, e, cfg.cap)
    ensures OriginsOk(m', cfg)
  {
  }

  lemma EmitKeepsNoneOlder(m: Mail, p: nat, e: S.Email, m': Mail, cfg: Config)
    requires NoneOlder(m) && m.base <= p && m' == Emit(m, p, e, cfg.cap)
    ensures NoneOlder(m')
  {
    forall q | Settled(m', q) ensures m.base <= q {
      assert Settled(m, q) || q == p;
    }
  }

  /** Settling position p, whichever way, settles everything up to it. */
  lemma SettlingExtends(m: Mail, p: nat, m': Mail)
    requires SettledUpTo(m, p) && m'.mailbox == m.mailbox && m'.base == m.base
    requires forall q :: Settled(m, q) ==> Settled(m', q)
    requires Settled(m', p)
    ensures SettledUpTo(m', p + 1)
  {
  }

  lemma KeepKeeps(m: Mail, p: nat, m': Mail, cfg: Config)
    requires MailOk(m, cfg) && m.base <= p < |m.mailbox| && m.mailbox[p].hasSource && SettledUpTo(m, p) && Top(m) < p
    requires m' == Keep(m, p, cfg)
    ensures MailOk(m', cfg) && SettledUpTo(m', p + 1) && m'.mailbox == m.mailbox && Top(m') <= p
  {
    var e := ParsedEmail(m.mailbox[p], cfg);
    if S.Has(m.store.emails, e.uid, e.messageId) {
      RejectKeeps(m, p, m', cfg);
    } else {
      EmitKeepsStore(m, p, e, m', cfg);
      EmitKeepsOrigins(m, p, e, m', cfg);
      assert m'.origins[|m.origins|] == p;
      assert forall q :: q in m.origins ==> q in m'.origins;
      SettlingExtends(m, p, m');
      EmitKeepsNoneOlder(m, p, e, m', cfg);
    }
  }

  lemma ServeKeeps(m: Mail, range: Range)
    requires AscendingUids(m.mailbox) && SettledUpTo(m, Top(m) + 1) && NoneOlder(m) && PhaseOk(m, Requested(range))
    ensures PhaseOk(m, Streaming(Answer(m.mailbox, range), |m.mailbox|))
  {
    assert range.ByUid? ==> Settled(m, Top(m));
  }

  /** A call that enters the section and sends a request. */
  lemma RequestKeeps(s: State, range: Range, s': State, cfg: Config)
    requires Steady(s, cfg) && !s.gate.fetching
    requires s'.gate == s.gate.(fetching := true, entered := s.gate.clock, forced := s'.gate.forced)
    requires s'.gate.forced <= s.gate.forced + {s.gate.clock}
    requires s'.calls == s.calls[s.gate.clock := Requested(range)]
    requires MailOk(s'.mail, cfg) && PhaseOk(s'.mail, Requested(range))
    ensures Inv(Tick(s'), cfg)
  {
  }

  /** As long as nothing was settled the backfill can start anywhere. */
  lemma BackfillKeeps(m: Mail, base: nat, cfg: Config)
    requires MailOk(m, cfg) && m.store.lastUid.None?
    ensures MailOk(m.(base := base), cfg)
  {
    var m' := m.(base := base);
    assert m.origins == [];
    forall p ensures !Settled(m', p) {
      assert !Settled(m, p);
    }
  }

  lemma CallKeeps(s: State, force: bool, known: nat, s': State, cfg: Config)
    requires Steady(s, cfg) && known <= |s.mail.mailbox| && (force || ForcedOk(s.gate))
    requires s' == Call(s, force, known, cfg)
    ensures Inv(Tick(s'), cfg)
  {
    if !s.gate.fetching {
      var range := FirstRequest(s, known, cfg);
      if range.Some? {
        if range.value.BySeq? {
          BackfillKeeps(s.mail, s'.mail.base, cfg);
        }
        RequestKeeps(s, range.value, s', cfg);
      }
    }
  }

  /** The one call inside the section moves on. */
  lemma AdvanceKeeps(s: State, id: nat, s': State, cfg: Config)
    requires Inv(s, cfg) && id in s.calls
    requires s'.gate == s.gate && s'.calls.Keys == s.calls.Keys
    requires MailOk(s'.mail, cfg) && PhaseOk(s'.mail, s'.calls[id])
    ensures Inv(Tick(s'), cfg)
  {
    assert s.calls.Keys == {id};
  }

  lemma FinishKeeps(s: State, id: nat, s': State, cfg: Config)
    requires Inv(s, cfg) && id in s.calls && s' == Finish(s, id)
    ensures Inv(Tick(s'), cfg)
  {
  }

  /** The next message of an answer leaves mail and phase in order, whatever becomes of it. */
  lemma ProcessKeeps(s: State, id: nat, next: nat, end: nat, s': State, cfg: Config)
    requires MailOk(s.mail, cfg) && cfg.cap >= 1 && PhaseOk(s.mail, Streaming(next, end)) && next < end
    requires !s.stopped && s' == Process(s, id, next, end)
    ensures MailOk(s'.mail, cfg) && id in s'.calls && PhaseOk(s'.mail, s'.calls[id])
  {
    var m := s.mail;
    if !m.mailbox[next].hasSource {
    } else if S.Has(m.store.emails, Some(m.mailbox[next].uid), "") {
      RejectKeeps(m, next, s'.mail, cfg);
    } else if Top(m) == next {
      TopIsStored(m, cfg);
    }
  }

  lemma ProcessAdvances(s: State, id: nat, next: nat, end: nat, s': State, cfg: Config)
    requires Inv(s, cfg) && id in s.calls && s.calls[id] == Streaming(next, end) && next < end <= |s.mail.mailbox|
    requires !s.stopped && s' == Process(s, id, next, end)
    ensures Inv(Tick(s'), cfg)
  {
    assert PhaseOk(s.mail, s.calls[id]);
    ProcessKeeps(s, id, next, end, s', cfg);
    AdvanceKeeps(s, id, s', cfg);
  }

  lemma DeliverKeeps(s: State, id: nat, s': State, cfg: Config)
    requires Inv(s, cfg) && Enabled(s, Deliver(id)) && s' == Act(s, Deliver(id), cfg)
    ensures Inv(Tick(s'), cfg)
  {
    if s.stopped {
      FinishKeeps(s, id, s', cfg);
    } else {
      ProcessAdvances(s, id, s.calls[id].next, s.calls[id].end, s', cfg);
    }
  }

  lemma ParsedKeeps(s: State, id: nat, s': State, cfg: Config)
    requires Inv(s, cfg) && id in s.calls && s.calls[id].Parsing?
    requires s'.gate == s.gate && s'.calls == s.calls[id := Streaming(s.calls[id].at + 1, s.calls[id].end)]
    requires s.calls[id].at < |s.mail.mailbox| && s'.mail == Keep(s.mail, s.calls[id].at, cfg)
    ensures Inv(Tick(s'), cfg)
  {
    KeepKeeps(s.mail, s.calls[id].at, s'.mail, cfg);
    AdvanceKeeps(s, id, s', cfg);
  }

  lemma ArriveKeeps(s: State, m: Message, s': State, cfg: Config)
    requires Inv(s, cfg) && Enabled(s, Arrive(m)) && s' == Act(s, Arrive(m), cfg)
    ensures Inv(Tick(s'), cfg)
  {
    ArriveKeepsMail(s.mail, m, cfg);
    forall id | id in s.calls {
      ArriveKeepsPhase(s.mail, m, s.calls[id]);
    }
  }

  lemma FollowUpKeeps(s: State, known: nat, s': State, cfg: Config)
    requires Inv(s, cfg) && Enabled(s, FollowUp(known)) && s' == Act(s, FollowUp(known), cfg)
    ensures Inv(Tick(s'), cfg)
  {
    CallKeeps(s.(gate := s.gate.(followUps := s.gate.followUps - 1)), true, known, s', cfg);
  }

  lemma StepKeeps(s: State, e: Event, s': State, cfg: Config)
    requires Inv(s, cfg) && Enabled(s, e) && s' == Act(s, e, cfg)
    ensures Inv(Tick(s'), cfg)
  {
    match e
    case Arrive(m) => ArriveKeeps(s, m, s', cfg);
    case Sync(force, n) => CallKeeps(s, force, n, s', cfg);
    case FollowUp(n) => FollowUpKeeps(s, n, s', cfg);
    case Serve(id) =>
      ServeKeeps(s.mail, s.calls[id].range);
      AdvanceKeeps(s, id, s', cfg);
    case Deliver(id) => DeliverKeeps(s, id, s', cfg);
    case Parsed(id) => ParsedKeeps(s, id, s', cfg);
    case Exit(id) => FinishKeeps(s, id, s', cfg);
    case Link(_, _) =>
  }

  /** Every run keeps the invariant. */
  lemma {:induction false} RunKeeps(events: seq<Event>, cfg: Config)
    requires cfg.syncLimit >= 1 && cfg.cap >= 1
    ensures Inv(Run(events, cfg), cfg)
  {
    if events != [] {
      RunKeeps(events[..|events| - 1], cfg);
      var s, e := Run(events[..|events| - 1], cfg), events[|events| - 1];
      if Enabled(s, e) {
        StepKeeps(s, e, Act(s, e, cfg), cfg);
      }
    }
  }

  // ------------------------------------------------------------ where it starts

  /** A call that backfills: it enters the section, connected, with no mark yet, and messages are known of. */
  predicate Backfills(s: State, e: Event)
  {
    Enabled(s, e) && (e.Sync? || e.FollowUp?) && !s.gate.fetching && s.online && !s.stopped &&
    s.mail.store.lastUid.None? && e.known > 0
  }

  /** The position of the first of the last `syncLimit` messages known of at a call. */
  function FirstWanted(known: nat, cfg: Config): nat { known - Min(cfg.syncLimit, known) }

  /** The first message wanted: that of the last backfill. */
  function Oldest(events: seq<Event>, cfg: Config): nat
  {
    if events == [] then 0
    else
      var before, e := events[..|events| - 1], events[|events| - 1];
      if Backfills(Run(before, cfg), e) then FirstWanted(e.known, cfg) else Oldest(before, cfg)
  }

  lemma {:induction false} BaseIsOldest(events: seq<Event>, cfg: Config)
    requires cfg.syncLimit >= 1 && cfg.cap >= 1
    ensures Run(events, cfg).mail.base == Oldest(events, cfg)
  {
    if events != [] {
      BaseIsOldest(events[..|events| - 1], cfg);
    }
  }

  lemma RunOn(events: seq<Event>, e: Event, cfg: Config)
    ensures Run(events + [e], cfg) == Step(Run(events, cfg), e, cfg)
    ensures Oldest(events + [e], cfg) ==
            if Backfills(Run(events, cfg), e) then FirstWanted(e.known, cfg) else Oldest(events, cfg)
  {
    assert (events + [e])[..|events|] == events;
  }

  /** What a call asks for: nothing, exactly the last messages known of, or exactly what is beyond the mark. */
  ghost predicate AsksRightly(s: State, e: Event, s': State, cfg: Config)
    requires e.Sync? || e.FollowUp?
  {
    if !s.online || s.stopped || (s.mail.store.lastUid.None? && e.known == 0) then
      s'.calls == map[] && !s'.gate.fetching
    else
      && s'.gate.fetching && s'.calls.Keys == {s.gate.clock} && s'.calls[s.gate.clock].Requested?
      && var range := s'.calls[s.gate.clock].range;
         match s.mail.store.lastUid
         case None => range.BySeq? && e.known - range.start + 1 == Min(cfg.syncLimit, e.known)
         case Some(mark) => range == ByUid(mark + 1)
  }

  /**
   * In every run, a call of `#syncNew`: while another is in the section it only leaves a queued flag,
   * if it is forced; else it leaves at once, backfills exactly the last `syncLimit` messages there
   * are, or asks for exactly the uids beyond the mark.
   */
  lemma CallsAskRightly(events: seq<Event>, e: Event, cfg: Config)
    requires cfg.syncLimit >= 1 && cfg.cap >= 1 && (e.Sync? || e.FollowUp?) && Enabled(Run(events, cfg), e)
    ensures var s, s' := Run(events, cfg), Run(events + [e], cfg);
            && s'.mail.(base := 0) == s.mail.(base := 0)
            && if s.gate.fetching then
                 s'.calls == s.calls && s'.gate.fetching &&
                 (s'.gate.queued <==> s.gate.queued || e.FollowUp? || e.force)
               else AsksRightly(s, e, s', cfg)
  {
    RunKeeps(events, cfg);
    RunOn(events, e, cfg);
  }

  /** Follow-ups scheduled, and one more if a call is queued. */
  function Waiting(g: Gate): nat { g.followUps + (if g.queued then 1 else 0) }

  /** A forced call that finds the section taken and nothing queued yet. */
  predicate Queues(s: State, e: Event)
  {
    s.gate.fetching && !s.gate.queued && (e.FollowUp? || (e.Sync? && e.force))
  }

  /** Follow-ups come only from forced calls that were queued, and each runs once. */
  lemma WaitingCallsBalance(events: seq<Event>, e: Event, cfg: Config)
    requires cfg.syncLimit >= 1 && cfg.cap >= 1 && Enabled(Run(events, cfg), e)
    ensures var s, s' := Run(events, cfg), Run(events + [e], cfg);
            Waiting(s'.gate) + (if e.FollowUp? then 1 else 0) == Waiting(s.gate) + (if Queues(s, e) then 1 else 0)
  {
    RunKeeps(events, cfg);
    RunOn(events, e, cfg);
  }

  // -------------------------------------------------------------- what it means

  /** At most one call is ever inside the guarded section, and `_fetching` says whether one is. */
  lemma OneFetchAtATime(events: seq<Event>, cfg: Config)
    requires cfg.syncLimit >= 1 && cfg.cap >= 1
    ensures var s := Run(events, cfg); |s.calls| == (if s.gate.fetching then 1 else 0)
  {
    RunKeeps(events, cfg);
    var s := Run(events, cfg);
    assert |s.calls| == |s.calls.Keys|;
  }

  /** No forced call is lost: the section was entered since, or a call is queued or scheduled. */
  lemma ForcedSyncIsNotLost(events: seq<Event>, cfg: Config, t: nat)
    requires cfg.syncLimit >= 1 && cfg.cap >= 1
    requires t in Run(events, cfg).gate.forced
    ensures var g := Run(events, cfg).gate; g.entered >= t || (g.queued && g.fetching) || g.followUps > 0
  {
    RunKeeps(events, cfg);
  }

  /** What is made of a message: its uid, message-id and content, with the assessed status. */
  predicate MadeFrom(e: S.Email, m: Message, cfg: Config)
  {
    && e.uid == Some(m.uid) && e.messageId == m.messageId && e.content == m.content
    && e.safety == Some(cfg.assess(e.(safety := None)))
  }

  /**
   * Emitted uids strictly ascend, so none is emitted twice, although the store
   * forgets all but the last cap emails; each is made from a mailbox message.
   */
  lemma EmittedOnce(events: seq<Event>, cfg: Config)
    requires cfg.syncLimit >= 1 && cfg.cap >= 1
    ensures var m := Run(events, cfg).mail;
            && (forall i :: 0 <= i < |m.emitted| ==> m.emitted[i].uid.Some?)
            && (forall i, j :: 0 <= i < j < |m.emitted| ==> m.emitted[i].uid.value < m.emitted[j].uid.value)
            && (forall i :: 0 <= i < |m.emitted| ==>
                 exists p :: 0 <= p < |m.mailbox| && MadeFrom(m.emitted[i], m.mailbox[p], cfg))
            && m.store == S.View(m.emitted, None, cfg.cap)
  {
    RunKeeps(events, cfg);
    var m := Run(events, cfg).mail;
    forall i | 0 <= i < |m.emitted|
      ensures exists p :: 0 <= p < |m.mailbox| && MadeFrom(m.emitted[i], m.mailbox[p], cfg)
    {
      assert MadeFrom(m.emitted[i], m.mailbox[m.origins[i]], cfg);
    }
  }

  /** Position p was emitted, or turned away. */
  ghost predicate Done(m: Mail, p: nat, cfg: Config)
    requires p < |m.mailbox|
  {
    (exists e :: e in m.emitted && MadeFrom(e, m.mailbox[p], cfg)) || p in m.rejected
  }

  lemma DoneIsSettled(m: Mail, p: nat, cfg: Config)
    requires MailOk(m, cfg) && p < |m.mailbox|
    ensures Done(m, p, cfg) <==> Settled(m, p)
  {
    if p in m.origins {
      var i :| 0 <= i < |m.origins| && m.origins[i] == p;
      assert m.emitted[i] in m.emitted && MadeFrom(m.emitted[i], m.mailbox[p], cfg);
    }
    if e :| e in m.emitted && MadeFrom(e, m.mailbox[p], cfg) {
      var i :| 0 <= i < |m.emitted| && m.emitted[i] == e;
      assert MadeFrom(e, m.mailbox[m.origins[i]], cfg);
      assert m.origins[i] == p;
    }
  }

  /**
   * At or below the high-water mark exactly the messages with a source from the backfill's first on
   * were emitted or turned away as duplicates: none of them is skipped, and nothing older is fetched.
   */
  lemma NothingIsSkipped(events: seq<Event>, cfg: Config, p: nat)
    requires cfg.syncLimit >= 1 && cfg.cap >= 1
    ensures var m := Run(events, cfg).mail;
            p < |m.mailbox| && m.store.lastUid.Some? && m.mailbox[p].uid <= m.store.lastUid.value ==>
              (Done(m, p, cfg) <==> Oldest(events, cfg) <= p && m.mailbox[p].hasSource)
  {
    RunKeeps(events, cfg);
    BaseIsOldest(events, cfg);
    var m := Run(events, cfg).mail;
    if p < |m.mailbox| && m.store.lastUid.Some? && m.mailbox[p].uid <= m.store.lastUid.value {
      DoneIsSettled(m, p, cfg);
    }
  }

  /**
   * A running answer has left nothing behind: of what it has been through, exactly the messages with
   * a source, from the backfill's first on, were emitted or turned away. So when it reaches its end
   * without a stop or an exception, that is true of all the messages there were when it was served.
   */
  lemma AnswerLeavesNothing(events: seq<Event>, cfg: Config, id: nat, p: nat)
    requires cfg.syncLimit >= 1 && cfg.cap >= 1
    ensures var s := Run(events, cfg);
            id in s.calls && s.calls[id].Streaming? && p < s.calls[id].next ==>
              p < |s.mail.mailbox| &&
              (Done(s.mail, p, cfg) <==> Oldest(events, cfg) <= p && s.mail.mailbox[p].hasSource)
  {
    RunKeeps(events, cfg);
    BaseIsOldest(events, cfg);
    var s := Run(events, cfg);
    if id in s.calls && s.calls[id].Streaming? && p < s.calls[id].next {
      assert PhaseOk(s.mail, s.calls[id]);
      DoneIsSettled(s.mail, p, cfg);
    }
  }

  /** A call that has left does not come back, and while it runs there is no other backfill. */
  lemma CallsDoNotReturn(s: State, e: Event, id: nat, cfg: Config)
    requires Inv(s, cfg) && id < s.gate.clock
    ensures var s' := Step(s, e, cfg);
            id < s'.gate.clock && (id in s'.calls ==> id in s.calls && !Backfills(s, e))
  {
  }

  /** As long as the call of a backfill runs, what it wants stays. */
  lemma {:induction false} BackfillStays(before: seq<Event>, e: Event, after: seq<Event>, cfg: Config)
    requires cfg.syncLimit >= 1 && cfg.cap >= 1 && Backfills(Run(before, cfg), e)
    ensures var s, id := Run(before + [e] + after, cfg), Run(before, cfg).gate.clock;
            s.gate.clock > id && (id in s.calls ==> Oldest(before + [e] + after, cfg) == FirstWanted(e.known, cfg))
  {
    if after == [] {
      assert before + [e] + after == before + [e];
      RunOn(before, e, cfg);
    } else {
      var n := |after| - 1;
      assert before + [e] + after == before + [e] + after[..n] + [after[n]];
      BackfillStays(before, e, after[..n], cfg);
      RunKeeps(before + [e] + after[..n], cfg);
      RunOn(before + [e] + after[..n], after[n], cfg);
      CallsDoNotReturn(Run(before + [e] + after[..n], cfg), after[n], Run(before, cfg).gate.clock, cfg);
    }
  }

  /** So the answer to a backfill leaves none of the last `syncLimit` messages there were at the call. */
  lemma BackfillLeavesNothing(before: seq<Event>, e: Event, after: seq<Event>, cfg: Config, p: nat)
    requires cfg.syncLimit >= 1 && cfg.cap >= 1 && Backfills(Run(before, cfg), e)
    ensures var s, id := Run(before + [e] + after, cfg), Run(before, cfg).gate.clock;
            id in s.calls && s.calls[id].Streaming? && p < s.calls[id].next ==>
              p < |s.mail.mailbox| &&
              (Done(s.mail, p, cfg) <==> FirstWanted(e.known, cfg) <= p && s.mail.mailbox[p].hasSource)
  {
    BackfillStays(before, e, after, cfg);
    AnswerLeavesNothing(before + [e] + after, cfg, Run(before, cfg).gate.clock, p);
  }

  /**
   * How an answer advances. Serving it takes it to the end of the mailbox as it is; each message
   * is passed by, or goes through the parser first if it has a source and an unknown uid; when the
   * monitor is stopped the next one ends the call. So no answer goes on for ever.
   */
  lemma AnswersAdvance(events: seq<Event>, e: Event, cfg: Config)
    requires cfg.syncLimit >= 1 && cfg.cap >= 1 && Enabled(Run(events, cfg), e) && (e.Serve? || e.Deliver? || e.Parsed?)
    ensures var s, s', id := Run(events, cfg), Run(events + [e], cfg), e.id;
            match e
            case Serve(_) => s'.calls[id].Streaming? && s'.calls[id].end == |s.mail.mailbox| && s'.mail == s.mail
            case Parsed(_) => s'.calls[id] == Streaming(s.calls[id].at + 1, s.calls[id].end)
            case Deliver(_) =>
              var next, end := s.calls[id].next, s.calls[id].end;
              var m := s.mail.mailbox[next];
              var known := S.Has(s.mail.store.emails, Some(m.uid), "");
              if s.stopped then s'.calls == map[] && !s'.gate.fetching && s'.mail == s.mail
              else if m.hasSource && !known then s'.calls[id] == Parsing(next, end) && s'.mail == s.mail
              else s'.calls[id] == Streaming(next + 1, end) && s'.mail.store == s.mail.store
  {
    RunKeeps(events, cfg);
    RunOn(events, e, cfg);
  }

  /** A message that arrives is the last of the mailbox, where nothing else changes. */
  lemma MailArrives(events: seq<Event>, m: Message, cfg: Config)
    requires Enabled(Run(events, cfg), Arrive(m))
    ensures var s, s' := Run(events, cfg), Run(events + [Arrive(m)], cfg);
            s'.mail == s.mail.(mailbox := s.mail.mailbox + [m]) && s'.calls == s.calls
  {
    RunOn(events, Arrive(m), cfg);
  }

  // ------------------------------------------------------------------- stopping

  /** One more email may come from the message that is being parsed. */
  function InParser(s: State): nat { if exists id :: id in s.calls && s.calls[id].Parsing? then 1 else 0 }

  predicate NoLink(events: seq<Event>) { forall i :: 0 <= i < |events| ==> !events[i].Link? }

  lemma StoppedStep(s: State, e: Event, cfg: Config)
    requires Inv(s, cfg) && s.stopped && !e.Link?
    ensures var s' := Step(s, e, cfg);
            s'.stopped && |s'.mail.emitted| + InParser(s') <= |s.mail.emitted| + InParser(s)
  {
  }

  /** Once stopped, a monitor takes no further message: only the one in the parser may still be emitted. */
  lemma {:induction false} StoppingEnds(before: seq<Event>, after: seq<Event>, cfg: Config)
    requires cfg.syncLimit >= 1 && cfg.cap >= 1 && Run(before, cfg).stopped && NoLink(after)
    ensures var s, s' := Run(before, cfg), Run(before + after, cfg);
            s'.stopped && |s'.mail.emitted| + InParser(s') <= |s.mail.emitted| + InParser(s)
  {
    if after == [] {
      assert before + after == before;
    } else {
      var n := |after| - 1;
      assert before + after == before + after[..n] + [after[n]];
      StoppingEnds(before, after[..n], cfg);
      RunKeeps(before + after[..n], cfg);
      RunOn(before + after[..n], after[n], cfg);
      StoppedStep(Run(before + after[..n], cfg), after[n], cfg);
    }
  }

  /** Some emitted email has the uid or the message-id of position p. */
  ghost predicate HasTwin(m: Mail, p: nat)
  {
    p < |m.mailbox| && S.Has(m.emitted, Some(m.mailbox[p].uid), m.mailbox[p].messageId)
  }

  ghost predicate RejectedOk(m: Mail) { forall p :: p in m.rejected ==> HasTwin(m, p) }

  lemma TwinStays(m: Mail, m': Mail, p: nat)
    requires HasTwin(m, p) && m.mailbox <= m'.mailbox && m.emitted <= m'.emitted
    ensures HasTwin(m', p)
  {
    var i :| 0 <= i < |m.emitted| && S.Matches(m.emitted[i], Some(m.mailbox[p].uid), m.mailbox[p].messageId);
    assert m'.emitted[i] == m.emitted[i];
  }

  /** What the store knows was emitted. */
  lemma StoredIsEmitted(m: Mail, p: nat, messageId: string, cfg: Config)
    requires StoreOk(m, cfg) && p < |m.mailbox| && (messageId == "" || messageId == m.mailbox[p].messageId)
    requires S.Has(m.store.emails, Some(m.mailbox[p].uid), messageId)
    ensures HasTwin(m, p)
  {
    var i :| 0 <= i < |m.store.emails| && S.Matches(m.store.emails[i], Some(m.mailbox[p].uid), messageId);
    assert m.emitted[|m.emitted| - |m.store.emails| + i] == m.store.emails[i];
  }

  /** A step that turns position p away: the store knows its uid or, once it is parsed, its message-id. */
  lemma NewlyRejected(s: State, e: Event, cfg: Config, p: nat)
    requires Enabled(s, e) && p !in s.mail.rejected && p in Act(s, e, cfg).mail.rejected
    ensures p < |s.mail.mailbox| && (e.Deliver? || e.Parsed?)
    ensures var m := s.mail.mailbox[p];
            S.Has(s.mail.store.emails, Some(m.uid), if e.Parsed? then m.messageId else "")
  {
  }

  lemma StepExtendsMail(s: State, e: Event, cfg: Config)
    requires Enabled(s, e)
    ensures s.mail.mailbox <= Act(s, e, cfg).mail.mailbox && s.mail.emitted <= Act(s, e, cfg).mail.emitted
  {
  }

  lemma RejectedStep(s: State, e: Event, s': State, cfg: Config)
    requires MailOk(s.mail, cfg) && RejectedOk(s.mail) && Enabled(s, e) && s' == Act(s, e, cfg)
    ensures RejectedOk(s'.mail)
  {
    StepExtendsMail(s, e, cfg);
    forall p | p in s'.mail.rejected ensures HasTwin(s'.mail, p) {
      if p !in s.mail.rejected {
        NewlyRejected(s, e, cfg, p);
        StoredIsEmitted(s.mail, p, if e.Parsed? then s.mail.mailbox[p].messageId else "", cfg);
      }
      TwinStays(s.mail, s'.mail, p);
    }
  }

  /** Whatever was turned away is a duplicate: an emitted email has its uid or its message-id. */
  lemma {:induction false} RejectedAreDuplicates(events: seq<Event>, cfg: Config, p: nat)
    requires cfg.syncLimit >= 1 && cfg.cap >= 1 && p in Run(events, cfg).mail.rejected
    ensures HasTwin(Run(events, cfg).mail, p)
  {
    AllRejectedAreDuplicates(events, cfg);
  }

  lemma {:induction false} AllRejectedAreDuplicates(events: seq<Event>, cfg: Config)
    requires cfg.syncLimit >= 1 && cfg.cap >= 1
    ensures RejectedOk(Run(events, cfg).mail)
  {
    if events != [] {
      AllRejectedAreDuplicates(events[..|events| - 1], cfg);
      RunKeeps(events[..|events| - 1], cfg);
      var s, e := Run(events[..|events| - 1], cfg), events[|events| - 1];
      if Enabled(s, e) {
        RejectedStep(s, e, Act(s, e, cfg), cfg);
      }
    }
  }

  // -------------------------------------------------------------------- object

  /** The monitor object; each method is one stretch of its code between two awaits. */
  class Monitor {
    const cfg: Config
    const store: S.Store
    var fetching: bool
    var fetchQueued: bool
    var stopping: bool
    var online: bool
    var calls: map<nat, Phase>
    var followUps: nat
    var mailbox: seq<Message>
    var emitted: seq<S.Email>
    ghost var origins: seq<nat>
    ghost var rejected: set<nat>
    ghost var base: nat
    ghost var forced: set<nat>
    ghost var entered: int
    var clock: nat

    ghost function MailModel(): Mail
      reads this, store
    {
      Mail(mailbox, store.Model(), emitted, origins, rejected, base)
    }

    ghost function GateModel(): Gate
      reads this
    {
      Gate(fetching, fetchQueued, followUps, clock, forced, entered)
    }

    ghost function Model(): State
      reads this, store
    {
      State(MailModel(), GateModel(), calls, stopping, online)
    }

    ghost predicate Valid()
    {
      store.cap == cfg.cap && store.assess == cfg.assess
    }

    constructor (cfg: Config, store: S.Store)
      requires store.cap == cfg.cap && store.assess == cfg.assess && store.Model() == INITIAL.mail.store
      ensures Valid() && Model() == INITIAL && this.store == store && this.cfg == cfg
    {
      this.cfg, this.store := cfg, store;
      fetching, fetchQueued, stopping, online := false, false, false, false;
      calls, followUps, mailbox, emitted, clock := map[], 0, [], [], 0;
      origins, rejected, base, forced, entered := [], {}, 0, {}, -1;
    }

    /** The `finally` block. */
    method LeaveSection()
      modifies this
      ensures Model() == old(Model()).(gate := Leave(old(GateModel())))
    {
      fetching := false;
      if fetchQueued {
        fetchQueued := false;
        followUps := followUps + 1;
      }
    }

    method EnterSync(force: bool, known: nat)
      modifies this
      ensures Model() == Call(old(Model()), force, known, cfg)
    {
      if force { forced := forced + {clock}; }
      if fetching {
        if force { fetchQueued := true; }
        return;
      }
      fetching, entered := true, clock;
      if !online || stopping {
        LeaveSection();
        return;
      }
      if store.lastUid.None? {
        if known == 0 {
          LeaveSection();
          return;
        }
        var startSeq := Max(1, known - Min(cfg.syncLimit, known) + 1);
        base := startSeq - 1;
        calls := calls[clock := Requested(BySeq(startSeq))];
      } else {
        calls := calls[clock := Requested(ByUid(store.lastUid.value + 1))];
      }
    }

    method SyncNew(force: bool, known: nat)
      requires Enabled(Model(), Sync(force, known))
      modifies this
      ensures Model() == Step(old(Model()), Sync(force, known), cfg)
    {
      EnterSync(force, known);
      clock := clock + 1;
    }

    method RunFollowUp(known: nat)
      requires Enabled(Model(), FollowUp(known))
      modifies this
      ensures Model() == Step(old(Model()), FollowUp(known), cfg)
    {
      followUps := followUps - 1;
      EnterSync(true, known);
      clock := clock + 1;
    }

    /** `for await` hands over the next message of the answer. */
    method NextMessage(id: nat)
      requires Enabled(Model(), Deliver(id))
      modifies this
      ensures Model() == Step(old(Model()), Deliver(id), cfg)
    {
      var next, end := calls[id].next, calls[id].end;
      var msg := mailbox[next];
      if stopping {
        calls := calls - {id};
        LeaveSection();
      } else if !msg.hasSource {
        calls := calls[id := Streaming(next + 1, end)];
      } else if S.Has(store.emails, Some(msg.uid), "") {
        calls := calls[id := Streaming(next + 1, end)];
        rejected := rejected + {next};
      } else {
        calls := calls[id := Parsing(next, end)];
      }
      clock := clock + 1;
    }

    /** The rest of `#processMessage`: assess, store, emit. */
    method StoreAndEmit(at: nat, diskOk: bool)
      requires Valid() && at < |mailbox|
      modifies `emitted, `origins, `rejected, store
      ensures MailModel() == Keep(old(MailModel()), at, cfg)
    {
      var email := S.Email(Some(mailbox[at].uid), mailbox[at].messageId, None, mailbox[at].content);
      email := email.(safety := Some(cfg.assess(email)));
      var accepted := store.AddEmail(email, diskOk);
      if accepted {
        emitted := emitted + [email];
        origins := origins + [at];
      } else {
        rejected := rejected + {at};
      }
    }

    method ParserReturned(id: nat, diskOk: bool)
      requires Valid() && Enabled(Model(), Parsed(id))
      modifies this, store
      ensures Model() == Step(old(Model()), Parsed(id), cfg)
    {
      var at, end := calls[id].at, calls[id].end;
      StoreAndEmit(at, diskOk);
      calls := calls[id := Streaming(at + 1, end)];
      clock := clock + 1;
    }

    /** The answer is exhausted, or the fetch or the parser throws. */
    method EndFetch(id: nat)
      requires Enabled(Model(), Exit(id))
      modifies this
      ensures Model() == Step(old(Model()), Exit(id), cfg)
    {
      calls := calls - {id};
      LeaveSection();
      clock := clock + 1;
    }
  }
}
