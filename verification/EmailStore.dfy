/**
 * The bounded, deduplicating email log (Email/server/store.js).
 *
 * StoreState is the store's in-memory state, Push and Load are what `add` and
 * `#load` make of it, and View says which state an unbounded log of accepted
 * emails stands for.  Store is the mutable object itself.
 */
module EmailStore {
  import opened Common

  /** messageId "" stands for a missing id; safety None for a record without a status. */
  datatype Email = Email(uid: Option<int>, messageId: string, safety: Option<string>, content: string)

  datatype StoreState = StoreState(emails: seq<Email>, total: int, lastUid: Option<int>)

  /** The JSON document on disk; None is an absent field or one of the wrong type. */
  datatype Document = Document(emails: Option<seq<Email>>, total: Option<int>, lastUid: Option<int>)
  datatype File = Missing | Corrupt | Parsed(doc: Document)

  // ---------------------------------------------------------------- operations

  predicate Matches(e: Email, uid: Option<int>, messageId: string)
  {
    (messageId != "" && e.messageId == messageId) || (uid.Some? && e.uid == uid)
  }

  predicate Has(emails: seq<Email>, uid: Option<int>, messageId: string)
  {
    exists i :: 0 <= i < |emails| && Matches(emails[i], uid, messageId)
  }

  /** An email with its safety status filled in. */
  function Sealed(e: Email, assess: Email -> string): Email
  {
    if e.safety.Some? then e else e.(safety := Some(assess(e)))
  }

  /** The state after an accepted email. */
  function Push(s: StoreState, e: Email, cap: nat): StoreState
  {
    StoreState(LastN(s.emails + [e], cap), s.total + 1, MaxOption(s.lastUid, e.uid))
  }

  function Snapshot(s: StoreState): File
  {
    Parsed(Document(Some(s.emails), Some(s.total), s.lastUid))
  }

  function SealAll(emails: seq<Email>, assess: Email -> string): (r: seq<Email>)
    ensures |r| == |emails| && forall i :: 0 <= i < |r| ==> r[i] == Sealed(emails[i], assess)
  {
    seq(|emails|, i requires 0 <= i < |emails| => Sealed(emails[i], assess))
  }

  function Load(file: File, assess: Email -> string): StoreState
  {
    match file
    case Parsed(doc) =>
      StoreState(if doc.emails.Some? then SealAll(doc.emails.value, assess) else [],
                 if doc.total.Some? then doc.total.value else 0,
                 doc.lastUid)
    case _ => StoreState([], 0, None)
  }

  /** JavaScript's Array.prototype.slice: negative bounds count from the end, both are clamped. */
  function Slice<T>(s: seq<T>, start: int, end: int): seq<T>
  {
    var lo := if start < 0 then Max(|s| + start, 0) else Min(start, |s|);
    var hi := if end < 0 then Max(|s| + end, 0) else Min(end, |s|);
    if lo < hi then s[lo..hi] else []
  }

  function NewestFirst<T>(s: seq<T>): (r: seq<T>)
    ensures |r| == |s| && forall i :: 0 <= i < |s| ==> r[i] == s[|s| - 1 - i]
  {
    seq(|s|, i requires 0 <= i < |s| => s[|s| - 1 - i])
  }

  function List(emails: seq<Email>, limit: int, offset: int): seq<Email>
  {
    Slice(NewestFirst(emails), offset, offset + limit)
  }

  // ------------------------------------------------------------- the reference

  /** The largest uid in a log, None when no email in it has one. */
  function HighUid(log: seq<Email>): Option<int>
  {
    if log == [] then None else MaxOption(HighUid(log[..|log| - 1]), log[|log| - 1].uid)
  }

  /** What the store shows of an accepted log when uids up to `mark` were set by hand. */
  function View(log: seq<Email>, mark: Option<int>, cap: nat): StoreState
  {
    StoreState(LastN(log, cap), |log|, MaxOption(HighUid(log), mark))
  }

  predicate AllSealed(emails: seq<Email>)
  {
    forall i :: 0 <= i < |emails| ==> emails[i].safety.Some?
  }

  /** No two emails share a uid or a non-empty message-id. */
  predicate Distinct(emails: seq<Email>)
  {
    forall i, j :: 0 <= i < j < |emails| ==> !Matches(emails[i], emails[j].uid, emails[j].messageId)
  }

  /** A use of the store. */
  datatype Op = Add(email: Email) | SetLastUid(uid: Option<int>) | SaveAndLoad

  function Apply(s: StoreState, op: Op, assess: Email -> string, cap: nat): StoreState
  {
    match op
    case Add(e) =>
      if Has(s.emails, e.uid, e.messageId) then s else Push(s, Sealed(e, assess), cap)
    case SetLastUid(uid) => s.(lastUid := MaxOption(s.lastUid, uid))
    case SaveAndLoad => Load(Snapshot(s), assess)
  }

  function Replay(ops: seq<Op>, assess: Email -> string, cap: nat): StoreState
  {
    if ops == [] then Load(Missing, assess)
    else Apply(Replay(ops[..|ops| - 1], assess, cap), ops[|ops| - 1], assess, cap)
  }

  /** The emails a use of the store accepts, never forgetting any; acceptance looks at the last cap only. */
  function Accepted(ops: seq<Op>, assess: Email -> string, cap: nat): seq<Email>
  {
    if ops == [] then []
    else
      var before := Accepted(ops[..|ops| - 1], assess, cap);
      match ops[|ops| - 1]
      case Add(e) => if Has(LastN(before, cap), e.uid, e.messageId) then before else before + [Sealed(e, assess)]
      case _ => before
  }

  function Marked(ops: seq<Op>): Option<int>
  {
    if ops == [] then None
    else
      var before := Marked(ops[..|ops| - 1]);
      if ops[|ops| - 1].SetLastUid? then MaxOption(before, ops[|ops| - 1].uid) else before
  }

  // ------------------------------------------------------------------- lemmas

  lemma PushExtendsView(log: seq<Email>, mark: Option<int>, cap: nat, e: Email, s: StoreState, log': seq<Email>)
    requires s == View(log, mark, cap) && log' == log + [e]
    ensures Push(s, e, cap) == View(log', mark, cap)
  {
    assert log'[..|log|] == log;
    assert LastN(s.emails + [e], cap) == LastN(log', cap);
  }

  lemma {:induction false} HighUidIsMaximum(log: seq<Email>)
    ensures HighUid(log).Some? ==> exists i :: 0 <= i < |log| && log[i].uid == HighUid(log)
    ensures forall i :: 0 <= i < |log| && log[i].uid.Some? ==>
              HighUid(log).Some? && log[i].uid.value <= HighUid(log).value
  {
    if log != [] {
      HighUidIsMaximum(log[..|log| - 1]);
      assert forall i :: 0 <= i < |log| - 1 ==> log[..|log| - 1][i] == log[i];
    }
  }

  lemma LoadUndoesSave(s: StoreState, assess: Email -> string)
    requires AllSealed(s.emails)
    ensures Load(Snapshot(s), assess) == s
  {
    assert SealAll(s.emails, assess) == s.emails;
  }

  lemma PushKeepsDistinct(emails: seq<Email>, e: Email, cap: nat)
    requires Distinct(emails) && !Has(emails, e.uid, e.messageId)
    ensures Distinct(LastN(emails + [e], cap))
  {
    assert Distinct(emails + [e]);
  }

  ghost predicate Refines(s: StoreState, log: seq<Email>, mark: Option<int>, cap: nat)
  {
    s == View(log, mark, cap) && Distinct(s.emails) && AllSealed(s.emails)
  }

  lemma AddRefines(s: StoreState, log: seq<Email>, mark: Option<int>, e: Email, assess: Email -> string, cap: nat)
    requires Refines(s, log, mark, cap) && !Has(s.emails, e.uid, e.messageId)
    ensures Refines(Push(s, Sealed(e, assess), cap), log + [Sealed(e, assess)], mark, cap)
  {
    var sealed := Sealed(e, assess);
    var s', log' := Push(s, sealed, cap), log + [sealed];
    assert s' == View(log', mark, cap) by {
      PushExtendsView(log, mark, cap, sealed, s, log');
    }
    assert Distinct(s'.emails) by {
      PushKeepsDistinct(s.emails, sealed, cap);
    }
    assert AllSealed(s'.emails) by {
      assert AllSealed(s.emails + [sealed]);
    }
  }

  /** The store refines the unbounded log, over any sequence of operations. */
  lemma {:induction false} StoreRefinesLog(ops: seq<Op>, assess: Email -> string, cap: nat)
    ensures Refines(Replay(ops, assess, cap), Accepted(ops, assess, cap), Marked(ops), cap)
  {
    if ops != [] {
      var before, op := ops[..|ops| - 1], ops[|ops| - 1];
      StoreRefinesLog(before, assess, cap);
      var s, log := Replay(before, assess, cap), Accepted(before, assess, cap);
      if op.SaveAndLoad? {
        LoadUndoesSave(s, assess);
      } else if op.Add? && !Has(s.emails, op.email.uid, op.email.messageId) {
        AddRefines(s, log, Marked(before), op.email, assess, cap);
      }
    }
  }

  lemma KeptIsRefused(log: seq<Email>, k: nat, cap: nat)
    requires |log| - cap <= k < |log| && (log[k].uid.Some? || log[k].messageId != "")
    ensures Has(LastN(log, cap), log[k].uid, log[k].messageId)
  {
    var window := LastN(log, cap);
    var i := k - (|log| - |window|);
    assert window[i] == log[k] && Matches(window[i], log[k].uid, log[k].messageId);
  }

  lemma EvictedIsAccepted(log: seq<Email>, k: nat, cap: nat)
    requires Distinct(log) && k < |log| - cap
    ensures !Has(LastN(log, cap), log[k].uid, log[k].messageId)
  {
    var window := LastN(log, cap);
    var gone := |log| - cap;
    forall i | 0 <= i < |window| ensures !Matches(window[i], log[k].uid, log[k].messageId) {
      assert window[i] == log[gone + i];
      assert !Matches(log[k], log[gone + i].uid, log[gone + i].messageId);
    }
  }

  /** A log without duplicates takes one of its own emails again exactly when that email was evicted. */
  lemma AcceptsAgainIffEvicted(log: seq<Email>, k: nat, cap: nat)
    requires Distinct(log) && k < |log|
    requires log[k].uid.Some? || log[k].messageId != ""
    ensures !Has(LastN(log, cap), log[k].uid, log[k].messageId) <==> k < |log| - cap
  {
    if k < |log| - cap {
      EvictedIsAccepted(log, k, cap);
    } else {
      KeptIsRefused(log, k, cap);
    }
  }

  /** A file that is missing or damaged, or without these fields, is an empty store; no record is lost otherwise. */
  lemma LoadsWhatIsThere(file: File, assess: Email -> string)
    ensures !file.Parsed? ==> Load(file, assess) == StoreState([], 0, None)
    ensures file.Parsed? ==>
              var s := Load(file, assess);
              && (if file.doc.emails.None? then s.emails == []
                  else |s.emails| == |file.doc.emails.value| && AllSealed(s.emails) &&
                       forall i :: 0 <= i < |s.emails| ==>
                         s.emails[i].(safety := None) == file.doc.emails.value[i].(safety := None))
              && s.total == (if file.doc.total.None? then 0 else file.doc.total.value)
              && s.lastUid == file.doc.lastUid
  {
    if file.Parsed? && file.doc.emails.Some? {
      var emails := SealAll(file.doc.emails.value, assess);
      assert AllSealed(emails);
      forall i | 0 <= i < |emails| ensures emails[i].(safety := None) == file.doc.emails.value[i].(safety := None) {
        assert emails[i] == Sealed(file.doc.emails.value[i], assess);
      }
    }
  }

  /** Where a bound of `slice` lies: negative ones count from the end. */
  function Bound(n: nat, k: int): int { if k < 0 then n + k else k }

  /** A slice is exactly the elements between its bounds, in order. */
  lemma SliceIsExact<T>(s: seq<T>, start: int, end: int)
    ensures var a, b := Bound(|s|, start), Bound(|s|, end);
            && |Slice(s, start, end)| == Max(Min(b, |s|) - Max(a, 0), 0)
            && forall k :: 0 <= k < |s| && a <= k < b ==>
                 k - Max(a, 0) < |Slice(s, start, end)| && Slice(s, start, end)[k - Max(a, 0)] == s[k]
  {
    var lo, hi := Max(Bound(|s|, start), 0), Min(Bound(|s|, end), |s|);
    if lo < hi {
      assert Slice(s, start, end) == s[lo..hi];
    } else {
      assert Slice(s, start, end) == [];
    }
  }

  /** All pages from an offset on, one after the other. */
  function Pages(emails: seq<Email>, limit: int, offset: nat): seq<Email>
    requires limit > 0
    decreases |emails| - offset
  {
    if offset >= |emails| then []
    else List(emails, limit, offset) + Pages(emails, limit, offset + limit)
  }

  /** Consecutive pages tile the newest-first order: nothing missing, nothing twice. */
  lemma {:induction false} PagesTile(emails: seq<Email>, limit: int, offset: nat)
    requires limit > 0 && offset <= |emails|
    ensures Pages(emails, limit, offset) == NewestFirst(emails)[offset..]
    decreases |emails| - offset
  {
    var all := NewestFirst(emails);
    if offset < |emails| {
      if offset + limit <= |emails| {
        PagesTile(emails, limit, offset + limit);
        assert all[offset..] == all[offset..offset + limit] + all[offset + limit..];
      } else {
        assert List(emails, limit, offset) == all[offset..];
      }
    }
  }

  // -------------------------------------------------------------------- object

  class Store {
    const cap: nat
    const assess: Email -> string
    var emails: seq<Email>
    var total: int
    var lastUid: Option<int>
    var file: File

    function Model(): StoreState
      reads this
    {
      StoreState(emails, total, lastUid)
    }

    constructor (file: File, cap: nat, assess: Email -> string)
      ensures Model() == Load(file, assess)
      ensures this.file == file && this.cap == cap && this.assess == assess
    {
      this.cap, this.assess, this.file := cap, assess, file;
      emails, total, lastUid := [], 0, None;
      new;
      if file.Parsed? {
        if file.doc.emails.Some? { emails := file.doc.emails.value; }
        if file.doc.total.Some? { total := file.doc.total.value; }
        if file.doc.lastUid.Some? { lastUid := file.doc.lastUid; }
      }
      BackfillSafety();
    }

    /** Records without a safety status are analysed once. */
    method BackfillSafety()
      modifies this`emails
      ensures emails == SealAll(old(emails), assess)
    {
      var i := 0;
      while i < |emails|
        invariant 0 <= i <= |emails| == |old(emails)|
        invariant forall k :: 0 <= k < i ==> emails[k] == Sealed(old(emails)[k], assess)
        invariant forall k :: i <= k < |emails| ==> emails[k] == old(emails)[k]
      {
        if emails[i].safety.None? {
          emails := emails[i := emails[i].(safety := Some(assess(emails[i])))];
        }
        i := i + 1;
      }
    }

    /** The write replaces the file as a whole; a failed one leaves the file as it was. */
    method Save(diskOk: bool)
      modifies this`file
      ensures file == if diskOk then Snapshot(Model()) else old(file)
    {
      if diskOk { file := Snapshot(Model()); }
    }

    method AddEmail(email: Email, diskOk: bool) returns (accepted: bool)
      modifies this
      ensures accepted == !Has(old(emails), email.uid, email.messageId)
      ensures accepted ==> Model() == Push(old(Model()), Sealed(email, assess), cap)
      ensures accepted ==> file == if diskOk then Snapshot(Model()) else old(file)
      ensures !accepted ==> Model() == old(Model()) && file == old(file)
    {
      if Has(emails, email.uid, email.messageId) { return false; }
      var e := email;
      if e.safety.None? { e := e.(safety := Some(assess(e))); }
      emails := emails + [e];
      if |emails| > cap { emails := emails[|emails| - cap..]; }
      total := total + 1;
      if e.uid.Some? && (lastUid.None? || e.uid.value > lastUid.value) { lastUid := e.uid; }
      Save(diskOk);
      return true;
    }

    method SetLastUid(uid: Option<int>, diskOk: bool)
      modifies this
      ensures Model() == old(Model()).(lastUid := MaxOption(old(lastUid), uid))
      ensures file == if diskOk && lastUid != old(lastUid) then Snapshot(Model()) else old(file)
    {
      if uid.Some? && (lastUid.None? || uid.value > lastUid.value) {
        lastUid := uid;
        Save(diskOk);
      }
    }
  }
}
