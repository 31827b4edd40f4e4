/**
 * Importing the mail monitor's folder into the database
 * (backend/import_email_folder.py, `import_email_data`).
 *
 * A session keeps added rows pending until a flush, and its queries see only what
 * was flushed (backend/app/database.py turns autoflush off). A record is named by
 * its position. Parsing of dates, addresses and URLs is a parameter: it is part of
 * the items.
 */
module EmailImport {
  import opened Common

  datatype Status = Dangerous | Unknown | OtherStatus

  datatype Class = Malicious | Suspicious | Safe

  /**
   * An attachment, with whether its extension is a dangerous one, and a link with its host unless
   * it cannot be parsed.
   */
  datatype File = File(name: string, dangerous: bool)
  datatype Link = Link(url: string, domain: Option<string>)

  /** One mail of the file; `broken` means that making its rows raises an exception. */
  datatype Item = Item(messageId: string, id: string, uid: Option<int>, folder: string, status: Status,
                       reasons: seq<string>, attachments: seq<File>, links: seq<Link>, broken: bool)

  /** A user, with the prefix of the ids of their mails: empty for user 1. */
  datatype User = User(id: int, prefix: string)

  datatype Record = Record(messageId: string, user: int, verdict: Class, threats: nat, attachments: nat, urls: nat)

  datatype Uid = Uid(config: int, folder: string, uid: int, messageId: string)

  /** The rows that hang on a record, from all their tables, in the order they were added. */
  datatype Child =
    | Header(email: nat, name: string)
    | Attachment(email: nat, name: string, dangerous: bool)
    | Url(email: nat, url: string, domain: string)
    | Detection(email: nat, reason: string, points: int)
    | ScanEvent(email: nat, kind: string)
    | Quarantine(email: nat, user: int)
    | Alert(email: nat, user: int)

  datatype Config = Config(user: int, password: string, lastUid: int, checked: int, threats: int)

  datatype Tables = Tables(records: seq<Record>, uids: seq<Uid>, children: seq<Child>)

  datatype Session = Session(tables: Tables, newUids: seq<Uid>, newChildren: seq<Child>)

  // ------------------------------------------------------------------ the session

  /** The columns that the table of processed UIDs keeps unique. */
  predicate SameKey(a: Uid, b: Uid)
  {
    a.config == b.config && a.folder == b.folder && a.uid == b.uid
  }

  predicate HasUid(uids: seq<Uid>, u: Uid)
  {
    exists i :: 0 <= i < |uids| && SameKey(uids[i], u)
  }

  predicate UidsUnique(uids: seq<Uid>)
  {
    forall i, j :: 0 <= i < j < |uids| ==> !SameKey(uids[i], uids[j])
  }

  predicate HasRecord(records: seq<Record>, messageId: string)
  {
    exists i :: 0 <= i < |records| && records[i].messageId == messageId
  }

  /** What is pending goes into the tables, unless it breaks a unique column. */
  function Flush(s: Session): Option<Session>
  {
    if UidsUnique(s.tables.uids + s.newUids) then
      Some(Session(Tables(s.tables.records, s.tables.uids + s.newUids, s.tables.children + s.newChildren), [], []))
    else None
  }

  /** Adding a record and flushing: everything pending goes in with it. */
  function AddRecord(s: Session, r: Record): Option<Session>
  {
    var flushed := Flush(s);
    if flushed.None? || HasRecord(s.tables.records, r.messageId) then None
    else Some(flushed.value.(tables := flushed.value.tables.(records := flushed.value.tables.records + [r])))
  }

  // ------------------------------------------------------------------- operations

  function BaseId(item: Item): string { if item.messageId != "" then item.messageId else "imported-" + item.id }

  function IdFor(user: User, item: Item): string { user.prefix + BaseId(item) }

  /** The user already has a record of that mail, under either of its ids. */
  predicate Seen(records: seq<Record>, user: User, item: Item)
  {
    exists i :: 0 <= i < |records| && records[i].user == user.id &&
                (records[i].messageId == IdFor(user, item) || records[i].messageId == BaseId(item))
  }

  function ClassOf(status: Status): Class
  {
    match status case Dangerous => Malicious case Unknown => Suspicious case OtherStatus => Safe
  }

  function RecordOf(user: User, item: Item): Record
  {
    Record(IdFor(user, item), user.id, ClassOf(item.status), if item.status.Dangerous? then |item.reasons| else 0,
           |item.attachments|, |item.links|)
  }

  function AttachmentRows(files: seq<File>, n: nat, email: nat): seq<Child>
    requires n <= |files|
  {
    if n == 0 then []
    else
      AttachmentRows(files, n - 1, email) + [Attachment(email, files[n - 1].name, files[n - 1].dangerous)]
  }

  /** A link that cannot be parsed is left out. */
  function UrlRows(links: seq<Link>, n: nat, email: nat): seq<Child>
    requires n <= |links|
  {
    if n == 0 then []
    else if links[n - 1].domain.None? then UrlRows(links, n - 1, email)
    else UrlRows(links, n - 1, email) + [Url(email, links[n - 1].url, links[n - 1].domain.value)]
  }

  function DetectionRows(reasons: seq<string>, n: nat, email: nat, points: int): seq<Child>
    requires n <= |reasons|
  {
    if n == 0 then [] else DetectionRows(reasons, n - 1, email, points) + [Detection(email, reasons[n - 1], points)]
  }

  function HeaderRows(email: nat): seq<Child>
  {
    [Header(email, "From"), Header(email, "To"), Header(email, "Subject"), Header(email, "Message-ID")]
  }

  function EventRows(email: nat, user: int, quarantined: bool): seq<Child>
  {
    var events := [ScanEvent(email, "email_received"), ScanEvent(email, "risk_calculated")];
    if quarantined then events + [Quarantine(email, user), Alert(email, user), ScanEvent(email, "email_quarantined")]
    else events
  }

  function ContentRows(item: Item, email: nat): seq<Child>
  {
    HeaderRows(email) + AttachmentRows(item.attachments, |item.attachments|, email) +
    UrlRows(item.links, |item.links|, email) +
    DetectionRows(item.reasons, |item.reasons|, email, if item.status.Dangerous? then 25 else 10)
  }

  /** Everything that is added after the record itself, apart from the UID. */
  function ChildrenOf(user: User, item: Item, email: nat): seq<Child>
  {
    ContentRows(item, email) + EventRows(email, user.id, item.status.Dangerous?)
  }

  function UidOf(user: User, item: Item, config: int): Option<Uid>
  {
    if item.uid.Some? then Some(Uid(config, item.folder, item.uid.value, IdFor(user, item))) else None
  }

  /** A mail that has not been seen: its record is flushed, then its UID is looked up and the rest added. */
  function ImportNew(s: Session, user: User, item: Item, config: int): Option<Session>
  {
    var added := AddRecord(s, RecordOf(user, item));
    if added.None? || item.broken then None
    else
      var s, uid := added.value, UidOf(user, item, config);
      var isNew := uid.Some? && !HasUid(s.tables.uids, uid.value);
      Some(s.(newUids := if isNew then s.newUids + [uid.value] else s.newUids,
              newChildren := s.newChildren + ChildrenOf(user, item, |s.tables.records| - 1)))
  }

  datatype Counts = Counts(imported: nat, skipped: nat, threats: nat)

  datatype Progress = Running(s: Session, counts: Counts) | Raised

  function ImportOne(p: Progress, user: User, item: Item, config: int): Progress
  {
    if p.Raised? then p
    else if Seen(p.s.tables.records, user, item) then Running(p.s, p.counts.(skipped := p.counts.skipped + 1))
    else
      var s := ImportNew(p.s, user, item, config);
      if s.None? then Raised
      else
        Running(s.value, Counts(p.counts.imported + 1, p.counts.skipped,
                                if item.status.Dangerous? then p.counts.threats + 1 else p.counts.threats))
  }

  /** The loop over the first n items. */
  function ImportUpTo(t: Tables, user: User, items: seq<Item>, n: nat, config: int): Progress
    requires n <= |items|
  {
    if n == 0 then Running(Session(t, [], []), Counts(0, 0, 0))
    else ImportOne(ImportUpTo(t, user, items, n - 1, config), user, items[n - 1], config)
  }

  // --------------------------------------------------------- configuration and run

  datatype Db = Db(configs: seq<Config>, tables: Tables)

  /** The folder: the decrypted password, empty if that failed, and none without the files; and the mails. */
  datatype Folder = Folder(password: Option<string>, items: seq<Item>, lastUid: int)

  datatype Outcome = Completed(counts: Counts) | RolledBack

  /** The position of the first configuration of the user. */
  function FindConfig(configs: seq<Config>, n: nat, user: int): Option<nat>
    requires n <= |configs|
  {
    if n == 0 then None
    else
      var before := FindConfig(configs, n - 1, user);
      if before.Some? then before else if configs[n - 1].user == user then Some(n - 1) else None
  }

  function ConfigOf(configs: seq<Config>, user: int): Option<nat> { FindConfig(configs, |configs|, user) }

  /** A user without a configuration gets one, unless there is a password that cannot be decrypted. */
  function EnsureConfig(configs: seq<Config>, user: int, password: Option<string>): seq<Config>
  {
    if ConfigOf(configs, user).Some? || password == Some("") then configs
    else configs + [Config(user, if password.Some? then password.value else "sample-secure-pass", 0, 0, 0)]
  }

  function Updated(c: Config, lastUid: int, counts: Counts): Config
  {
    c.(lastUid := Max(c.lastUid, lastUid), checked := c.checked + counts.imported,
       threats := c.threats + counts.threats)
  }

  lemma {:induction false} FindConfigFinds(configs: seq<Config>, n: nat, user: int)
    requires n <= |configs|
    ensures var found := FindConfig(configs, n, user);
            if found.Some? then found.value < n && configs[found.value].user == user &&
                                forall i :: 0 <= i < found.value ==> configs[i].user != user
            else forall i :: 0 <= i < n ==> configs[i].user != user
  {
    if n > 0 {
      FindConfigFinds(configs, n - 1, user);
    }
  }

  function Finish(configs: seq<Config>, p: Progress, user: int, lastUid: int, t: Tables): (Db, Outcome)
  {
    if p.Raised? || Flush(p.s).None? then (Db(configs, t), RolledBack)
    else
      FindConfigFinds(configs, |configs|, user);
      var c := ConfigOf(configs, user);
      var updated := if c.Some? then configs[c.value := Updated(configs[c.value], lastUid, p.counts)] else configs;
      (Db(updated, Flush(p.s).value.tables),
       Completed(p.counts))
  }

  /** The whole import; on an exception everything but a new configuration is rolled back. */
  function Import(db: Db, user: User, folder: Folder): (Db, Outcome)
  {
    var configs := EnsureConfig(db.configs, user.id, folder.password);
    var c := ConfigOf(configs, user.id);
    var config := if c.Some? then c.value + 1 else 1;
    var p := ImportUpTo(db.tables, user, folder.items, |folder.items|, config);
    Finish(configs, p, user.id, folder.lastUid, db.tables)
  }

  // ------------------------------------------------------------------- invariants

  /** At most one UID is pending, and it is not in the table. */
  ghost predicate SessionOk(s: Session)
  {
    UidsUnique(s.tables.uids) && |s.newUids| <= 1 && (|s.newUids| == 1 ==> !HasUid(s.tables.uids, s.newUids[0]))
  }

  lemma FlushSucceeds(s: Session)
    requires SessionOk(s)
    ensures Flush(s).Some?
  {
    var all := s.tables.uids + s.newUids;
    forall i, j | 0 <= i < j < |all| ensures !SameKey(all[i], all[j]) {
      if j == |s.tables.uids| {
        assert !SameKey(s.tables.uids[i], s.newUids[0]);
      }
    }
  }

  lemma ImportNewKeeps(s: Session, user: User, item: Item, config: int, after: Option<Session>)
    requires SessionOk(s) && after == ImportNew(s, user, item, config)
    ensures after.None? <==> item.broken || HasRecord(s.tables.records, IdFor(user, item))
    ensures after.Some? ==> SessionOk(after.value)
    ensures after.Some? ==> after.value.tables.records == s.tables.records + [RecordOf(user, item)]
  {
    FlushSucceeds(s);
  }

  /** What the loop has done to the records so far. */
  ghost predicate RecordsOk(t: Tables, p: Progress, user: User, items: seq<Item>, n: nat)
    requires n <= |items|
  {
    p.Running? ==>
      && SessionOk(p.s) && t.records <= p.s.tables.records
      && |p.s.tables.records| == |t.records| + p.counts.imported && p.counts.imported + p.counts.skipped == n
      && (forall i :: |t.records| <= i < |p.s.tables.records| ==> p.s.tables.records[i].user == user.id)
      && (forall k :: 0 <= k < n ==> Seen(p.s.tables.records, user, items[k]))
  }

  lemma SeenStays(records: seq<Record>, records': seq<Record>, user: User, item: Item)
    requires records <= records' && Seen(records, user, item)
    ensures Seen(records', user, item)
  {
    var i :| 0 <= i < |records| && records[i].user == user.id &&
             (records[i].messageId == IdFor(user, item) || records[i].messageId == BaseId(item));
    assert records'[i] == records[i];
  }

  lemma NowSeen(records: seq<Record>, user: User, item: Item)
    ensures Seen(records + [RecordOf(user, item)], user, item)
  {
    assert (records + [RecordOf(user, item)])[|records|] == RecordOf(user, item);
  }

  lemma AllSeenStay(records: seq<Record>, records': seq<Record>, user: User, items: seq<Item>, k: nat)
    requires k < |items| && records' == records + [RecordOf(user, items[k])]
    requires forall i :: 0 <= i < k ==> Seen(records, user, items[i])
    ensures forall i :: 0 <= i <= k ==> Seen(records', user, items[i])
  {
    NowSeen(records, user, items[k]);
    forall i | 0 <= i < k ensures Seen(records', user, items[i]) {
      SeenStays(records, records', user, items[i]);
    }
  }

  /** One mail that is imported. */
  lemma RecordsStep(t: Tables, p: Progress, user: User, items: seq<Item>, k: nat, config: int, p': Progress)
    requires k < |items| && p.Running? && RecordsOk(t, p, user, items, k)
    requires !Seen(p.s.tables.records, user, items[k]) && p' == ImportOne(p, user, items[k], config)
    ensures RecordsOk(t, p', user, items, k + 1)
  {
    ImportNewKeeps(p.s, user, items[k], config, ImportNew(p.s, user, items[k], config));
    if p'.Running? {
      AllSeenStay(p.s.tables.records, p'.s.tables.records, user, items, k);
    }
  }

  lemma RecordsOne(t: Tables, p: Progress, user: User, items: seq<Item>, n: nat, config: int)
    requires 0 < n <= |items| && RecordsOk(t, p, user, items, n - 1)
    ensures RecordsOk(t, ImportOne(p, user, items[n - 1], config), user, items, n)
  {
    if p.Running? && !Seen(p.s.tables.records, user, items[n - 1]) {
      RecordsStep(t, p, user, items, n - 1, config, ImportOne(p, user, items[n - 1], config));
    }
  }

  lemma StartIsOk(t: Tables, user: User, items: seq<Item>)
    requires UidsUnique(t.uids)
    ensures RecordsOk(t, Running(Session(t, [], []), Counts(0, 0, 0)), user, items, 0)
  {
  }

  lemma {:induction false} LoopKeepsRecords(t: Tables, user: User, items: seq<Item>, n: nat, config: int)
    requires n <= |items| && UidsUnique(t.uids)
    ensures RecordsOk(t, ImportUpTo(t, user, items, n, config), user, items, n)
  {
    if n == 0 {
      StartIsOk(t, user, items);
    } else {
      LoopKeepsRecords(t, user, items, n - 1, config);
      RecordsOne(t, ImportUpTo(t, user, items, n - 1, config), user, items, n, config);
    }
  }

  lemma SkipOne(s: Session, counts: Counts, user: User, item: Item, config: int)
    requires Seen(s.tables.records, user, item)
    ensures ImportOne(Running(s, counts), user, item, config) == Running(s, counts.(skipped := counts.skipped + 1))
  {
  }

  ghost predicate AllSeen(records: seq<Record>, user: User, items: seq<Item>)
  {
    forall k :: 0 <= k < |items| ==> Seen(records, user, items[k])
  }

  /** The same mails again: all are skipped and nothing is added. */
  lemma {:induction false} AllSeenAllSkipped(t: Tables, user: User, items: seq<Item>, n: nat, config: int)
    requires n <= |items| && AllSeen(t.records, user, items)
    ensures ImportUpTo(t, user, items, n, config) == Running(Session(t, [], []), Counts(0, n, 0))
  {
    if n > 0 {
      AllSeenAllSkipped(t, user, items, n - 1, config);
      SkipOne(Session(t, [], []), Counts(0, n - 1, 0), user, items[n - 1], config);
    }
  }

  // --------------------------------------------------------------------- theorems

  lemma EnsuredOnce(configs: seq<Config>, user: int, password: Option<string>)
    ensures var once := EnsureConfig(configs, user, password); EnsureConfig(once, user, password) == once
    ensures ConfigOf(configs, user).Some? ==> EnsureConfig(configs, user, password) == configs
  {
    FindConfigFinds(configs, |configs|, user);
    var once := EnsureConfig(configs, user, password);
    FindConfigFinds(once, |once|, user);
    if once != configs {
      assert once[|configs|].user == user;
    }
  }

  /**
   * An import adds a configuration exactly for a user without one, with the decrypted password, or the
   * sample one if there is no folder to read it from, unless decrypting fails; a rollback leaves just that.
   */
  lemma ConfiguresExactly(db: Db, user: User, folder: Folder)
    ensures var configs := EnsureConfig(db.configs, user.id, folder.password);
            var has := exists i :: 0 <= i < |db.configs| && db.configs[i].user == user.id;
            && (if has || folder.password == Some("") then configs == db.configs
                else
                  configs == db.configs +
                    [Config(user.id, if folder.password.None? then "sample-secure-pass" else folder.password.value,
                            0, 0, 0)])
            && (Import(db, user, folder).1.RolledBack? ==> Import(db, user, folder).0.configs == configs)
  {
    FindConfigFinds(db.configs, |db.configs|, user.id);
  }

  lemma UpdatedIsFound(configs: seq<Config>, c: nat, row: Config, user: int)
    requires ConfigOf(configs, user) == Some(c) && c < |configs| && row.user == user
    ensures ConfigOf(configs[c := row], user) == Some(c)
  {
    FindConfigFinds(configs, |configs|, user);
    FindConfigFinds(configs[c := row], |configs|, user);
    assert configs[c := row][c].user == user;
  }

  /** After a completed run the same configuration is found, every mail has been seen, and nothing is left to do. */
  lemma NothingLeft(configs: seq<Config>, t: Tables, user: User, folder: Folder, config: int, p: Progress, done: Db)
    requires UidsUnique(t.uids) && EnsureConfig(configs, user.id, folder.password) == configs
    requires config == (if ConfigOf(configs, user.id).Some? then ConfigOf(configs, user.id).value + 1 else 1)
    requires p == ImportUpTo(t, user, folder.items, |folder.items|, config) && p.Running?
    requires done == Finish(configs, p, user.id, folder.lastUid, t).0
    ensures Import(done, user, folder) == (done, Completed(Counts(0, |folder.items|, 0)))
  {
    var n := |folder.items|;
    var again := Counts(0, n, 0);
    assert done.tables.records == p.s.tables.records && UidsUnique(done.tables.uids) &&
           forall k :: 0 <= k < n ==> Seen(done.tables.records, user, folder.items[k]) by {
      LoopKeepsRecords(t, user, folder.items, n, config);
      FlushSucceeds(p.s);
    }
    assert ImportUpTo(done.tables, user, folder.items, n, config) == Running(Session(done.tables, [], []), again) by {
      AllSeenAllSkipped(done.tables, user, folder.items, n, config);
    }
    assert EnsureConfig(done.configs, user.id, folder.password) == done.configs &&
           ConfigOf(done.configs, user.id) == ConfigOf(configs, user.id) by {
      StatsAreStable(configs, p, user.id, folder.password, folder.lastUid, t, done);
    }
    FlushNothing(done.tables);
    NothingToUpdate(configs, p, user.id, folder.lastUid, t, n, done);
  }

  lemma StatsAreStable(configs: seq<Config>, p: Progress, user: int, password: Option<string>, lastUid: int,
                       t: Tables, done: Db)
    requires EnsureConfig(configs, user, password) == configs && done == Finish(configs, p, user, lastUid, t).0
    ensures EnsureConfig(done.configs, user, password) == done.configs &&
            ConfigOf(done.configs, user) == ConfigOf(configs, user)
  {
    FindConfigFinds(configs, |configs|, user);
    var c := ConfigOf(configs, user);
    if c.Some? && done.configs != configs {
      UpdatedIsFound(configs, c.value, done.configs[c.value], user);
    }
  }

  /** A second run with nothing imported leaves the configuration as the first one did. */
  lemma NothingToUpdate(configs: seq<Config>, p: Progress, user: int, lastUid: int, t: Tables, skipped: nat, done: Db)
    requires done == Finish(configs, p, user, lastUid, t).0 && Finish(configs, p, user, lastUid, t).1.Completed?
    requires ConfigOf(done.configs, user) == ConfigOf(configs, user)
    requires Flush(Session(done.tables, [], [])) == Some(Session(done.tables, [], []))
    ensures var again := Running(Session(done.tables, [], []), Counts(0, skipped, 0));
            Finish(done.configs, again, user, lastUid, done.tables) ==
            (done, Completed(Counts(0, skipped, 0)))
  {
    FindConfigFinds(configs, |configs|, user);
    var c := ConfigOf(configs, user);
    if c.Some? {
      var row := done.configs[c.value];
      assert Updated(row, lastUid, Counts(0, skipped, 0)) == row;
      assert done.configs[c.value := row] == done.configs;
    }
  }

  /** Running the import twice is running it once, on every table, whether it succeeds or is rolled back. */
  lemma ImportTwiceIsOnce(db: Db, user: User, folder: Folder)
    requires UidsUnique(db.tables.uids)
    ensures var (once, outcome) := Import(db, user, folder);
            Import(once, user, folder) ==
                (once, if outcome.Completed? then Completed(Counts(0, |folder.items|, 0)) else RolledBack)
  {
    var configs := EnsureConfig(db.configs, user.id, folder.password);
    EnsuredOnce(db.configs, user.id, folder.password);
    var c := ConfigOf(configs, user.id);
    var config := if c.Some? then c.value + 1 else 1;
    var p := ImportUpTo(db.tables, user, folder.items, |folder.items|, config);
    if p.Running? {
      LoopKeepsRecords(db.tables, user, folder.items, |folder.items|, config);
      FlushSucceeds(p.s);
      NothingLeft(configs, db.tables, user, folder, config, p, Import(db, user, folder).0);
    }
  }

  lemma FlushNothing(t: Tables)
    requires UidsUnique(t.uids)
    ensures Flush(Session(t, [], [])) == Some(Session(t, [], []))
  {
    assert t.uids + [] == t.uids && t.children + [] == t.children;
  }

  /** Some other user's record has the id this mail would get. */
  ghost predicate HeldByOther(records: seq<Record>, user: User, item: Item)
  {
    exists i :: 0 <= i < |records| && records[i].user != user.id && records[i].messageId == IdFor(user, item)
  }

  /** The position whose mail makes the loop raise: not seen, and broken or its id taken by another user. */
  ghost predicate Fatal(t: Tables, user: User, items: seq<Item>, k: nat, config: int)
    requires k < |items|
  {
    var p := ImportUpTo(t, user, items, k, config);
    p.Running? && !Seen(p.s.tables.records, user, items[k]) &&
    (items[k].broken || HeldByOther(t.records, user, items[k]))
  }

  lemma ClashIsWithOther(t: Tables, p: Progress, user: User, items: seq<Item>, k: nat)
    requires k < |items| && p.Running? && RecordsOk(t, p, user, items, k) && !Seen(p.s.tables.records, user, items[k])
    ensures HasRecord(p.s.tables.records, IdFor(user, items[k])) <==> HeldByOther(t.records, user, items[k])
  {
    var records, id := p.s.tables.records, IdFor(user, items[k]);
    if HasRecord(records, id) {
      var i :| 0 <= i < |records| && records[i].messageId == id;
      assert records[i].user != user.id;
      assert t.records[i] == records[i];
    }
    if HeldByOther(t.records, user, items[k]) {
      var i :| 0 <= i < |t.records| && t.records[i].user != user.id && t.records[i].messageId == id;
      assert records[i].messageId == id;
    }
  }

  lemma RaisedHere(t: Tables, user: User, items: seq<Item>, k: nat, config: int, p: Progress)
    requires k < |items| && UidsUnique(t.uids) && p == ImportUpTo(t, user, items, k, config) && p.Running?
    ensures ImportOne(p, user, items[k], config).Raised? <==> Fatal(t, user, items, k, config)
  {
    LoopKeepsRecords(t, user, items, k, config);
    if !Seen(p.s.tables.records, user, items[k]) {
      ImportNewKeeps(p.s, user, items[k], config, ImportNew(p.s, user, items[k], config));
      ClashIsWithOther(t, p, user, items, k);
    }
  }

  lemma {:induction false} RaisedByOne(t: Tables, user: User, items: seq<Item>, n: nat, config: int) returns (k: nat)
    requires n <= |items| && UidsUnique(t.uids) && ImportUpTo(t, user, items, n, config).Raised?
    ensures k < n && Fatal(t, user, items, k, config)
  {
    k := n - 1;
    var p := ImportUpTo(t, user, items, k, config);
    if p.Raised? {
      k := RaisedByOne(t, user, items, k, config);
    } else {
      RaisedHere(t, user, items, k, config, p);
    }
  }

  lemma FatalRaises(t: Tables, user: User, items: seq<Item>, k: nat, config: int)
    requires k < |items| && UidsUnique(t.uids) && Fatal(t, user, items, k, config)
    ensures ImportUpTo(t, user, items, |items|, config).Raised?
  {
    RaisedHere(t, user, items, k, config, ImportUpTo(t, user, items, k, config));
    RaisedStays(t, user, items, k + 1, |items|, config);
  }

  /**
   * An import is rolled back exactly when it comes to a mail it has not seen whose
   * rows cannot be made or whose id is taken by a record of another user. UIDs
   * never clash, although they may repeat in the file and nothing is flushed
   * before they are looked up but what an earlier record's flush took along.
   */
  lemma RolledBackExactly(db: Db, user: User, folder: Folder)
    requires UidsUnique(db.tables.uids)
    ensures var c := ConfigOf(EnsureConfig(db.configs, user.id, folder.password), user.id);
            var config := if c.Some? then c.value + 1 else 1;
            Import(db, user, folder).1 == RolledBack <==>
            exists k :: 0 <= k < |folder.items| && Fatal(db.tables, user, folder.items, k, config)
    ensures Import(db, user, folder).1 == RolledBack ==> Import(db, user, folder).0.tables == db.tables
  {
    var c := ConfigOf(EnsureConfig(db.configs, user.id, folder.password), user.id);
    var config := if c.Some? then c.value + 1 else 1;
    var p := ImportUpTo(db.tables, user, folder.items, |folder.items|, config);
    if p.Running? {
      LoopKeepsRecords(db.tables, user, folder.items, |folder.items|, config);
      FlushSucceeds(p.s);
      forall k | 0 <= k < |folder.items| ensures !Fatal(db.tables, user, folder.items, k, config) {
        if Fatal(db.tables, user, folder.items, k, config) {
          FatalRaises(db.tables, user, folder.items, k, config);
        }
      }
    } else {
      var k := RaisedByOne(db.tables, user, folder.items, |folder.items|, config);
    }
  }

  /** The statistics of the user's configuration, and of no other, move with the counts. */
  ghost predicate StatsOk(before: seq<Config>, after: seq<Config>, user: int, lastUid: int, counts: Counts)
  {
    var c := ConfigOf(before, user);
    && |after| == |before| && (c.Some? ==> c.value < |before|)
    && (forall i :: 0 <= i < |before| && c != Some(i) ==> after[i] == before[i])
    && (c.Some? ==>
          && after[c.value].checked == before[c.value].checked + counts.imported
          && after[c.value].threats == before[c.value].threats + counts.threats
          && after[c.value].lastUid == Max(before[c.value].lastUid, lastUid))
  }

  lemma FinishedTables(configs: seq<Config>, p: Progress, user: int, lastUid: int, t: Tables)
    requires Finish(configs, p, user, lastUid, t).1.Completed?
    ensures p.Running? && Finish(configs, p, user, lastUid, t).1.counts == p.counts
    ensures var done := Finish(configs, p, user, lastUid, t).0.tables;
            && done.records == p.s.tables.records && done.children == p.s.tables.children + p.s.newChildren
            && UidsUnique(done.uids) && done.uids == p.s.tables.uids + p.s.newUids
  {
  }

  lemma FinishKeepsStats(configs: seq<Config>, p: Progress, user: int, lastUid: int, t: Tables)
    requires Finish(configs, p, user, lastUid, t).1.Completed?
    ensures StatsOk(configs, Finish(configs, p, user, lastUid, t).0.configs, user, lastUid, p.counts)
  {
    FindConfigFinds(configs, |configs|, user);
  }

  /** What a completed import adds up to. */
  lemma CountsAddUp(db: Db, user: User, folder: Folder)
    requires UidsUnique(db.tables.uids) && Import(db, user, folder).1.Completed?
    ensures var (after, outcome) := Import(db, user, folder);
            && outcome.counts.imported + outcome.counts.skipped == |folder.items|
            && db.tables.records <= after.tables.records
            && |after.tables.records| == |db.tables.records| + outcome.counts.imported
            && UidsUnique(after.tables.uids)
            && StatsOk(EnsureConfig(db.configs, user.id, folder.password), after.configs,
                       user.id, folder.lastUid, outcome.counts)
  {
    var configs := EnsureConfig(db.configs, user.id, folder.password);
    var c := ConfigOf(configs, user.id);
    var config := if c.Some? then c.value + 1 else 1;
    var p := ImportUpTo(db.tables, user, folder.items, |folder.items|, config);
    FinishedTables(configs, p, user.id, folder.lastUid, db.tables);
    LoopKeepsRecords(db.tables, user, folder.items, |folder.items|, config);
    FinishKeepsStats(configs, p, user.id, folder.lastUid, db.tables);
  }

  // ------------------------------------------------------------------- quarantine

  /** The records that the first n rows put in quarantine. */
  function Quarantined(rows: seq<Child>, n: nat): seq<nat>
    requires n <= |rows|
  {
    if n == 0 then []
    else if rows[n - 1].Quarantine? then Quarantined(rows, n - 1) + [rows[n - 1].email]
    else Quarantined(rows, n - 1)
  }

  /** The malicious records from one position up to another. */
  function MaliciousFrom(records: seq<Record>, from: nat, n: nat): seq<nat>
    requires n <= |records|
  {
    if n <= from then []
    else if records[n - 1].verdict.Malicious? then MaliciousFrom(records, from, n - 1) + [n - 1]
    else MaliciousFrom(records, from, n - 1)
  }

  lemma {:induction false} QuarantinedOfPrefix(a: seq<Child>, b: seq<Child>, n: nat)
    requires n <= |a| && a <= b
    ensures Quarantined(b, n) == Quarantined(a, n)
  {
    if n > 0 {
      QuarantinedOfPrefix(a, b, n - 1);
    }
  }

  lemma {:induction false} MaliciousOfPrefix(a: seq<Record>, b: seq<Record>, from: nat, n: nat)
    requires n <= |a| && a <= b
    ensures MaliciousFrom(b, from, n) == MaliciousFrom(a, from, n)
  {
    if n > from {
      MaliciousOfPrefix(a, b, from, n - 1);
    }
  }

  /** No quarantine row is among them. */
  ghost predicate Calm(rows: seq<Child>)
  {
    forall i :: 0 <= i < |rows| ==> !rows[i].Quarantine?
  }

  lemma {:induction false} CalmAdded(before: seq<Child>, rows: seq<Child>)
    requires Calm(rows)
    ensures Quarantined(before + rows, |before + rows|) == Quarantined(before, |before|)
  {
    if rows == [] {
      assert before + rows == before;
    } else {
      var n := |rows| - 1;
      CalmAdded(before, rows[..n]);
      assert before + rows == before + rows[..n] + [rows[n]];
      QuarantinedOfPrefix(before + rows[..n], before + rows, |before| + n);
    }
  }

  lemma EventsAdded(before: seq<Child>, email: nat, user: int, quarantined: bool)
    ensures var all := before + EventRows(email, user, quarantined);
            Quarantined(all, |all|) ==
            if quarantined then Quarantined(before, |before|) + [email] else Quarantined(before, |before|)
  {
    var received := [ScanEvent(email, "email_received"), ScanEvent(email, "risk_calculated")];
    CalmAdded(before, received);
    if quarantined {
      var rows := before + received + [Quarantine(email, user)];
      var last := [Alert(email, user), ScanEvent(email, "email_quarantined")];
      QuarantinedOfPrefix(before + received, rows, |before| + 2);
      CalmAdded(rows, last);
      assert before + EventRows(email, user, true) == rows + last;
    }
  }

  lemma {:induction false} AttachmentsAreNot(files: seq<File>, n: nat, email: nat)
    requires n <= |files|
    ensures Calm(AttachmentRows(files, n, email))
  {
    if n > 0 {
      AttachmentsAreNot(files, n - 1, email);
    }
  }

  lemma {:induction false} UrlsAreNot(links: seq<Link>, n: nat, email: nat)
    requires n <= |links|
    ensures Calm(UrlRows(links, n, email))
  {
    if n > 0 {
      UrlsAreNot(links, n - 1, email);
    }
  }

  lemma {:induction false} DetectionsAreNot(reasons: seq<string>, n: nat, email: nat, points: int)
    requires n <= |reasons|
    ensures Calm(DetectionRows(reasons, n, email, points))
  {
    if n > 0 {
      DetectionsAreNot(reasons, n - 1, email, points);
    }
  }

  /** The rows of one mail hold one quarantine row when it is malicious, and none otherwise. */
  lemma MailAdded(before: seq<Child>, content: seq<Child>, email: nat, user: int, quarantined: bool)
    requires Calm(content)
    ensures var all := before + (content + EventRows(email, user, quarantined));
            Quarantined(all, |all|) ==
            if quarantined then Quarantined(before, |before|) + [email] else Quarantined(before, |before|)
  {
    var events := EventRows(email, user, quarantined);
    CalmAdded(before, content);
    EventsAdded(before + content, email, user, quarantined);
    assert before + (content + events) == before + content + events;
  }

  lemma ContentIsCalm(item: Item, email: nat)
    ensures Calm(ContentRows(item, email))
  {
    AttachmentsAreNot(item.attachments, |item.attachments|, email);
    UrlsAreNot(item.links, |item.links|, email);
    DetectionsAreNot(item.reasons, |item.reasons|, email, if item.status.Dangerous? then 25 else 10);
  }

  ghost predicate QuarantineOk(t: Tables, s: Session, threats: nat)
  {
    var rows, records := s.tables.children + s.newChildren, s.tables.records;
    && Quarantined(rows, |rows|) == Quarantined(t.children, |t.children|) +
          MaliciousFrom(records, |t.records|, |records|)
    && |MaliciousFrom(records, |t.records|, |records|)| == threats
  }

  lemma QuarantineStep(t: Tables, s: Session, user: User, item: Item, config: int, after: Session, threats: nat)
    requires SessionOk(s) && |t.records| <= |s.tables.records| && ImportNew(s, user, item, config) == Some(after)
    requires QuarantineOk(t, s, threats)
    ensures QuarantineOk(t, after, if item.status.Dangerous? then threats + 1 else threats)
  {
    ImportNewKeeps(s, user, item, config, Some(after));
    var email := |s.tables.records|;
    var before := s.tables.children + s.newChildren;
    var rows := after.tables.children + after.newChildren;
    assert rows == before + ChildrenOf(user, item, email);
    ContentIsCalm(item, email);
    MailAdded(before, ContentRows(item, email), email, user.id, item.status.Dangerous?);
    MaliciousOfPrefix(s.tables.records, after.tables.records, |t.records|, email);
    assert after.tables.records[email].verdict.Malicious? <==> item.status.Dangerous?;
  }

  lemma QuarantineOne(t: Tables, p: Progress, user: User, item: Item, config: int, p': Progress)
    requires p.Running? && SessionOk(p.s) && |t.records| <= |p.s.tables.records|
    requires QuarantineOk(t, p.s, p.counts.threats) && p' == ImportOne(p, user, item, config) && p'.Running?
    ensures QuarantineOk(t, p'.s, p'.counts.threats)
  {
    if !Seen(p.s.tables.records, user, item) {
      QuarantineStep(t, p.s, user, item, config, p'.s, p.counts.threats);
    }
  }

  lemma {:induction false} LoopKeepsQuarantine(t: Tables, user: User, items: seq<Item>, n: nat, config: int)
    requires n <= |items| && UidsUnique(t.uids)
    ensures var p := ImportUpTo(t, user, items, n, config); p.Running? ==> QuarantineOk(t, p.s, p.counts.threats)
  {
    if n == 0 {
      assert t.children + [] == t.children;
      assert MaliciousFrom(t.records, |t.records|, |t.records|) == [];
    } else {
      var before, p := ImportUpTo(t, user, items, n - 1, config), ImportUpTo(t, user, items, n, config);
      LoopKeepsQuarantine(t, user, items, n - 1, config);
      if p.Running? {
        assert before.Running? && SessionOk(before.s) && |t.records| <= |before.s.tables.records| by {
          LoopKeepsRecords(t, user, items, n - 1, config);
        }
        QuarantineOne(t, before, user, items[n - 1], config, p);
      }
    }
  }

  /**
   * A completed import puts exactly the new malicious records in quarantine, one row each, and
   * counts them as threats.
   */
  lemma QuarantineMatches(db: Db, user: User, folder: Folder)
    requires UidsUnique(db.tables.uids) && Import(db, user, folder).1.Completed?
    ensures var (after, outcome) := Import(db, user, folder);
            var added := MaliciousFrom(after.tables.records, |db.tables.records|, |after.tables.records|);
            && Quarantined(after.tables.children, |after.tables.children|) ==
                 Quarantined(db.tables.children, |db.tables.children|) + added
            && outcome.counts.threats == |added|
  {
    var configs := EnsureConfig(db.configs, user.id, folder.password);
    var c := ConfigOf(configs, user.id);
    var config := if c.Some? then c.value + 1 else 1;
    var p := ImportUpTo(db.tables, user, folder.items, |folder.items|, config);
    FinishedTables(configs, p, user.id, folder.lastUid, db.tables);
    LoopKeepsQuarantine(db.tables, user, folder.items, |folder.items|, config);
  }

  // ------------------------------------------------------------------ rows and UIDs

  /** The mails among the first n that are imported: those without a record of the user, old or of an earlier one. */
  function Fresh(records: seq<Record>, user: User, items: seq<Item>, n: nat): seq<Item>
    requires n <= |items|
  {
    if n == 0 then [] else FreshOne(records, user, Fresh(records, user, items, n - 1), items[n - 1])
  }

  function FreshOne(records: seq<Record>, user: User, mails: seq<Item>, item: Item): seq<Item>
  {
    if Seen(records + RecordsFor(user, mails), user, item) then mails else mails + [item]
  }

  function RecordsFor(user: User, mails: seq<Item>): seq<Record>
  {
    seq(|mails|, j requires 0 <= j < |mails| => RecordOf(user, mails[j]))
  }

  /** The rows of these mails; their records are numbered from `first` on. */
  function RowsFor(user: User, mails: seq<Item>, first: nat): seq<Child>
  {
    if mails == [] then []
    else
      var n := |mails| - 1;
      RowsFor(user, mails[..n], first) + ChildrenOf(user, mails[n], first + n)
  }

  predicate GivesUid(item: Item, config: int, u: Uid)
  {
    item.uid.Some? && u.config == config && u.folder == item.folder && u.uid == item.uid.value
  }

  ghost predicate UidFrom(mails: seq<Item>, config: int, u: Uid)
  {
    exists j :: 0 <= j < |mails| && GivesUid(mails[j], config, u)
  }

  /** Exactly the UIDs of these mails were added. */
  ghost predicate UidsAdded(before: seq<Uid>, after: seq<Uid>, mails: seq<Item>, config: int)
  {
    before <= after && forall u :: HasUid(after, u) <==> HasUid(before, u) || UidFrom(mails, config, u)
  }

  lemma HasUidOfSnoc(uids: seq<Uid>, v: Uid, u: Uid)
    ensures HasUid(uids + [v], u) <==> HasUid(uids, u) || SameKey(v, u)
  {
    var all := uids + [v];
    if SameKey(v, u) {
      assert all[|uids|] == v;
    }
    if HasUid(uids, u) {
      var i :| 0 <= i < |uids| && SameKey(uids[i], u);
      assert all[i] == uids[i];
    }
  }

  lemma UidFromSnoc(mails: seq<Item>, item: Item, config: int, u: Uid)
    ensures UidFrom(mails + [item], config, u) <==> UidFrom(mails, config, u) || GivesUid(item, config, u)
  {
    var all := mails + [item];
    if GivesUid(item, config, u) {
      assert all[|mails|] == item;
    }
    if UidFrom(mails, config, u) {
      var j :| 0 <= j < |mails| && GivesUid(mails[j], config, u);
      assert all[j] == mails[j];
    }
  }

  /** The UIDs and one more, if it is there and is new. */
  function WithUid(uids: seq<Uid>, uid: Option<Uid>): seq<Uid>
  {
    if uid.Some? && !HasUid(uids, uid.value) then uids + [uid.value] else uids
  }

  lemma UidsOfOne(before: seq<Uid>, all: seq<Uid>, mails: seq<Item>, item: Item, user: User, config: int,
                  after: seq<Uid>)
    requires UidsAdded(before, all, mails, config) && after == WithUid(all, UidOf(user, item, config))
    ensures UidsAdded(before, after, mails + [item], config)
  {
    var uid := UidOf(user, item, config);
    forall u ensures HasUid(after, u) <==> HasUid(before, u) || UidFrom(mails + [item], config, u) {
      UidFromSnoc(mails, item, config, u);
      if uid.Some? {
        HasUidOfSnoc(all, uid.value, u);
      }
    }
  }

  /** What importing one mail adds. */
  lemma ImportNewAdds(s: Session, user: User, item: Item, config: int, after: Session)
    requires SessionOk(s) && ImportNew(s, user, item, config) == Some(after)
    ensures after.tables.records == s.tables.records + [RecordOf(user, item)]
    ensures after.tables.children + after.newChildren ==
            s.tables.children + s.newChildren + ChildrenOf(user, item, |s.tables.records|)
    ensures after.tables.uids + after.newUids == WithUid(s.tables.uids + s.newUids, UidOf(user, item, config))
  {
    var all := s.tables.uids + s.newUids;
    assert all + [] == all;
  }

  /** The session after importing these mails, all of them. */
  function AfterAll(t: Tables, user: User, mails: seq<Item>, config: int): Option<Session>
  {
    if mails == [] then Some(Session(t, [], []))
    else
      var before := AfterAll(t, user, mails[..|mails| - 1], config);
      if before.None? then None else ImportNew(before.value, user, mails[|mails| - 1], config)
  }

  ghost predicate LoopOk(t: Tables, p: Progress, user: User, mails: seq<Item>, config: int)
  {
    p.Running? ==>
      && p.counts.imported == |mails| && AfterAll(t, user, mails, config) == Some(p.s)
      && p.s.tables.records == t.records + RecordsFor(user, mails)
  }

  lemma LoopStep(t: Tables, p: Progress, user: User, mails: seq<Item>, item: Item, config: int, p': Progress)
    requires LoopOk(t, p, user, mails, config) && (p.Running? ==> SessionOk(p.s))
    requires p' == ImportOne(p, user, item, config)
    ensures LoopOk(t, p', user, FreshOne(t.records, user, mails, item), config)
  {
    if p.Running? && !Seen(p.s.tables.records, user, item) && p'.Running? {
      ImportNewKeeps(p.s, user, item, config, Some(p'.s));
      assert (mails + [item])[..|mails|] == mails;
    }
  }

  lemma {:induction false} LoopAddsExactly(t: Tables, user: User, items: seq<Item>, n: nat, config: int)
    requires n <= |items| && UidsUnique(t.uids)
    ensures LoopOk(t, ImportUpTo(t, user, items, n, config), user, Fresh(t.records, user, items, n), config)
  {
    if n == 0 {
      assert t.records + [] == t.records;
    } else {
      var before := ImportUpTo(t, user, items, n - 1, config);
      assert before.Running? ==> SessionOk(before.s) by {
        LoopKeepsRecords(t, user, items, n - 1, config);
      }
      LoopAddsExactly(t, user, items, n - 1, config);
      LoopStep(t, before, user, Fresh(t.records, user, items, n - 1), items[n - 1], config,
               ImportOne(before, user, items[n - 1], config));
    }
  }

  lemma RowsOfOne(t: Tables, rows: seq<Child>, user: User, mails: seq<Item>, item: Item)
    requires rows == t.children + RowsFor(user, mails, |t.records|)
    ensures rows + ChildrenOf(user, item, |t.records| + |mails|) ==
            t.children + RowsFor(user, mails + [item], |t.records|)
  {
    assert (mails + [item])[..|mails|] == mails;
  }

  /** What is in the session, flushed or not, was added for these mails. */
  ghost predicate AllAdded(t: Tables, s: Session, user: User, mails: seq<Item>, config: int)
  {
    && SessionOk(s) && s.tables.records == t.records + RecordsFor(user, mails)
    && s.tables.children + s.newChildren == t.children + RowsFor(user, mails, |t.records|)
    && UidsAdded(t.uids, s.tables.uids + s.newUids, mails, config)
  }

  lemma OneIsAdded(t: Tables, s: Session, user: User, mails: seq<Item>, item: Item, config: int, after: Session)
    requires AllAdded(t, s, user, mails, config) && ImportNew(s, user, item, config) == Some(after)
    ensures AllAdded(t, after, user, mails + [item], config)
  {
    ImportNewKeeps(s, user, item, config, Some(after));
    ImportNewAdds(s, user, item, config, after);
    RowsOfOne(t, s.tables.children + s.newChildren, user, mails, item);
    assert UidsAdded(t.uids, after.tables.uids + after.newUids, mails + [item], config) by {
      UidsOfOne(t.uids, s.tables.uids + s.newUids, mails, item, user, config, after.tables.uids + after.newUids);
    }
  }

  lemma {:induction false} AllAreAdded(t: Tables, user: User, mails: seq<Item>, config: int, s: Session)
    requires UidsUnique(t.uids) && AfterAll(t, user, mails, config) == Some(s)
    ensures AllAdded(t, s, user, mails, config)
  {
    if mails == [] {
      assert t.records + [] == t.records && t.children + [] == t.children && t.uids + [] == t.uids;
    } else {
      var item, earlier := mails[|mails| - 1], mails[..|mails| - 1];
      assert mails == earlier + [item];
      var before := AfterAll(t, user, earlier, config).value;
      AllAreAdded(t, user, earlier, config, before);
      OneIsAdded(t, before, user, earlier, item, config, s);
    }
  }

  /** The record of a mail: under the user's prefix, classified by its status. */
  predicate IsRecordOf(r: Record, user: User, item: Item)
  {
    && r.user == user.id
    && r.messageId == user.prefix + (if item.messageId != "" then item.messageId else "imported-" + item.id)
    && (r.verdict.Malicious? <==> item.status.Dangerous?) && (r.verdict.Suspicious? <==> item.status.Unknown?)
    && r.threats == (if item.status.Dangerous? then |item.reasons| else 0)
    && r.attachments == |item.attachments| && r.urls == |item.links|
  }

  /**
   * The row is one that the mail leaves with record number `email`: a fixed header, one of its attachments, one of
   * its links that can be parsed, one of its reasons, or an event.
   */
  predicate IsRowOf(c: Child, user: User, item: Item, email: nat)
  {
    IsContentOf(c, item, email) || IsEventOf(c, user, item, email)
  }

  predicate IsEventOf(c: Child, user: User, item: Item, email: nat)
  {
    var dangerous := item.status.Dangerous?;
    c.email == email &&
    match c
    case ScanEvent(_, kind) =>
      kind in {"email_received", "risk_calculated"} || (dangerous && kind == "email_quarantined")
    case Quarantine(_, owner) => dangerous && owner == user.id
    case Alert(_, owner) => dangerous && owner == user.id
    case _ => false
  }

  lemma {:induction false} AttachmentRowsAre(files: seq<File>, n: nat, email: nat)
    requires n <= |files|
    ensures |AttachmentRows(files, n, email)| == n
    ensures forall i :: 0 <= i < n ==>
              AttachmentRows(files, n, email)[i] == Attachment(email, files[i].name, files[i].dangerous)
  {
    if n > 0 {
      AttachmentRowsAre(files, n - 1, email);
    }
  }

  lemma {:induction false} DetectionRowsAre(reasons: seq<string>, n: nat, email: nat, points: int)
    requires n <= |reasons|
    ensures |DetectionRows(reasons, n, email, points)| == n
    ensures forall i :: 0 <= i < n ==>
              DetectionRows(reasons, n, email, points)[i] == Detection(email, reasons[i], points)
  {
    if n > 0 {
      DetectionRowsAre(reasons, n - 1, email, points);
    }
  }

  /** How many of the first n links can be parsed. */
  function Parseable(links: seq<Link>, n: nat): nat
    requires n <= |links|
  {
    if n == 0 then 0 else Parseable(links, n - 1) + (if links[n - 1].domain.Some? then 1 else 0)
  }

  lemma {:induction false} UrlRowsAre(links: seq<Link>, n: nat, email: nat)
    requires n <= |links|
    ensures |UrlRows(links, n, email)| == Parseable(links, n)
    ensures forall c :: c in UrlRows(links, n, email) <==>
              c.Url? && c.email == email && Link(c.url, Some(c.domain)) in links[..n]
  {
    if n > 0 {
      UrlRowsAre(links, n - 1, email);
      assert links[..n] == links[..n - 1] + [links[n - 1]];
    }
  }

  /** How many rows a mail leaves. */
  function RowCount(item: Item): nat
  {
    4 + |item.attachments| + Parseable(item.links, |item.links|) + |item.reasons| +
    (if item.status.Dangerous? then 5 else 2)
  }

  lemma ContentIs(item: Item, email: nat)
    ensures |ContentRows(item, email)| ==
            4 + |item.attachments| + Parseable(item.links, |item.links|) + |item.reasons|
    ensures forall c: Child :: c in ContentRows(item, email) <==> IsContentOf(c, item, email)
  {
    var files := AttachmentRows(item.attachments, |item.attachments|, email);
    var links := UrlRows(item.links, |item.links|, email);
    var points := if item.status.Dangerous? then 25 else 10;
    var reasons := DetectionRows(item.reasons, |item.reasons|, email, points);
    AttachmentRowsAre(item.attachments, |item.attachments|, email);
    FilesAre(item.attachments, files, email);
    UrlRowsAre(item.links, |item.links|, email);
    assert item.links[..|item.links|] == item.links;
    DetectionRowsAre(item.reasons, |item.reasons|, email, points);
    ReasonsAre(item.reasons, reasons, email, points);
    forall c: Child ensures c in ContentRows(item, email) <==> IsContentOf(c, item, email) {
      InAll(HeaderRows(email), files, links, reasons, c);
      HeadersAre(email, c);
    }
  }

  lemma InAll(a: seq<Child>, b: seq<Child>, d: seq<Child>, e: seq<Child>, c: Child)
    ensures c in a + b + d + e <==> c in a || c in b || c in d || c in e
  {
  }

  lemma HeadersAre(email: nat, c: Child)
    ensures c in HeaderRows(email) <==>
              c.Header? && c.email == email && c.name in {"From", "To", "Subject", "Message-ID"}
  {
  }

  predicate IsContentOf(c: Child, item: Item, email: nat)
  {
    c.email == email &&
    match c
    case Header(_, name) => name in {"From", "To", "Subject", "Message-ID"}
    case Attachment(_, name, d) => File(name, d) in item.attachments
    case Url(_, url, domain) => Link(url, Some(domain)) in item.links
    case Detection(_, reason, points) => reason in item.reasons && points == (if item.status.Dangerous? then 25 else 10)
    case _ => false
  }

  lemma ChildrenAre(user: User, item: Item, email: nat)
    ensures |ChildrenOf(user, item, email)| == RowCount(item)
    ensures forall c: Child :: c in ChildrenOf(user, item, email) <==> IsRowOf(c, user, item, email)
  {
    ContentIs(item, email);
    EventsAre(user, item, email);
    var events := EventRows(email, user.id, item.status.Dangerous?);
    forall c: Child ensures c in ChildrenOf(user, item, email) <==> IsRowOf(c, user, item, email) {
      assert c in ChildrenOf(user, item, email) <==> c in ContentRows(item, email) || c in events;
    }
  }

  lemma FilesAre(files: seq<File>, rows: seq<Child>, email: nat)
    requires |rows| == |files|
    requires forall i :: 0 <= i < |files| ==> rows[i] == Attachment(email, files[i].name, files[i].dangerous)
    ensures forall c: Child :: c in rows <==> c.Attachment? && c.email == email && File(c.name, c.dangerous) in files
  {
    forall c: Child | c.Attachment? && c.email == email && File(c.name, c.dangerous) in files ensures c in rows {
      var i :| 0 <= i < |files| && files[i] == File(c.name, c.dangerous);
      assert rows[i] == c;
    }
  }

  lemma ReasonsAre(reasons: seq<string>, rows: seq<Child>, email: nat, points: int)
    requires |rows| == |reasons|
    requires forall i :: 0 <= i < |reasons| ==> rows[i] == Detection(email, reasons[i], points)
    ensures forall c: Child ::
              c in rows <==> c.Detection? && c.email == email && c.reason in reasons && c.points == points
  {
    forall c: Child | c.Detection? && c.email == email && c.reason in reasons && c.points == points ensures c in rows {
      var i :| 0 <= i < |reasons| && reasons[i] == c.reason;
      assert rows[i] == c;
    }
  }

  lemma EventsAre(user: User, item: Item, email: nat)
    ensures |EventRows(email, user.id, item.status.Dangerous?)| == if item.status.Dangerous? then 5 else 2
    ensures forall c: Child ::
              c in EventRows(email, user.id, item.status.Dangerous?) <==> IsEventOf(c, user, item, email)
  {
  }

  /** The number of rows of all the mails. */
  function RowsCount(mails: seq<Item>): nat
  {
    if mails == [] then 0 else RowsCount(mails[..|mails| - 1]) + RowCount(mails[|mails| - 1])
  }

  /** The row is one that the mail of its record leaves. */
  predicate IsRowOfSome(c: Child, user: User, mails: seq<Item>, first: nat)
  {
    first <= c.email < first + |mails| && IsRowOf(c, user, mails[c.email - first], c.email)
  }

  lemma {:induction false} RowsAre(user: User, mails: seq<Item>, first: nat)
    ensures |RowsFor(user, mails, first)| == RowsCount(mails)
    ensures forall c: Child :: c in RowsFor(user, mails, first) <==> IsRowOfSome(c, user, mails, first)
  {
    if mails != [] {
      var n := |mails| - 1;
      RowsAre(user, mails[..n], first);
      ChildrenAre(user, mails[n], first + n);
      forall c: Child ensures c in RowsFor(user, mails, first) <==> IsRowOfSome(c, user, mails, first) {
        assert IsRowOfSome(c, user, mails, first) <==>
          IsRowOfSome(c, user, mails[..n], first) || IsRowOf(c, user, mails[n], first + n);
      }
    }
  }

  /** The records and rows added are those of these mails. */
  ghost predicate AddsExactly(before: Tables, after: Tables, user: User, mails: seq<Item>)
  {
    var first := |before.records|;
    && before.records <= after.records && |after.records| == first + |mails|
    && (forall j :: 0 <= j < |mails| ==> IsRecordOf(after.records[first + j], user, mails[j]))
    && before.children <= after.children && |after.children| == |before.children| + RowsCount(mails)
    && (forall row: Child :: row in after.children[|before.children|..] <==> IsRowOfSome(row, user, mails, first))
  }

  lemma AddedIsExact(before: Tables, after: Tables, user: User, mails: seq<Item>)
    requires after.records == before.records + RecordsFor(user, mails)
    requires after.children == before.children + RowsFor(user, mails, |before.records|)
    ensures AddsExactly(before, after, user, mails)
  {
    RowsAre(user, mails, |before.records|);
    assert after.children[|before.children|..] == RowsFor(user, mails, |before.records|);
    forall j | 0 <= j < |mails| ensures IsRecordOf(after.records[|before.records| + j], user, mails[j]) {
      assert after.records[|before.records| + j] == RecordOf(user, mails[j]);
    }
  }

  /**
   * A completed import adds, for each mail that is new, in order, its record, exactly its rows (one for each
   * attachment, each link that can be parsed and each reason, and the fixed ones) and its UID, if the
   * configuration does not have it yet; and nothing else.
   */
  lemma ImportAddsExactly(db: Db, user: User, folder: Folder)
    requires UidsUnique(db.tables.uids) && Import(db, user, folder).1.Completed?
    ensures var after := Import(db, user, folder).0.tables;
            var mails := Fresh(db.tables.records, user, folder.items, |folder.items|);
            var c := ConfigOf(EnsureConfig(db.configs, user.id, folder.password), user.id);
            && Import(db, user, folder).1.counts.imported == |mails|
            && AddsExactly(db.tables, after, user, mails)
            && UidsAdded(db.tables.uids, after.uids, mails, if c.Some? then c.value + 1 else 1)
            && UidsUnique(after.uids)
  {
    var configs := EnsureConfig(db.configs, user.id, folder.password);
    var c := ConfigOf(configs, user.id);
    var config := if c.Some? then c.value + 1 else 1;
    var items, n := folder.items, |folder.items|;
    var p, mails := ImportUpTo(db.tables, user, items, n, config), Fresh(db.tables.records, user, items, n);
    FinishedTables(configs, p, user.id, folder.lastUid, db.tables);
    LoopAddsExactly(db.tables, user, items, n, config);
    AllAreAdded(db.tables, user, mails, config, p.s);
    AddedIsExact(db.tables, Import(db, user, folder).0.tables, user, mails);
  }

  // ------------------------------------------------------------ mistaken duplicates

  /** Every record of the user has an id with the user's prefix. */
  ghost predicate Prefixed(records: seq<Record>, user: User)
  {
    forall i :: 0 <= i < |records| && records[i].user == user.id ==> user.prefix <= records[i].messageId
  }

  /** The new records are those of mails of the file. */
  ghost predicate AddedFrom(t: Tables, records: seq<Record>, user: User, items: seq<Item>)
  {
    t.records <= records &&
    forall i :: |t.records| <= i < |records| ==> exists k :: 0 <= k < |items| && records[i] == RecordOf(user, items[k])
  }

  lemma AddedOne(t: Tables, records: seq<Record>, user: User, items: seq<Item>, k: nat)
    requires k < |items| && AddedFrom(t, records, user, items)
    ensures AddedFrom(t, records + [RecordOf(user, items[k])], user, items)
  {
    var after := records + [RecordOf(user, items[k])];
    forall i | |t.records| <= i < |after| ensures exists j :: 0 <= j < |items| && after[i] == RecordOf(user, items[j]) {
      if i < |records| {
        assert after[i] == records[i];
      } else {
        assert after[i] == RecordOf(user, items[k]);
      }
    }
  }

  lemma {:induction false} LoopAdds(t: Tables, user: User, items: seq<Item>, n: nat, config: int)
    requires n <= |items| && UidsUnique(t.uids)
    ensures var p := ImportUpTo(t, user, items, n, config); p.Running? ==> AddedFrom(t, p.s.tables.records, user, items)
  {
    if n > 0 {
      LoopAdds(t, user, items, n - 1, config);
      var before := ImportUpTo(t, user, items, n - 1, config);
      if before.Running? && !Seen(before.s.tables.records, user, items[n - 1]) {
        LoopKeepsRecords(t, user, items, n - 1, config);
        ImportNewKeeps(before.s, user, items[n - 1], config, ImportNew(before.s, user, items[n - 1], config));
        AddedOne(t, before.s.tables.records, user, items, n - 1);
      }
    }
  }

  /** What every import keeps of every user. */
  ghost predicate Tidy(db: Db, user: User) { UidsUnique(db.tables.uids) && Prefixed(db.tables.records, user) }

  /** Every import keeps the ids of every user prefixed. */
  lemma ImportKeepsPrefixed(db: Db, owner: User, folder: Folder, user: User)
    requires Tidy(db, user) && (owner.id == user.id ==> owner == user)
    ensures Tidy(Import(db, owner, folder).0, user)
  {
    var configs := EnsureConfig(db.configs, owner.id, folder.password);
    var c := ConfigOf(configs, owner.id);
    var config := if c.Some? then c.value + 1 else 1;
    var p := ImportUpTo(db.tables, owner, folder.items, |folder.items|, config);
    if Import(db, owner, folder).1.Completed? {
      FinishedTables(configs, p, owner.id, folder.lastUid, db.tables);
      assert AddedFrom(db.tables, p.s.tables.records, owner, folder.items) by {
        LoopAdds(db.tables, owner, folder.items, |folder.items|, config);
      }
      AddedArePrefixed(db.tables, p.s.tables.records, owner, folder.items, user);
    }
  }

  lemma AddedArePrefixed(t: Tables, records: seq<Record>, owner: User, items: seq<Item>, user: User)
    requires AddedFrom(t, records, owner, items) && Prefixed(t.records, user) && (owner.id == user.id ==> owner == user)
    ensures Prefixed(records, user)
  {
    forall i | 0 <= i < |records| && records[i].user == user.id ensures user.prefix <= records[i].messageId {
      if i < |t.records| {
        assert records[i] == t.records[i];
      } else {
        var k :| 0 <= k < |items| && records[i] == RecordOf(owner, items[k]);
      }
    }
  }

  /** The imports from the k-th on. */
  function ImportsFrom(db: Db, runs: seq<(User, Folder)>, k: nat): Db
    requires k <= |runs|
    decreases |runs| - k
  {
    if k == |runs| then db else ImportsFrom(Import(db, runs[k].0, runs[k].1).0, runs, k + 1)
  }

  /** The imports into an empty database. */
  function Imports(runs: seq<(User, Folder)>): Db { ImportsFrom(Db([], Tables([], [], [])), runs, 0) }

  /** The user always has the same prefix. */
  ghost predicate SamePerson(runs: seq<(User, Folder)>, user: User)
  {
    forall k :: 0 <= k < |runs| && runs[k].0.id == user.id ==> runs[k].0 == user
  }

  lemma {:induction false} ImportsStayTidy(db: Db, runs: seq<(User, Folder)>, k: nat, user: User)
    requires k <= |runs| && SamePerson(runs, user) && Tidy(db, user)
    ensures Tidy(ImportsFrom(db, runs, k), user)
    decreases |runs| - k
  {
    if k < |runs| {
      ImportKeepsPrefixed(db, runs[k].0, runs[k].1, user);
      ImportsStayTidy(Import(db, runs[k].0, runs[k].1).0, runs, k + 1, user);
    }
  }

  /** The record is the user's and of a mail with that id of its own. */
  predicate IsOf(r: Record, user: User, id: string) { r.user == user.id && r.messageId == user.prefix + id }

  /** One of the user's records is of a mail with the item's id, or with what follows the prefix in it. */
  ghost predicate ImportedUnderId(records: seq<Record>, user: User, item: Item)
  {
    exists i, id ::
      0 <= i < |records| && IsOf(records[i], user, id) && (BaseId(item) == id || BaseId(item) == user.prefix + id)
  }

  lemma SeenIsImported(records: seq<Record>, user: User, item: Item, i: nat)
    requires Prefixed(records, user) && i < |records| && records[i].user == user.id
    requires records[i].messageId == IdFor(user, item) || records[i].messageId == BaseId(item)
    ensures ImportedUnderId(records, user, item)
  {
    var prefix, whole := user.prefix, records[i].messageId;
    var id := whole[|prefix|..];
    assert whole == prefix + id;
    assert IsOf(records[i], user, id);
    if whole == IdFor(user, item) {
      assert id == (prefix + BaseId(item))[|prefix|..] == BaseId(item);
    }
  }

  /**
   * After any imports a mail counts as a duplicate exactly when it was imported
   * under its own id, or that is the prefix and the id of one that was.
   */
  lemma SeenExactly(runs: seq<(User, Folder)>, user: User, item: Item)
    requires SamePerson(runs, user)
    ensures var records := Imports(runs).tables.records;
            Seen(records, user, item) <==> ImportedUnderId(records, user, item)
  {
    ImportsStayTidy(Db([], Tables([], [], [])), runs, 0, user);
    SeenIff(Imports(runs).tables.records, user, item);
  }

  lemma SeenIff(records: seq<Record>, user: User, item: Item)
    requires Prefixed(records, user)
    ensures Seen(records, user, item) <==> ImportedUnderId(records, user, item)
  {
    if Seen(records, user, item) {
      var i :| 0 <= i < |records| && records[i].user == user.id &&
               (records[i].messageId == IdFor(user, item) || records[i].messageId == BaseId(item));
      SeenIsImported(records, user, item, i);
    }
    if ImportedUnderId(records, user, item) {
      var i, id :| 0 <= i < |records| && IsOf(records[i], user, id) &&
                   (BaseId(item) == id || BaseId(item) == user.prefix + id);
      assert records[i].messageId == IdFor(user, item) || records[i].messageId == BaseId(item);
    }
  }

  /** A mail that is not seen, can be made and does not clash is imported. */
  lemma NewMailIsImported(db: Db, user: User, item: Item, password: Option<string>, lastUid: int)
    requires UidsUnique(db.tables.uids) && !item.broken
    requires !Seen(db.tables.records, user, item) && !HasRecord(db.tables.records, IdFor(user, item))
    ensures var (after, outcome) := Import(db, user, Folder(password, [item], lastUid));
            outcome.Completed? && outcome.counts.imported == 1 &&
            after.tables.records == db.tables.records + [RecordOf(user, item)]
  {
    var c := ConfigOf(EnsureConfig(db.configs, user.id, password), user.id);
    var config := if c.Some? then c.value + 1 else 1;
    var start := Session(db.tables, [], []);
    var p := ImportUpTo(db.tables, user, [item], 1, config);
    assert p == ImportOne(ImportUpTo(db.tables, user, [item], 0, config), user, item, config);
    ImportNewKeeps(start, user, item, config, ImportNew(start, user, item, config));
    FlushSucceeds(p.s);
  }

  /** So after such a mail another with the prefix before its id is taken for a duplicate and lost. */
  lemma DifferentMailIsSkipped(db: Db, user: User, first: Item, second: Item, password: Option<string>, lastUid: int)
    requires UidsUnique(db.tables.uids) && !first.broken && BaseId(second) == user.prefix + BaseId(first)
    requires !Seen(db.tables.records, user, first) && !HasRecord(db.tables.records, IdFor(user, first))
    ensures var after := Import(db, user, Folder(password, [first], lastUid)).0;
            var (again, outcome) := Import(after, user, Folder(password, [second], lastUid));
            outcome == Completed(Counts(0, 1, 0)) && again.tables == after.tables
  {
    NewMailIsImported(db, user, first, password, lastUid);
    var after := Import(db, user, Folder(password, [first], lastUid)).0;
    assert after.tables.records[|db.tables.records|] == RecordOf(user, first);
    assert Seen(after.tables.records, user, second);
    assert UidsUnique(after.tables.uids) by {
      CountsAddUp(db, user, Folder(password, [first], lastUid));
    }
    SeenMailIsSkipped(after, user, second, password, lastUid);
  }

  lemma SeenMailIsSkipped(db: Db, user: User, item: Item, password: Option<string>, lastUid: int)
    requires UidsUnique(db.tables.uids) && Seen(db.tables.records, user, item)
    ensures var (after, outcome) := Import(db, user, Folder(password, [item], lastUid));
            outcome == Completed(Counts(0, 1, 0)) && after.tables == db.tables
  {
    var c := ConfigOf(EnsureConfig(db.configs, user.id, password), user.id);
    AllSeenAllSkipped(db.tables, user, [item], 1, if c.Some? then c.value + 1 else 1);
    FlushNothing(db.tables);
  }

  // --------------------------------------------------------------------- the script

  /** The database and the session of the script. */
  class Importer {
    var configs: seq<Config>
    var tables: Tables
    var session: Session

    function Model(): Db reads this { Db(configs, tables) }

    constructor (db: Db)
      ensures Model() == db
    {
      configs, tables, session := db.configs, db.tables, Session(db.tables, [], []);
    }

    method AddAndFlush(r: Record) returns (ok: bool)
      modifies this`session
      ensures if ok then Some(session) == AddRecord(old(session), r) else AddRecord(old(session), r).None?
    {
      var t := session.tables;
      if !UidsUnique(t.uids + session.newUids) || HasRecord(t.records, r.messageId) {
        return false;
      }
      session := Session(Tables(t.records + [r], t.uids + session.newUids, t.children + session.newChildren), [], []);
      ok := true;
    }

    method AddChildren(user: User, item: Item, email: nat)
      modifies this`session
      ensures session == old(session).(newChildren := old(session).newChildren + ChildrenOf(user, item, email))
    {
      var rows := HeaderRows(email);
      ghost var headers := rows;
      for i := 0 to |item.attachments|
        invariant rows == headers + AttachmentRows(item.attachments, i, email)
      {
        rows := rows + [Attachment(email, item.attachments[i].name, item.attachments[i].dangerous)];
      }
      ghost var files := rows;
      for i := 0 to |item.links|
        invariant rows == files + UrlRows(item.links, i, email)
      {
        if item.links[i].domain.Some? {
          rows := rows + [Url(email, item.links[i].url, item.links[i].domain.value)];
        }
      }
      ghost var urls := rows;
      var points := if item.status.Dangerous? then 25 else 10;
      for i := 0 to |item.reasons|
        invariant rows == urls + DetectionRows(item.reasons, i, email, points)
      {
        rows := rows + [Detection(email, item.reasons[i], points)];
      }
      rows := rows + EventRows(email, user.id, item.status.Dangerous?);
      session := session.(newChildren := session.newChildren + rows);
    }

    /** One mail that has not been seen. */
    method ImportMail(user: User, item: Item, config: int) returns (ok: bool)
      modifies this`session
      ensures if ok then Some(session) == ImportNew(old(session), user, item, config)
              else ImportNew(old(session), user, item, config).None?
    {
      ok := AddAndFlush(RecordOf(user, item));
      if !ok || item.broken {
        return false;
      }
      var uid := UidOf(user, item, config);
      if uid.Some? && !HasUid(session.tables.uids, uid.value) {
        session := session.(newUids := session.newUids + [uid.value]);
      }
      AddChildren(user, item, |session.tables.records| - 1);
    }

    /** One mail of the file. */
    method ImportOrSkip(user: User, item: Item, config: int, before: Counts) returns (ok: bool, counts: Counts)
      modifies this`session
      ensures ImportOne(Running(old(session), before), user, item, config) ==
              if ok then Running(session, counts) else Raised
    {
      counts := before;
      if Seen(session.tables.records, user, item) {
        return true, counts.(skipped := counts.skipped + 1);
      }
      ok := ImportMail(user, item, config);
      if ok {
        if item.status.Dangerous? {
          counts := counts.(threats := counts.threats + 1);
        }
        counts := counts.(imported := counts.imported + 1);
      }
    }

    /** The loop over the mails. */
    method ImportItems(user: User, items: seq<Item>, config: int) returns (ok: bool, counts: Counts)
      requires session == Session(tables, [], [])
      modifies this`session
      ensures ImportUpTo(tables, user, items, |items|, config) == if ok then Running(session, counts) else Raised
    {
      counts := Counts(0, 0, 0);
      for k := 0 to |items|
        invariant ImportUpTo(tables, user, items, k, config) == Running(session, counts)
      {
        ok, counts := ImportOrSkip(user, items[k], config, counts);
        if !ok {
          RaisedStays(tables, user, items, k + 1, |items|, config);
          return;
        }
      }
      ok := true;
    }

    /** A new configuration is committed before the mails are looked at. */
    method EnsureConfiguration(user: int, password: Option<string>)
      modifies this`configs
      ensures configs == EnsureConfig(old(configs), user, password)
    {
      FindConfigFinds(configs, |configs|, user);
      if ConfigOf(configs, user).Some? || password == Some("") {
        return;
      }
      configs := configs + [Config(user, if password.Some? then password.value else "sample-secure-pass", 0, 0, 0)];
    }

    method ImportEmailData(user: User, folder: Folder) returns (outcome: Outcome)
      modifies this
      ensures (Model(), outcome) == Import(old(Model()), user, folder)
    {
      EnsureConfiguration(user.id, folder.password);
      FindConfigFinds(configs, |configs|, user.id);
      var row := ConfigOf(configs, user.id);
      session := Session(tables, [], []);
      var ok, counts := ImportItems(user, folder.items, if row.Some? then row.value + 1 else 1);
      if !ok {
        return RolledBack;
      }
      outcome := Commit(row, counts, user.id, folder.lastUid);
    }

    /** The statistics are updated and everything is committed. */
    method Commit(row: Option<nat>, counts: Counts, user: int, lastUid: int) returns (outcome: Outcome)
      requires row == ConfigOf(configs, user)
      modifies this`configs, this`tables
      ensures (Model(), outcome) == Finish(old(configs), Running(session, counts), user, lastUid, old(tables))
    {
      var flushed := Flush(session);
      if flushed.None? {
        return RolledBack;
      }
      FindConfigFinds(configs, |configs|, user);
      if row.Some? {
        configs := configs[row.value := Updated(configs[row.value], lastUid, counts)];
      }
      tables := flushed.value.tables;
      outcome := Completed(counts);
    }
  }

  lemma {:induction false} RaisedStays(t: Tables, user: User, items: seq<Item>, m: nat, n: nat, config: int)
    requires m <= n <= |items| && ImportUpTo(t, user, items, m, config).Raised?
    ensures ImportUpTo(t, user, items, n, config).Raised?
  {
    if m < n {
      RaisedStays(t, user, items, m, n - 1, config);
      NothingAfterRaised(ImportUpTo(t, user, items, n - 1, config), user, items[n - 1], config);
    }
  }

  lemma NothingAfterRaised(p: Progress, user: User, item: Item, config: int)
    requires p.Raised?
    ensures ImportOne(p, user, item, config).Raised?
  {
  }
}
