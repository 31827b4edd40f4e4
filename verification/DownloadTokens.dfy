/**
 * Single-use download tokens
 * (backend/uploads/38f3b4ec993e4475a046a8360b393112_file_service.py).
 *
 * The table is a sequence of rows in the order of their ids; token is its unique
 * column. Times are in microseconds.
 */
module DownloadTokens {
  import opened Common

  const EXPIRE_AFTER: int := 300_000_000

  datatype Token = Token(token: string, user: int, file: string, expires: int, used: bool, usedAt: Option<int>)

  datatype Event = Issue(user: int, file: string, token: string) | Validate(token: string, user: int, file: string)

  /** TwoRows and Duplicate are exceptions of the database layer. */
  datatype Reply = Issued | TwoRows | Duplicate | Valid(id: nat) | Unknown | AlreadyUsed | Expired

  // ---------------------------------------------------------------- operations

  predicate Live(r: Token, user: int, file: string, now: int)
  {
    r.user == user && r.file == file && !r.used && r.expires > now
  }

  predicate Names(r: Token, token: string, user: int, file: string)
  {
    r.token == token && r.user == user && r.file == file
  }

  function Used(r: Token, now: int): Token { r.(used := true, usedAt := Some(now)) }

  predicate Known(t: seq<Token>, token: string)
  {
    exists i :: 0 <= i < |t| && t[i].token == token
  }

  /** The live tokens of the user and file. */
  function FindLive(t: seq<Token>, user: int, file: string, now: int): Found
  {
    FindOnly(t, |t|, (r: Token) => Live(r, user, file, now))
  }

  lemma FindLiveFinds(t: seq<Token>, user: int, file: string, now: int)
    ensures var found := FindLive(t, user, file, now);
            match found
            case Nothing => forall i :: 0 <= i < |t| ==> !Live(t[i], user, file, now)
            case One(k) => k < |t| && forall i :: 0 <= i < |t| ==> (Live(t[i], user, file, now) <==> i == k)
            case Several =>
              exists i, j :: 0 <= i < j < |t| && Live(t[i], user, file, now) && Live(t[j], user, file, now)
  {
    FindOnlyFinds(t, |t|, (r: Token) => Live(r, user, file, now));
  }

  /** The row of that token, user and file. */
  function FindToken(t: seq<Token>, token: string, user: int, file: string): Found
  {
    FindOnly(t, |t|, (r: Token) => Names(r, token, user, file))
  }

  lemma FindTokenFinds(t: seq<Token>, token: string, user: int, file: string)
    ensures var found := FindToken(t, token, user, file);
            match found
            case Nothing => forall i :: 0 <= i < |t| ==> !Names(t[i], token, user, file)
            case One(k) => k < |t| && forall i :: 0 <= i < |t| ==> (Names(t[i], token, user, file) <==> i == k)
            case Several =>
              exists i, j :: 0 <= i < j < |t| && Names(t[i], token, user, file) && Names(t[j], token, user, file)
  {
    FindOnlyFinds(t, |t|, (r: Token) => Names(r, token, user, file));
  }

  /** `create_download_token`: the live one, if any, is used up before another is added. */
  function DoIssue(t: seq<Token>, user: int, file: string, token: string, now: int): (seq<Token>, Reply)
  {
    FindLiveFinds(t, user, file, now);
    var found := FindLive(t, user, file, now);
    if found.Several? then (t, TwoRows)
    else
      var t' := if found.One? then t[found.i := Used(t[found.i], now)] else t;
      if Known(t', token) then (t', Duplicate)
      else (t' + [Token(token, user, file, now + EXPIRE_AFTER, false, None)], Issued)
  }

  /** `validate_download_token`. */
  function DoValidate(t: seq<Token>, token: string, user: int, file: string, now: int): (seq<Token>, Reply)
  {
    FindTokenFinds(t, token, user, file);
    match FindToken(t, token, user, file)
    case Nothing => (t, Unknown)
    case Several => (t, TwoRows)
    case One(i) =>
      if t[i].used then (t, AlreadyUsed)
      else if t[i].expires <= now then (t, Expired)
      else (t[i := Used(t[i], now)], Valid(i))
  }

  function Step(t: seq<Token>, e: Event, now: int): (seq<Token>, Reply)
  {
    match e
    case Issue(user, file, token) => DoIssue(t, user, file, token, now)
    case Validate(token, user, file) => DoValidate(t, token, user, file, now)
  }

  // ---------------------------------------------------------------- whole runs

  /** A validation that succeeded: by whom, for what and when. */
  datatype Use = Use(id: nat, user: int, file: string, at: int)

  datatype World = World(tokens: seq<Token>, uses: seq<Use>, issued: nat, crashed: bool)

  function Advance(w: World, e: Event, now: int): World
  {
    var (tokens, reply) := Step(w.tokens, e, now);
    World(tokens, if reply.Valid? then w.uses + [Use(reply.id, e.user, e.file, now)] else w.uses,
          if reply.Issued? then w.issued + 1 else w.issued, w.crashed || reply.TwoRows?)
  }

  const EMPTY: World := World([], [], 0, false)

  /** The first n calls, each with its time. */
  function Run(calls: seq<(Event, int)>, n: nat): World
    requires n <= |calls|
  {
    if n == 0 then EMPTY else Advance(Run(calls, n - 1), calls[n - 1].0, calls[n - 1].1)
  }

  /** Two tokens of one user and file: the older is used up, or had expired when the younger was issued. */
  ghost predicate Spaced(t: seq<Token>)
  {
    forall i, j :: 0 <= i < j < |t| && t[i].user == t[j].user && t[i].file == t[j].file ==>
      t[i].used || t[i].expires <= t[j].expires - EXPIRE_AFTER
  }

  ghost predicate DistinctTokens(t: seq<Token>)
  {
    forall i, j :: 0 <= i < j < |t| ==> t[i].token != t[j].token
  }

  ghost predicate UseOk(use: Use, t: seq<Token>)
  {
    && use.id < |t| && t[use.id].used && t[use.id].user == use.user && t[use.id].file == use.file
    && use.at < t[use.id].expires
  }

  ghost predicate UsesOk(uses: seq<Use>, t: seq<Token>)
  {
    && (forall k :: 0 <= k < |uses| ==> UseOk(uses[k], t))
    && (forall k, l :: 0 <= k < l < |uses| ==> uses[k].id != uses[l].id)
  }

  /** What holds whatever the clock does. */
  ghost predicate Inv(w: World)
  {
    DistinctTokens(w.tokens) && Spaced(w.tokens) && UsesOk(w.uses, w.tokens) && w.issued == |w.tokens|
  }

  /** No row goes away or changes hands, and a used one stays used. */
  ghost predicate Grows(t: seq<Token>, t': seq<Token>)
  {
    |t| <= |t'| && forall i :: 0 <= i < |t| ==>
      Names(t'[i], t[i].token, t[i].user, t[i].file) && t'[i].expires == t[i].expires && (t[i].used ==> t'[i] == t[i])
  }

  lemma UsesKept(uses: seq<Use>, t: seq<Token>, t': seq<Token>)
    requires UsesOk(uses, t) && Grows(t, t')
    ensures UsesOk(uses, t')
  {
    forall k | 0 <= k < |uses| ensures UseOk(uses[k], t') {
      assert UseOk(uses[k], t);
    }
  }

  lemma UseAdded(uses: seq<Use>, t: seq<Token>, use: Use, t': seq<Token>)
    requires UsesOk(uses, t) && Grows(t, t') && UseOk(use, t') && use.id < |t| && !t[use.id].used
    ensures UsesOk(uses + [use], t')
  {
    var all := uses + [use];
    UsesKept(uses, t, t');
    forall k, l | 0 <= k < l < |all| ensures all[k].id != all[l].id {
      assert UseOk(uses[k], t);
    }
  }

  lemma IssueKeeps(t: seq<Token>, user: int, file: string, token: string, now: int, t': seq<Token>)
    requires DistinctTokens(t) && Spaced(t) && t' == DoIssue(t, user, file, token, now).0
    ensures DistinctTokens(t') && Spaced(t') && Grows(t, t')
    ensures |t'| == |t| + (if DoIssue(t, user, file, token, now).1.Issued? then 1 else 0)
    ensures |t'| > |t| ==> t'[|t|] == Token(token, user, file, now + EXPIRE_AFTER, false, None)
  {
    FindLiveFinds(t, user, file, now);
  }

  lemma ValidateKeeps(t: seq<Token>, token: string, user: int, file: string, now: int, t': seq<Token>)
    requires DistinctTokens(t) && Spaced(t) && t' == DoValidate(t, token, user, file, now).0
    ensures DistinctTokens(t') && Spaced(t') && Grows(t, t') && |t'| == |t|
    ensures var reply := DoValidate(t, token, user, file, now).1;
            && !reply.TwoRows?
            && (reply.Valid? ==> reply.id < |t| && !t[reply.id].used && UseOk(Use(reply.id, user, file, now), t'))
  {
    FindTokenFinds(t, token, user, file);
  }

  lemma AdvanceKeeps(w: World, e: Event, now: int, w': World)
    requires Inv(w) && w' == Advance(w, e, now)
    ensures Inv(w') && Grows(w.tokens, w'.tokens)
  {
    match e {
      case Issue(user, file, token) =>
        IssueKeeps(w.tokens, user, file, token, now, w'.tokens);
        UsesKept(w.uses, w.tokens, w'.tokens);
      case Validate(token, user, file) =>
        ValidateKeeps(w.tokens, token, user, file, now, w'.tokens);
        var reply := Step(w.tokens, e, now).1;
        if reply.Valid? {
          UseAdded(w.uses, w.tokens, Use(reply.id, user, file, now), w'.tokens);
        } else {
          UsesKept(w.uses, w.tokens, w'.tokens);
        }
    }
  }

  /** A row was there before, or is the one the call issued. */
  lemma RowOrigin(w: World, e: Event, now: int, w': World, j: nat)
    requires Inv(w) && w' == Advance(w, e, now) && j < |w'.tokens|
    ensures var r := w'.tokens[j];
            if j < |w.tokens| then Names(w.tokens[j], r.token, r.user, r.file) && w.tokens[j].expires == r.expires
            else e == Issue(r.user, r.file, r.token) && now == r.expires - EXPIRE_AFTER
  {
    match e {
      case Issue(user, file, token) => IssueKeeps(w.tokens, user, file, token, now, w'.tokens);
      case Validate(token, user, file) => ValidateKeeps(w.tokens, token, user, file, now, w'.tokens);
    }
  }

  /** Only an issue can meet two rows. */
  lemma OnlyIssuesMeetTwo(w: World, e: Event, now: int)
    requires Inv(w) && (e.Issue? ==> DoIssue(w.tokens, e.user, e.file, e.token, now).1 != TwoRows)
    ensures Advance(w, e, now).crashed == w.crashed
  {
    if e.Validate? {
      ValidateKeeps(w.tokens, e.token, e.user, e.file, now, DoValidate(w.tokens, e.token, e.user, e.file, now).0);
    }
  }

  lemma {:induction false} RunKeeps(calls: seq<(Event, int)>, n: nat)
    requires n <= |calls|
    ensures Inv(Run(calls, n))
  {
    if n > 0 {
      RunKeeps(calls, n - 1);
      AdvanceKeeps(Run(calls, n - 1), calls[n - 1].0, calls[n - 1].1, Run(calls, n));
    }
  }

  /** Every token was issued by one of the calls, EXPIRE_AFTER before it expires. */
  lemma {:induction false} IssuedByCall(calls: seq<(Event, int)>, n: nat, j: nat) returns (k: nat)
    requires n <= |calls| && j < |Run(calls, n).tokens|
    ensures var r := Run(calls, n).tokens[j];
            k < n && calls[k] == (Issue(r.user, r.file, r.token), r.expires - EXPIRE_AFTER)
  {
    k := n - 1;
    var before, after := Run(calls, k), Run(calls, n);
    assert var r := after.tokens[j];
           if j < |before.tokens| then
             Names(before.tokens[j], r.token, r.user, r.file) && before.tokens[j].expires == r.expires
           else calls[k] == (Issue(r.user, r.file, r.token), r.expires - EXPIRE_AFTER) by {
      RunKeeps(calls, k);
      RowOrigin(before, calls[k].0, calls[k].1, after, j);
    }
    if j < |before.tokens| {
      k := IssuedByCall(calls, k, j);
    }
  }

  predicate Unused(r: Token, user: int, file: string)
  {
    r.user == user && r.file == file && !r.used
  }

  /** Of two unused tokens of the user and file the older has not expired. */
  predicate Overlap(t: seq<Token>, user: int, file: string, now: int, i: int, j: int)
  {
    0 <= i < j < |t| && Unused(t[i], user, file) && Unused(t[j], user, file) && now < t[i].expires
  }

  /**
   * When a lookup meets two rows, whatever the clock did: exactly when an older
   * unused token of the user and file has not expired beside a younger unused one.
   * Then the lookup comes before the moment the younger one was issued.
   */
  lemma TwoRowsExactly(calls: seq<(Event, int)>, n: nat, user: int, file: string, token: string, now: int)
    requires n <= |calls|
    ensures var t := Run(calls, n).tokens;
            && (DoIssue(t, user, file, token, now).1 == TwoRows <==> exists i, j :: Overlap(t, user, file, now, i, j))
            && (forall i, j :: Overlap(t, user, file, now, i, j) ==> now < t[j].expires - EXPIRE_AFTER)
  {
    RunKeeps(calls, n);
    var t := Run(calls, n).tokens;
    FindLiveFinds(t, user, file, now);
    if i, j :| Overlap(t, user, file, now, i, j) {
      assert Live(t[i], user, file, now) && Live(t[j], user, file, now);
    }
    if DoIssue(t, user, file, token, now).1 == TwoRows {
      var i, j :| 0 <= i < j < |t| && Live(t[i], user, file, now) && Live(t[j], user, file, now);
      assert Overlap(t, user, file, now, i, j);
    }
  }

  /** No call that issues a token of the user and file among the first n comes after that moment. */
  ghost predicate IssuedBy(calls: seq<(Event, int)>, n: nat, user: int, file: string, now: int)
    requires n <= |calls|
  {
    forall k :: 0 <= k < n && calls[k].0.Issue? && calls[k].0.user == user && calls[k].0.file == file ==>
        calls[k].1 <= now
  }

  /** So at any moment not before the issues so far there is at most one live token of a user and file. */
  lemma OneLiveToken(calls: seq<(Event, int)>, n: nat, user: int, file: string, token: string, now: int)
    requires n <= |calls| && IssuedBy(calls, n, user, file, now)
    ensures var t := Run(calls, n).tokens;
            && DoIssue(t, user, file, token, now).1 != TwoRows
            && forall i, j :: 0 <= i < j < |t| ==> !(Live(t[i], user, file, now) && Live(t[j], user, file, now))
  {
    TwoRowsExactly(calls, n, user, file, token, now);
    var t := Run(calls, n).tokens;
    forall i, j ensures !Overlap(t, user, file, now, i, j) {
      if Overlap(t, user, file, now, i, j) {
        var k := IssuedByCall(calls, n, j);
      }
    }
    forall i, j | 0 <= i < j < |t| ensures !(Live(t[i], user, file, now) && Live(t[j], user, file, now)) {
      assert !Overlap(t, user, file, now, i, j);
    }
  }

  /** The calls that issue tokens of one user and file come in the order of their times. */
  ghost predicate IssuesInOrder(calls: seq<(Event, int)>)
  {
    forall i :: 0 <= i < |calls| && calls[i].0.Issue? ==>
        IssuedBy(calls, i, calls[i].0.user, calls[i].0.file, calls[i].1)
  }

  /** Then no lookup ever meets two rows; the clock may do what it likes between other calls. */
  lemma {:induction false} NeverTwoRows(calls: seq<(Event, int)>, n: nat)
    requires n <= |calls| && IssuesInOrder(calls)
    ensures !Run(calls, n).crashed
  {
    if n > 0 {
      NeverTwoRows(calls, n - 1);
      CallMeetsOne(Run(calls, n - 1), calls, n - 1);
    }
  }

  lemma CallMeetsOne(w: World, calls: seq<(Event, int)>, k: nat)
    requires k < |calls| && w == Run(calls, k) && IssuesInOrder(calls)
    ensures Advance(w, calls[k].0, calls[k].1).crashed == w.crashed
  {
    var (e, now) := calls[k];
    assert e.Issue? ==> DoIssue(w.tokens, e.user, e.file, e.token, now).1 != TwoRows by {
      if e.Issue? {
        OneLiveToken(calls, k, e.user, e.file, e.token, now);
      }
    }
    assert Inv(w) by {
      RunKeeps(calls, k);
    }
    OnlyIssuesMeetTwo(w, e, now);
  }

  /**
   * Three issues in a row: the third meets two rows if and only if the first had expired at the
   * second but not at the third.
   */
  lemma ClockBackwardsMeetsTwo(user: int, file: string, first: int, second: int, third: int)
    ensures var calls :=
              [(Issue(user, file, "a"), first), (Issue(user, file, "b"), second), (Issue(user, file, "c"), third)];
            Run(calls, 3).crashed <==> third < first + EXPIRE_AFTER <= second
  {
    var calls := [(Issue(user, file, "a"), first), (Issue(user, file, "b"), second), (Issue(user, file, "c"), third)];
    var a := Token("a", user, file, first + EXPIRE_AFTER, false, None);
    var b := Token("b", user, file, second + EXPIRE_AFTER, false, None);
    FindLiveFinds([], user, file, first);
    assert Run(calls, 0) == EMPTY;
    assert Run(calls, 1).tokens == [a] && !Run(calls, 1).crashed;
    FindLiveFinds([a], user, file, second);
    var a' := if a.expires > second then Used(a, second) else a;
    assert Run(calls, 2).tokens == [a', b] && !Run(calls, 2).crashed;
    FindLiveFinds([a', b], user, file, third);
    if third < first + EXPIRE_AFTER <= second {
      assert Live([a', b][0], user, file, third) && Live([a', b][1], user, file, third);
    }
  }

  /** A token is accepted exactly when it is a row of that user and file, unused and unexpired. */
  lemma ValidExactly(calls: seq<(Event, int)>, n: nat, token: string, user: int, file: string, now: int, i: nat)
    requires n <= |calls|
    ensures var t := Run(calls, n).tokens;
            DoValidate(t, token, user, file, now).1 == Valid(i) <==>
            i < |t| && Names(t[i], token, user, file) && Live(t[i], user, file, now)
  {
    RunKeeps(calls, n);
    var t := Run(calls, n).tokens;
    FindTokenFinds(t, token, user, file);
    if i < |t| && Names(t[i], token, user, file) {
      assert FindToken(t, token, user, file) == One(i);
    }
  }

  /**
   * The other replies, each exactly: no such row, one used already, one that has run out. Only an accepted
   * token changes, which is used at that moment.
   */
  lemma ValidatesExactly(calls: seq<(Event, int)>, n: nat, token: string, user: int, file: string, now: int)
    requires n <= |calls|
    ensures var t := Run(calls, n).tokens;
            var (t', reply) := DoValidate(t, token, user, file, now);
            && (reply == Unknown <==> forall i :: 0 <= i < |t| ==> !Names(t[i], token, user, file))
            && (reply == AlreadyUsed <==> exists i :: 0 <= i < |t| && Names(t[i], token, user, file) && t[i].used)
            && (reply == Expired <==>
                  exists i :: 0 <= i < |t| && Names(t[i], token, user, file) && !t[i].used && now >= t[i].expires)
            && (!reply.Valid? ==> t' == t)
            && (reply.Valid? ==>
                  reply.id < |t| == |t'| && (forall i :: 0 <= i < |t| && i != reply.id ==> t'[i] == t[i]) &&
                  t'[reply.id] == t[reply.id].(used := true, usedAt := Some(now)))
  {
    RunKeeps(calls, n);
    var t := Run(calls, n).tokens;
    FindTokenFinds(t, token, user, file);
    var found := FindToken(t, token, user, file);
    if found.One? {
      assert Names(t[found.i], token, user, file);
    }
  }

  /** Whatever the table holds, two rows of one name are an exception, and nothing changes. */
  lemma TwoNamedRows(t: seq<Token>, token: string, user: int, file: string, now: int)
    ensures DoValidate(t, token, user, file, now).1 == TwoRows <==>
            exists i, j :: 0 <= i < j < |t| && Names(t[i], token, user, file) && Names(t[j], token, user, file)
    ensures DoValidate(t, token, user, file, now).1 == TwoRows ==> DoValidate(t, token, user, file, now).0 == t
  {
    FindTokenFinds(t, token, user, file);
    var found := FindToken(t, token, user, file);
    if i, j :| 0 <= i < j < |t| && Names(t[i], token, user, file) && Names(t[j], token, user, file) {
      assert !found.Nothing? && !found.One?;
    }
  }

  /**
   * Issuing uses up exactly the live token of the user and file, and adds the new one, good for five minutes, unless
   * there are two of the former or one with its name already.
   */
  lemma IssuesExactly(t: seq<Token>, user: int, file: string, token: string, now: int)
    ensures var (t', reply) := DoIssue(t, user, file, token, now);
            var two := exists i, j ::
                         0 <= i < j < |t| && Live(t[i], user, file, now) && Live(t[j], user, file, now);
            && (reply == TwoRows <==> two) && (reply == Duplicate <==> !two && Known(t, token))
            && (reply == TwoRows || reply == Duplicate || reply == Issued)
            && (two ==> t' == t)
            && (!two ==>
                  && |t'| == |t| + (if reply == Issued then 1 else 0)
                  && (forall i :: 0 <= i < |t| ==>
                        t'[i] == if Live(t[i], user, file, now) then t[i].(used := true, usedAt := Some(now))
                                 else t[i])
                  && (reply == Issued ==> t'[|t|] == Token(token, user, file, now + 300_000_000, false, None)))
  {
    FindLiveFinds(t, user, file, now);
    var found := FindLive(t, user, file, now);
    if found.One? {
      var t' := t[found.i := Used(t[found.i], now)];
      assert Live(t[found.i], user, file, now);
      assert forall i :: 0 <= i < |t| ==> t'[i].token == t[i].token;
      if Known(t, token) {
        var i :| 0 <= i < |t| && t[i].token == token;
        assert t'[i].token == token;
      }
    }
  }

  /**
   * Each token is accepted at most once, only for its own user and file and only
   * before it expires; so there are never more acceptances than tokens issued.
   */
  lemma AcceptedOnce(calls: seq<(Event, int)>, n: nat)
    requires n <= |calls|
    ensures var w := Run(calls, n);
            && (forall k, l :: 0 <= k < l < |w.uses| ==> w.uses[k].id != w.uses[l].id)
            && (forall k :: 0 <= k < |w.uses| ==> UseOk(w.uses[k], w.tokens))
            && |w.uses| <= w.issued == |w.tokens|
  {
    RunKeeps(calls, n);
    var w := Run(calls, n);
    forall k | 0 <= k < |w.uses| ensures w.uses[k].id < |w.tokens| {
      assert UseOk(w.uses[k], w.tokens);
    }
    DistinctAreFew(w.uses, |w.uses|, |w.tokens|);
  }

  function IdsUpTo(uses: seq<Use>, k: nat): set<nat>
    requires k <= |uses|
  {
    if k == 0 then {} else IdsUpTo(uses, k - 1) + {uses[k - 1].id}
  }

  function Below(n: nat): (s: set<nat>)
    ensures |s| == n && forall i :: i in s <==> 0 <= i < n
  {
    if n == 0 then {} else Below(n - 1) + {n - 1}
  }

  lemma {:induction false} IdsAre(uses: seq<Use>, k: nat)
    requires k <= |uses|
    ensures forall x :: x in IdsUpTo(uses, k) <==> exists i :: 0 <= i < k && uses[i].id == x
  {
    if k > 0 {
      IdsAre(uses, k - 1);
    }
  }

  lemma {:induction false} IdsAreDistinct(uses: seq<Use>, k: nat)
    requires k <= |uses| && forall i, j :: 0 <= i < j < |uses| ==> uses[i].id != uses[j].id
    ensures |IdsUpTo(uses, k)| == k
  {
    if k > 0 {
      IdsAreDistinct(uses, k - 1);
      IdsAre(uses, k - 1);
    }
  }

  lemma DistinctAreFew(uses: seq<Use>, k: nat, n: nat)
    requires k == |uses| && forall i, j :: 0 <= i < j < |uses| ==> uses[i].id != uses[j].id
    requires forall i :: 0 <= i < |uses| ==> uses[i].id < n
    ensures k <= n
  {
    IdsAreDistinct(uses, k);
    IdsAre(uses, k);
    SubsetIsSmaller(IdsUpTo(uses, k), Below(n));
  }

  lemma {:induction false} SubsetIsSmaller(a: set<nat>, b: set<nat>)
    requires a <= b
    ensures |a| <= |b|
  {
    assert b == a + (b - a);
  }

  // -------------------------------------------------------------------- service

  /** The table, changed in place by the service's calls. */
  class FileService {
    var rows: seq<Token>

    constructor ()
      ensures rows == EMPTY.tokens
    {
      rows := [];
    }

    method CreateDownloadToken(user: int, file: string, token: string, now: int) returns (reply: Reply)
      modifies this
      ensures (rows, reply) == Step(old(rows), Issue(user, file, token), now)
    {
      FindLiveFinds(rows, user, file, now);
      var existing := FindLive(rows, user, file, now);
      if existing.Several? {
        return TwoRows;
      }
      if existing.One? {
        rows := rows[existing.i := rows[existing.i].(used := true, usedAt := Some(now))];
      }
      if Known(rows, token) {
        return Duplicate;
      }
      rows := rows + [Token(token, user, file, now + EXPIRE_AFTER, false, None)];
      reply := Issued;
    }

    method ValidateDownloadToken(token: string, user: int, file: string, now: int) returns (reply: Reply)
      modifies this
      ensures (rows, reply) == Step(old(rows), Validate(token, user, file), now)
    {
      FindTokenFinds(rows, token, user, file);
      var found := FindToken(rows, token, user, file);
      if found.Nothing? {
        return Unknown;
      }
      if found.Several? {
        return TwoRows;
      }
      if rows[found.i].used {
        return AlreadyUsed;
      }
      if rows[found.i].expires <= now {
        return Expired;
      }
      rows := rows[found.i := rows[found.i].(used := true, usedAt := Some(now))];
      reply := Valid(found.i);
    }
  }
}
