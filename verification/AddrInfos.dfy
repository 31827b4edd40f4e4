/**
 * Reordering and pruning address lists: `_interleave_addrinfos`
 * (backend/uploads/66a60f4e64164e7694427d9c0e5787ec_impl.py) and `pop_addr_infos_interleave`,
 * `remove_addr_infos` (backend/uploads/a9afc13eeff24e12a125f533c68b8de3_utils.py).
 *
 * Functions named ...UpTo look at the first n elements of a list.
 */
module AddrInfos {
  import opened Common

  datatype AddrInfo = AddrInfo(family: int, address: string)

  /** The caller's list, updated in place. */
  class AddrList {
    var items: seq<AddrInfo>

    constructor (items: seq<AddrInfo>)
      ensures this.items == items
    {
      this.items := items;
    }
  }

  // ----------------------------------------------------------------- by family

  function FamilyUpTo(s: seq<AddrInfo>, n: nat, f: int): seq<AddrInfo>
    requires n <= |s|
  {
    if n == 0 then []
    else
      var before := FamilyUpTo(s, n - 1, f);
      if s[n - 1].family == f then before + [s[n - 1]] else before
  }

  /** The sublist of one family, in order. */
  function OfFamily(s: seq<AddrInfo>, f: int): seq<AddrInfo>
  {
    FamilyUpTo(s, |s|, f)
  }

  function FamiliesUpTo(s: seq<AddrInfo>, n: nat): seq<int>
    requires n <= |s|
  {
    if n == 0 then []
    else
      var before := FamiliesUpTo(s, n - 1);
      if s[n - 1].family in before then before else before + [s[n - 1].family]
  }

  /** The families of s in order of first appearance. */
  function Families(s: seq<AddrInfo>): seq<int>
  {
    FamiliesUpTo(s, |s|)
  }

  /** The dictionary of lists the addresses are grouped in. */
  type Groups = map<int, seq<AddrInfo>>

  /** Reading a defaultdict of lists. */
  function At(groups: Groups, f: int): seq<AddrInfo>
  {
    if f in groups then groups[f] else []
  }

  function Take(list: seq<AddrInfo>, r: nat): seq<AddrInfo>
  {
    if r < |list| then list[..r] else list
  }

  /** Row by row: r full rows of the lists' elements, then the first n cells of the next; short lists are skipped. */
  function Grid(families: seq<int>, groups: Groups, r: nat, n: nat): seq<AddrInfo>
    requires n <= |families|
    decreases r, n
  {
    if n > 0 then
      var before, list := Grid(families, groups, r, n - 1), At(groups, families[n - 1]);
      if r < |list| then before + [list[r]] else before
    else if r > 0 then Grid(families, groups, r - 1, |families|)
    else []
  }

  /** The first r rows. */
  function Rounds(families: seq<int>, groups: Groups, r: nat): seq<AddrInfo>
  {
    Grid(families, groups, r, 0)
  }

  function LongestUpTo(families: seq<int>, n: nat, groups: Groups): nat
    requires n <= |families|
  {
    if n == 0 then 0 else Max(LongestUpTo(families, n - 1, groups), |At(groups, families[n - 1])|)
  }

  function Longest(families: seq<int>, groups: Groups): nat
  {
    LongestUpTo(families, |families|, groups)
  }

  /** `zip_longest`, flattened, without the fill values. */
  function RoundRobin(families: seq<int>, groups: Groups): seq<AddrInfo>
  {
    Rounds(families, groups, Longest(families, groups))
  }

  function GroupsOf(s: seq<AddrInfo>): Groups
  {
    map f | f in Families(s) :: OfFamily(s, f)
  }

  /** What the source's reordering computes for a first-family count k. */
  function Interleaved(s: seq<AddrInfo>, k: int): seq<AddrInfo>
  {
    var families, groups := Families(s), GroupsOf(s);
    if k > 1 && families != [] then
      var first := At(groups, families[0]);
      var n := Min(k - 1, |first|);
      first[..n] + RoundRobin(families, groups[families[0] := first[n..]])
    else RoundRobin(families, groups)
  }

  method GroupByFamily(s: seq<AddrInfo>) returns (families: seq<int>, groups: Groups)
    ensures families == Families(s) && groups == GroupsOf(s)
  {
    families, groups := [], map[];
    for i := 0 to |s|
      invariant families == FamiliesUpTo(s, i)
      invariant forall f :: f in groups <==> f in families
      invariant forall f :: f in groups ==> groups[f] == FamilyUpTo(s, i, f)
    {
      var f := s[i].family;
      FamilyAbsent(s, i, f);
      if f !in groups {
        families := families + [f];
        groups := groups[f := []];
      }
      groups := groups[f := groups[f] + [s[i]]];
    }
    assert forall f :: f in groups <==> f in GroupsOf(s);
  }

  method ZipLongest(families: seq<int>, groups: Groups) returns (out: seq<AddrInfo>)
    ensures out == RoundRobin(families, groups)
  {
    out := [];
    for r := 0 to Longest(families, groups)
      invariant out == Grid(families, groups, r, 0)
    {
      for j := 0 to |families|
        invariant out == Grid(families, groups, r, j)
      {
        var list := At(groups, families[j]);
        if r < |list| { out := out + [list[r]]; }
      }
    }
  }

  method InterleaveAddrInfos(s: seq<AddrInfo>, k: int) returns (reordered: seq<AddrInfo>)
    requires k > 1 ==> s != []
    ensures reordered == Interleaved(s, k)
  {
    var families, groups := GroupByFamily(s);
    reordered := [];
    if k > 1 {
      assert families != [] by { FamilyAbsent(s, |s|, s[|s| - 1].family); }
      var first := At(groups, families[0]);
      var n := Min(k - 1, |first|);
      reordered := first[..n];
      groups := groups[families[0] := first[n..]];
    }
    var rest := ZipLongest(families, groups);
    reordered := reordered + rest;
  }

  // -------------------------------------------------- families of a reordering

  lemma {:induction false} FamilyAbsent(s: seq<AddrInfo>, n: nat, f: int)
    requires n <= |s|
    ensures f in FamiliesUpTo(s, n) <==> FamilyUpTo(s, n, f) != []
    ensures n > 0 ==> s[n - 1].family in FamiliesUpTo(s, n)
  {
    if n > 0 {
      FamilyAbsent(s, n - 1, f);
    }
  }

  lemma {:induction false} FamilyOfPrefix(a: seq<AddrInfo>, b: seq<AddrInfo>, n: nat, f: int)
    requires n <= |a| && a <= b
    ensures FamilyUpTo(b, n, f) == FamilyUpTo(a, n, f)
  {
    if n > 0 {
      FamilyOfPrefix(a, b, n - 1, f);
    }
  }

  lemma FamilyOfSnoc(a: seq<AddrInfo>, x: AddrInfo, f: int)
    ensures OfFamily(a + [x], f) == if x.family == f then OfFamily(a, f) + [x] else OfFamily(a, f)
  {
    FamilyOfPrefix(a, a + [x], |a|, f);
  }

  lemma {:induction false} FamilyOfConcat(a: seq<AddrInfo>, b: seq<AddrInfo>, n: nat, f: int)
    requires n <= |b|
    ensures FamilyUpTo(a + b, |a| + n, f) == OfFamily(a, f) + FamilyUpTo(b, n, f)
  {
    if n == 0 {
      FamilyOfPrefix(a, a + b, |a|, f);
    } else {
      FamilyOfConcat(a, b, n - 1, f);
    }
  }

  lemma {:induction false} FamilyAfterOthers(a: seq<AddrInfo>, b: seq<AddrInfo>, n: nat, f: int)
    requires n <= |b| && OfFamily(a, f) == []
    ensures FamilyUpTo(a + b, |a| + n, f) == FamilyUpTo(b, n, f)
  {
    if n == 0 {
      FamilyOfPrefix(a, a + b, |a|, f);
    } else {
      FamilyAfterOthers(a, b, n - 1, f);
    }
  }

  lemma {:induction false} FamilyIsHomogeneous(s: seq<AddrInfo>, n: nat, f: int)
    requires n <= |s|
    ensures forall i :: 0 <= i < |FamilyUpTo(s, n, f)| ==> FamilyUpTo(s, n, f)[i].family == f
  {
    if n > 0 {
      FamilyIsHomogeneous(s, n - 1, f);
    }
  }

  lemma {:induction false} FamilyOfHomogeneous(s: seq<AddrInfo>, n: nat, f: int, g: int)
    requires n <= |s| && forall i :: 0 <= i < |s| ==> s[i].family == g
    ensures FamilyUpTo(s, n, f) == if f == g then s[..n] else []
  {
    if n > 0 {
      FamilyOfHomogeneous(s, n - 1, f, g);
    }
  }

  lemma {:induction false} FamiliesDistinct(s: seq<AddrInfo>, n: nat)
    requires n <= |s|
    ensures forall i, j :: 0 <= i < j < |FamiliesUpTo(s, n)| ==> FamiliesUpTo(s, n)[i] != FamiliesUpTo(s, n)[j]
  {
    if n > 0 {
      FamiliesDistinct(s, n - 1);
    }
  }

  /** Distinct families, and lists that hold their own family only. */
  ghost predicate Homogeneous(families: seq<int>, groups: Groups)
  {
    && (forall i, j :: 0 <= i < j < |families| ==> families[i] != families[j])
    && (forall f, i :: 0 <= i < |At(groups, f)| ==> At(groups, f)[i].family == f)
  }

  lemma GroupsHomogeneous(s: seq<AddrInfo>)
    ensures Homogeneous(Families(s), GroupsOf(s))
    ensures forall f :: At(GroupsOf(s), f) == OfFamily(s, f)
  {
    FamiliesDistinct(s, |s|);
    forall f ensures At(GroupsOf(s), f) == OfFamily(s, f) {
      FamilyAbsent(s, |s|, f);
    }
    forall f {
      FamilyIsHomogeneous(s, |s|, f);
    }
  }

  /** Each family contributes one element a row, as long as it lasts. */
  lemma {:induction false} FamilyOfGrid(families: seq<int>, groups: Groups, r: nat, n: nat, f: int)
    requires Homogeneous(families, groups) && n <= |families|
    ensures OfFamily(Grid(families, groups, r, n), f) ==
            if f in families[..n] then Take(At(groups, f), r + 1)
            else if f in families then Take(At(groups, f), r)
            else []
    decreases r, n
  {
    if n > 0 {
      var g := families[n - 1];
      FamilyOfGrid(families, groups, r, n - 1, f);
      assert families[..n] == families[..n - 1] + [g];
      assert g !in families[..n - 1] && g in families;
      if r < |At(groups, g)| {
        FamilyOfSnoc(Grid(families, groups, r, n - 1), At(groups, g)[r], f);
      }
    } else if r > 0 {
      FamilyOfGrid(families, groups, r - 1, |families|, f);
      assert families[..|families|] == families;
    }
  }

  lemma FamilyOfRounds(families: seq<int>, groups: Groups, r: nat, f: int)
    requires Homogeneous(families, groups)
    ensures OfFamily(Rounds(families, groups, r), f) == if f in families then Take(At(groups, f), r) else []
  {
    FamilyOfGrid(families, groups, r, 0, f);
  }

  lemma {:induction false} CountInFamily(s: seq<AddrInfo>, n: nat, x: AddrInfo)
    requires n <= |s|
    ensures multiset(s[..n])[x] == multiset(FamilyUpTo(s, n, x.family))[x]
  {
    if n > 0 {
      CountInFamily(s, n - 1, x);
      assert s[..n] == s[..n - 1] + [s[n - 1]];
    }
  }

  /** Lists with the same family sublists hold the same elements. */
  lemma SameFamiliesSameElements(a: seq<AddrInfo>, b: seq<AddrInfo>)
    requires forall f :: OfFamily(a, f) == OfFamily(b, f)
    ensures multiset(a) == multiset(b)
  {
    assert a[..|a|] == a && b[..|b|] == b;
    forall x: AddrInfo ensures multiset(a)[x] == multiset(b)[x] {
      CountInFamily(a, |a|, x);
      CountInFamily(b, |b|, x);
      assert OfFamily(a, x.family) == OfFamily(b, x.family);
    }
  }

  lemma {:induction false} LongestBounds(families: seq<int>, n: nat, groups: Groups)
    requires n <= |families|
    ensures forall i :: 0 <= i < n ==> |At(groups, families[i])| <= LongestUpTo(families, n, groups)
  {
    if n > 0 {
      LongestBounds(families, n - 1, groups);
    }
  }

  lemma FamilyOfRoundRobin(families: seq<int>, groups: Groups, f: int)
    requires Homogeneous(families, groups)
    ensures OfFamily(RoundRobin(families, groups), f) == if f in families then At(groups, f) else []
  {
    LongestBounds(families, |families|, groups);
    FamilyOfRounds(families, groups, Longest(families, groups), f);
  }

  lemma TailIsHomogeneous(families: seq<int>, groups: Groups, g: int, tail: seq<AddrInfo>)
    requires Homogeneous(families, groups)
    requires forall i :: 0 <= i < |tail| ==> tail[i].family == g
    ensures Homogeneous(families, groups[g := tail])
  {
    var groups' := groups[g := tail];
    forall h, i | 0 <= i < |At(groups', h)| ensures At(groups', h)[i].family == h {
      assert h != g ==> At(groups', h) == At(groups, h);
    }
  }

  lemma HeadFamily(head: seq<AddrInfo>, rest: seq<AddrInfo>, list: seq<AddrInfo>, n: nat, f: int)
    requires n <= |list| && head == list[..n] && forall i :: 0 <= i < |list| ==> list[i].family == f
    requires OfFamily(rest, f) == list[n..]
    ensures OfFamily(head + rest, f) == list
  {
    FamilyOfHomogeneous(head, n, f, f);
    FamilyOfConcat(head, rest, |rest|, f);
    assert list == list[..n] + list[n..];
  }

  lemma OtherFamily(head: seq<AddrInfo>, rest: seq<AddrInfo>, f: int, g: int)
    requires f != g && forall i :: 0 <= i < |head| ==> head[i].family == g
    ensures OfFamily(head + rest, f) == OfFamily(rest, f)
  {
    FamilyOfHomogeneous(head, |head|, f, g);
    FamilyAfterOthers(head, rest, |rest|, f);
  }

  lemma FamilyOfHeadAndRounds(families: seq<int>, groups: Groups, n: nat, f: int)
    requires Homogeneous(families, groups) && families != [] && n <= |At(groups, families[0])|
    ensures var first := At(groups, families[0]);
            OfFamily(first[..n] + RoundRobin(families, groups[families[0] := first[n..]]), f)
              == if f in families then At(groups, f) else []
  {
    var g := families[0];
    var first := At(groups, g);
    var rest := RoundRobin(families, groups[g := first[n..]]);
    TailIsHomogeneous(families, groups, g, first[n..]);
    FamilyOfRoundRobin(families, groups[g := first[n..]], f);
    if f == g {
      HeadFamily(first[..n], rest, first, n, f);
    } else {
      OtherFamily(first[..n], rest, f, g);
    }
  }

  /** The reordering keeps the order inside every family ... */
  lemma InterleavingKeepsFamilyOrder(s: seq<AddrInfo>, k: int, f: int)
    ensures OfFamily(Interleaved(s, k), f) == OfFamily(s, f)
  {
    var families, groups := Families(s), GroupsOf(s);
    GroupsHomogeneous(s);
    FamilyAbsent(s, |s|, f);
    if k > 1 && families != [] {
      FamilyOfHeadAndRounds(families, groups, Min(k - 1, |At(groups, families[0])|), f);
    } else {
      FamilyOfRoundRobin(families, groups, f);
    }
  }

  /** ... and is a permutation. */
  lemma InterleavingIsPermutation(s: seq<AddrInfo>, k: int)
    ensures multiset(Interleaved(s, k)) == multiset(s)
  {
    forall f {
      InterleavingKeepsFamilyOrder(s, k, f);
    }
    SameFamiliesSameElements(Interleaved(s, k), s);
  }

  // ------------------------------------------------------------------ fairness

  lemma {:induction false} RoundExtends(families: seq<int>, groups: Groups, r: nat, n: nat)
    requires n <= |families|
    ensures Rounds(families, groups, r) <= Grid(families, groups, r, n)
  {
    if n > 0 {
      RoundExtends(families, groups, r, n - 1);
    }
  }

  lemma {:induction false} RoundsPrefix(families: seq<int>, groups: Groups, r: nat, q: nat)
    requires r <= q
    ensures Rounds(families, groups, r) <= Rounds(families, groups, q)
  {
    if r < q {
      RoundsPrefix(families, groups, r, q - 1);
      RoundExtends(families, groups, q - 1, |families|);
    }
  }

  /** Position p falls into some round. */
  lemma {:induction false} RoundOf(families: seq<int>, groups: Groups, p: nat, q: nat) returns (r: nat)
    requires p <= |Rounds(families, groups, q)|
    ensures r <= q && |Rounds(families, groups, r)| <= p <= |Rounds(families, groups, r + 1)|
  {
    if q == 0 {
      r := 0;
    } else if p <= |Rounds(families, groups, q - 1)| {
      r := RoundOf(families, groups, p, q - 1);
    } else {
      r := q - 1;
    }
  }

  lemma PrefixBetween(low: seq<AddrInfo>, full: seq<AddrInfo>, high: seq<AddrInfo>, top: seq<AddrInfo>, p: nat)
    requires low <= full <= top && high <= top && |low| <= p <= |high| && p <= |full|
    ensures low <= full[..p] <= high
  {
    assert full[..p] == top[..p];
  }

  lemma BetweenRounds(families: seq<int>, groups: Groups, p: nat, q: nat) returns (r: nat)
    requires p <= |Rounds(families, groups, q)|
    ensures Rounds(families, groups, r) <= Rounds(families, groups, q)[..p] <= Rounds(families, groups, r + 1)
  {
    r := RoundOf(families, groups, p, q);
    var top := Max(q, r + 1);
    RoundsPrefix(families, groups, r, q);
    RoundsPrefix(families, groups, q, top);
    RoundsPrefix(families, groups, r + 1, top);
    PrefixBetween(Rounds(families, groups, r), Rounds(families, groups, q), Rounds(families, groups, r + 1),
                  Rounds(families, groups, top), p);
  }

  lemma CountMonotone(a: seq<AddrInfo>, b: seq<AddrInfo>, f: int)
    requires a <= b
    ensures |OfFamily(a, f)| <= |OfFamily(b, f)|
  {
    var rest := b[|a|..];
    assert b == a + rest;
    FamilyOfConcat(a, rest, |rest|, f);
  }

  lemma CountBetweenRounds(s: seq<AddrInfo>, prefix: seq<AddrInfo>, r: nat, f: int)
    requires Rounds(Families(s), GroupsOf(s), r) <= prefix <= Rounds(Families(s), GroupsOf(s), r + 1)
    ensures |OfFamily(prefix, f)| < |OfFamily(s, f)| ==> r <= |OfFamily(prefix, f)| <= r + 1
  {
    GroupsHomogeneous(s);
    FamilyAbsent(s, |s|, f);
    FamilyOfRounds(Families(s), GroupsOf(s), r, f);
    FamilyOfRounds(Families(s), GroupsOf(s), r + 1, f);
    CountMonotone(Rounds(Families(s), GroupsOf(s), r), prefix, f);
    CountMonotone(prefix, Rounds(Families(s), GroupsOf(s), r + 1), f);
  }

  /** In every prefix, two families that are not used up have counts that differ by at most one. */
  lemma InterleavingIsFair(s: seq<AddrInfo>, p: nat, f: int, g: int)
    requires p <= |Interleaved(s, 1)|
    ensures var prefix := Interleaved(s, 1)[..p];
            |OfFamily(prefix, f)| < |OfFamily(s, f)| && |OfFamily(prefix, g)| < |OfFamily(s, g)| ==>
              -1 <= |OfFamily(prefix, f)| - |OfFamily(prefix, g)| <= 1
  {
    var r := BetweenRounds(Families(s), GroupsOf(s), p, Longest(Families(s), GroupsOf(s)));
    CountBetweenRounds(s, Interleaved(s, 1)[..p], r, f);
    CountBetweenRounds(s, Interleaved(s, 1)[..p], r, g);
  }

  // -------------------------------------------------------- popping by family

  function KeptUpTo(s: seq<AddrInfo>, n: nat, r: int): seq<AddrInfo>
    requires n <= |s|
  {
    if n == 0 then []
    else
      var before := KeptUpTo(s, n - 1, r);
      if |FamilyUpTo(s, n - 1, s[n - 1].family)| >= r then before + [s[n - 1]] else before
  }

  /** The elements with at least r of their family before them. */
  function Kept(s: seq<AddrInfo>, r: int): seq<AddrInfo>
  {
    KeptUpTo(s, |s|, r)
  }

  function PoppedUpTo(s: seq<AddrInfo>, n: nat, r: int): seq<AddrInfo>
    requires n <= |s|
  {
    if n == 0 then []
    else
      var before := PoppedUpTo(s, n - 1, r);
      if |FamilyUpTo(s, n - 1, s[n - 1].family)| >= r then before else before + [s[n - 1]]
  }

  /** The others: the first r of each family. */
  function Popped(s: seq<AddrInfo>, r: int): seq<AddrInfo>
  {
    PoppedUpTo(s, |s|, r)
  }

  method PopAddrInfosInterleave(list: AddrList, interleave: Option<int>)
    modifies list
    ensures list.items == Kept(old(list.items), if interleave.None? then 1 else interleave.value)
  {
    var most := if interleave.None? then 1 else interleave.value;
    var s := list.items;
    var seen: map<int, int> := map[];
    var kept := [];
    for i := 0 to |s|
      invariant kept == KeptUpTo(s, i, most)
      invariant forall f :: (if f in seen then seen[f] else 0) == |FamilyUpTo(s, i, f)|
    {
      var f := s[i].family;
      var count := if f in seen then seen[f] else 0;
      if count >= most { kept := kept + [s[i]]; }
      seen := seen[f := count + 1];
    }
    list.items := kept;
  }

  lemma {:induction false} FamilyOfPopped(s: seq<AddrInfo>, n: nat, r: nat, f: int)
    requires n <= |s|
    ensures OfFamily(PoppedUpTo(s, n, r), f) == Take(FamilyUpTo(s, n, f), r)
  {
    if n > 0 {
      var x := s[n - 1];
      FamilyOfPopped(s, n - 1, r, f);
      if |FamilyUpTo(s, n - 1, x.family)| < r {
        FamilyOfSnoc(PoppedUpTo(s, n - 1, r), x, f);
      }
    }
  }

  lemma OneMoreCounted(prefix: seq<AddrInfo>, x: AddrInfo, popped: seq<AddrInfo>, kept: seq<AddrInfo>)
    requires multiset(prefix) == multiset(popped) + multiset(kept)
    ensures multiset(prefix + [x]) == multiset(popped + [x]) + multiset(kept) == multiset(popped) + multiset(kept + [x])
  {
  }

  lemma {:induction false} PoppedAndKept(s: seq<AddrInfo>, n: nat, r: int)
    requires n <= |s|
    ensures multiset(s[..n]) == multiset(PoppedUpTo(s, n, r)) + multiset(KeptUpTo(s, n, r))
  {
    if n > 0 {
      PoppedAndKept(s, n - 1, r);
      assert s[..n] == s[..n - 1] + [s[n - 1]];
      OneMoreCounted(s[..n - 1], s[n - 1], PoppedUpTo(s, n - 1, r), KeptUpTo(s, n - 1, r));
    }
  }

  lemma PoppedIsTheRest(s: seq<AddrInfo>, r: int)
    ensures multiset(Popped(s, r)) == multiset(s) - multiset(Kept(s, r))
  {
    PoppedAndKept(s, |s|, r);
    assert s[..|s|] == s;
  }

  /** The sum of min(count, r) over the first n families. */
  function Quota(families: seq<int>, n: nat, s: seq<AddrInfo>, r: nat): nat
    requires n <= |families|
  {
    if n == 0 then 0 else Quota(families, n - 1, s, r) + Min(r, |OfFamily(s, families[n - 1])|)
  }

  lemma {:induction false} NoQuota(families: seq<int>, n: nat, s: seq<AddrInfo>)
    requires n <= |families|
    ensures Quota(families, n, s, 0) == 0
  {
    if n > 0 {
      NoQuota(families, n - 1, s);
    }
  }

  lemma {:induction false} GridLength(families: seq<int>, groups: Groups, s: seq<AddrInfo>, r: nat, n: nat)
    requires n <= |families| && forall f :: At(groups, f) == OfFamily(s, f)
    ensures |Grid(families, groups, r, n)| ==
            Quota(families, |families|, s, r) + Quota(families, n, s, r + 1) - Quota(families, n, s, r)
    decreases r, n
  {
    if n > 0 {
      GridLength(families, groups, s, r, n - 1);
    } else if r > 0 {
      GridLength(families, groups, s, r - 1, |families|);
    } else {
      NoQuota(families, |families|, s);
    }
  }

  /** Rows beyond the longest list add nothing. */
  lemma {:induction false} GridSaturates(families: seq<int>, groups: Groups, r: nat, n: nat)
    requires n <= |families| && r >= Longest(families, groups)
    ensures Grid(families, groups, r, n) == RoundRobin(families, groups)
    decreases r, n
  {
    if n > 0 {
      LongestBounds(families, |families|, groups);
      GridSaturates(families, groups, r, n - 1);
    } else if r > Longest(families, groups) {
      GridSaturates(families, groups, r - 1, |families|);
    }
  }

  lemma RoundsAreAPrefix(families: seq<int>, groups: Groups, r: nat)
    ensures Rounds(families, groups, r) <= RoundRobin(families, groups)
  {
    if r <= Longest(families, groups) {
      RoundsPrefix(families, groups, r, Longest(families, groups));
    } else {
      GridSaturates(families, groups, r, 0);
    }
  }

  lemma RoundsArePopped(s: seq<AddrInfo>, r: nat)
    ensures multiset(Rounds(Families(s), GroupsOf(s), r)) == multiset(Popped(s, r))
  {
    var families, groups := Families(s), GroupsOf(s);
    GroupsHomogeneous(s);
    forall f ensures OfFamily(Rounds(families, groups, r), f) == OfFamily(Popped(s, r), f) {
      FamilyAbsent(s, |s|, f);
      FamilyOfRounds(families, groups, r, f);
      FamilyOfPopped(s, |s|, r, f);
    }
    SameFamiliesSameElements(Rounds(families, groups, r), Popped(s, r));
  }

  /** The first elements of the round-robin order are, for every r, exactly what popping r a family removes. */
  lemma InterleavingStartsWithPopped(s: seq<AddrInfo>, r: nat)
    ensures var n := Quota(Families(s), |Families(s)|, s, r);
            n <= |Interleaved(s, 1)| &&
            multiset(Interleaved(s, 1)[..n]) == multiset(Popped(s, r)) == multiset(s) - multiset(Kept(s, r))
  {
    var rounds := Rounds(Families(s), GroupsOf(s), r);
    assert |rounds| == Quota(Families(s), |Families(s)|, s, r) by {
      RoundsHaveQuota(s, r);
    }
    assert rounds <= Interleaved(s, 1) by {
      RoundsAreAPrefix(Families(s), GroupsOf(s), r);
    }
    assert Interleaved(s, 1)[..|rounds|] == rounds;
    assert multiset(rounds) == multiset(Popped(s, r)) by {
      RoundsArePopped(s, r);
    }
    PoppedIsTheRest(s, r);
  }

  lemma RoundsHaveQuota(s: seq<AddrInfo>, r: nat)
    ensures |Rounds(Families(s), GroupsOf(s), r)| == Quota(Families(s), |Families(s)|, s, r)
  {
    GroupsHomogeneous(s);
    GridLength(Families(s), GroupsOf(s), s, r, 0);
  }

  // ------------------------------------------------------------- removing one

  function Without<K(==)>(s: seq<AddrInfo>, n: nat, key: AddrInfo -> K, k: K): (kept: seq<AddrInfo>)
    requires n <= |s|
    ensures |kept| <= n
    ensures |kept| == n <==> forall i :: 0 <= i < n ==> key(s[i]) != k
    ensures forall i :: 0 <= i < n && key(s[i]) != k ==> s[i] in kept
    ensures forall a :: a in kept ==> a in s && key(a) != k
  {
    if n == 0 then []
    else
      var before := Without(s, n - 1, key, k);
      if key(s[n - 1]) == k then before else before + [s[n - 1]]
  }

  /** The positions below n of those with another key. */
  ghost function Others<K>(s: seq<AddrInfo>, n: nat, key: AddrInfo -> K, k: K): seq<nat>
    requires n <= |s|
  {
    if n == 0 then []
    else if key(s[n - 1]) == k then Others(s, n - 1, key, k) else Others(s, n - 1, key, k) + [n - 1]
  }

  lemma {:induction false} OthersAscend<K>(s: seq<AddrInfo>, n: nat, key: AddrInfo -> K, k: K)
    requires n <= |s|
    ensures var at := Others(s, n, key, k);
            && (forall i, j :: 0 <= i < j < |at| ==> at[i] < at[j]) && (forall j :: 0 <= j < |at| ==> at[j] < n)
            && (forall i: nat :: i in at <==> i < n && key(s[i]) != k)
  {
    if n > 0 {
      OthersAscend(s, n - 1, key, k);
    }
  }

  lemma {:induction false} WithoutIsOthers<K>(s: seq<AddrInfo>, n: nat, key: AddrInfo -> K, k: K)
    requires n <= |s|
    ensures var kept, at := Without(s, n, key, k), Others(s, n, key, k);
            |kept| == |at| && forall j :: 0 <= j < |at| ==> at[j] < n && kept[j] == s[at[j]]
  {
    if n > 0 {
      WithoutIsOthers(s, n - 1, key, k);
    }
  }

  /** Exactly the others are kept, in their order. */
  lemma WithoutKeepsOrder<K>(s: seq<AddrInfo>, key: AddrInfo -> K, k: K) returns (at: seq<nat>)
    ensures var kept := Without(s, |s|, key, k);
            && |kept| == |at| && (forall j :: 0 <= j < |at| ==> at[j] < |s| && kept[j] == s[at[j]])
            && (forall i, j :: 0 <= i < j < |at| ==> at[i] < at[j])
            && (forall i: nat :: i in at <==> i < |s| && key(s[i]) != k)
  {
    at := Others(s, |s|, key, k);
    OthersAscend(s, |s|, key, k);
    WithoutIsOthers(s, |s|, key, k);
  }

  predicate AnyEqual<K(==)>(s: seq<AddrInfo>, key: AddrInfo -> K, k: K)
  {
    exists i :: 0 <= i < |s| && key(s[i]) == k
  }

  predicate AllParse<P(==)>(s: seq<AddrInfo>, parse: string -> Option<P>)
  {
    forall i :: 0 <= i < |s| ==> parse(s[i].address).Some?
  }

  /**
   * Remove an address, by its text or else by the parsed address. False stands for
   * the ValueError, raised exactly when the text is not found and either some
   * address does not parse or the parsed one is not found; then nothing changes.
   */
  method RemoveAddrInfos<P(==)>(list: AddrList, address: string, parse: string -> Option<P>) returns (found: bool)
    modifies list
    ensures var s := old(list.items);
            var byText, byParse := (a: AddrInfo) => a.address, (a: AddrInfo) => parse(a.address);
            if AnyEqual(s, byText, address) then found && list.items == Without(s, |s|, byText, address)
            else if parse(address).Some? && AllParse(s, parse) && AnyEqual(s, byParse, parse(address)) then
              found && list.items == Without(s, |s|, byParse, parse(address))
            else !found && list.items == s
  {
    var s := list.items;
    var byText, byParse := (a: AddrInfo) => a.address, (a: AddrInfo) => parse(a.address);
    var kept := Without(s, |s|, byText, address);
    if |kept| == |s| {
      if parse(address).None? {
        return false;
      }
      for i := 0 to |s|
        invariant forall k :: 0 <= k < i ==> parse(s[k].address).Some?
      {
        if parse(s[i].address).None? {
          return false;
        }
      }
      kept := Without(s, |s|, byParse, parse(address));
    }
    if |kept| == |s| {
      return false;
    }
    list.items := kept;
    return true;
  }
}
