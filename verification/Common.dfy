/** Small vocabulary shared by the other modules. */
module Common {

  datatype Option<+T> = None | Some(value: T)

  function Min(a: int, b: int): int { if a <= b then a else b }

  function Max(a: int, b: int): int { if a >= b then a else b }

  /** The larger of two optional integers; None is below everything. */
  function MaxOption(a: Option<int>, b: Option<int>): Option<int>
  {
    if a.None? then b
    else if b.None? || a.value >= b.value then a
    else b
  }

  /** The last n elements of s, or all of it when it is shorter. */
  function LastN<T>(s: seq<T>, n: nat): seq<T>
  {
    if |s| <= n then s else s[|s| - n..]
  }

  /** A lookup that expects at most one row. */
  datatype Found = Nothing | One(i: nat) | Several

  /** Which of the first n elements pass the test. */
  function FindOnly<T>(xs: seq<T>, n: nat, test: T -> bool): Found
    requires n <= |xs|
  {
    if n == 0 then Nothing
    else
      var found := FindOnly(xs, n - 1, test);
      if !test(xs[n - 1]) then found else if found.Nothing? then One(n - 1) else Several
  }

  lemma {:induction false} FindOnlyFinds<T>(xs: seq<T>, n: nat, test: T -> bool)
    requires n <= |xs|
    ensures var found := FindOnly(xs, n, test);
            match found
            case Nothing => forall i :: 0 <= i < n ==> !test(xs[i])
            case One(k) => k < n && forall i :: 0 <= i < n ==> (test(xs[i]) <==> i == k)
            case Several => exists i, j :: 0 <= i < j < n && test(xs[i]) && test(xs[j])
  {
    if n > 0 {
      FindOnlyFinds(xs, n - 1, test);
      var found := FindOnly(xs, n - 1, test);
      if found.One? && test(xs[n - 1]) {
        assert test(xs[found.i]);
      }
    }
  }
}
