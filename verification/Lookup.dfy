/** How a name picks one of a list: the first exact match, or the only loose one. */
module Lookup {
  import opened Common

  /** The position of the first element with the property. */
  function FirstWhere<T>(items: seq<T>, p: T -> bool): (r: Option<nat>)
    ensures r.Some? ==> r.value < |items| && p(items[r.value])
  {
    if |items| == 0 then None
    else if p(items[0]) then Some(0)
    else
      match FirstWhere(items[1..], p)
      case None => None
      case Some(i) => Some(i + 1)
  }

  function CountWhere<T>(items: seq<T>, p: T -> bool): nat {
    if |items| == 0 then 0 else (if p(items[0]) then 1 else 0) + CountWhere(items[1..], p)
  }

  function ExactOrOnly<T>(items: seq<T>, exact: T -> bool, loose: T -> bool): Option<nat> {
    if FirstWhere(items, exact).Some? then FirstWhere(items, exact)
    else if CountWhere(items, loose) == 1 then FirstWhere(items, loose)
    else None
  }

  lemma {:induction false} FirstWhereIff<T>(items: seq<T>, p: T -> bool, i: nat)
    requires i < |items|
    ensures FirstWhere(items, p) == Some(i) <==> p(items[i]) && forall j | 0 <= j < i :: !p(items[j])
  {
    if i > 0 {
      FirstWhereIff(items[1..], p, i - 1);
      if forall j | 0 <= j < i :: !p(items[j]) {
        assert forall j | 0 <= j < i - 1 :: items[1..][j] == items[j + 1];
      } else if !p(items[0]) {
        var j :| 0 <= j < i && p(items[j]);
        assert items[1..][j - 1] == items[j];
      }
    }
  }

  lemma {:induction false} FirstWhereNone<T>(items: seq<T>, p: T -> bool)
    ensures FirstWhere(items, p).None? <==> forall j | 0 <= j < |items| :: !p(items[j])
    ensures FirstWhere(items, p).None? <==> CountWhere(items, p) == 0
  {
    if |items| > 0 {
      FirstWhereNone(items[1..], p);
      if FirstWhere(items, p).None? {
        forall j | 0 <= j < |items| ensures !p(items[j]) {
          assert j > 0 ==> items[1..][j - 1] == items[j];
        }
      }
    }
  }

  lemma {:induction false} CountOfTwo<T>(items: seq<T>, p: T -> bool, i: nat, j: nat)
    requires i < j < |items| && p(items[i]) && p(items[j])
    ensures CountWhere(items, p) >= 2
  {
    if i > 0 {
      CountOfTwo(items[1..], p, i - 1, j - 1);
    } else {
      assert items[1..][j - 1] == items[j];
      FirstWhereNone(items[1..], p);
    }
  }

  lemma {:induction false} CountOfOne<T>(items: seq<T>, p: T -> bool, i: nat)
    requires i < |items| && p(items[i])
    requires forall j | 0 <= j < |items| && j != i :: !p(items[j])
    ensures CountWhere(items, p) == 1
  {
    if i > 0 {
      assert forall j | 0 <= j < |items| - 1 :: items[1..][j] == items[j + 1];
      CountOfOne(items[1..], p, i - 1);
    } else {
      assert forall j | 0 <= j < |items| - 1 :: items[1..][j] == items[j + 1];
      FirstWhereNone(items[1..], p);
    }
  }

  /** Two candidates are as good as none. */
  lemma AmbiguousPicksNothing<T>(items: seq<T>, exact: T -> bool, loose: T -> bool, i: nat, j: nat)
    requires i < j < |items| && loose(items[i]) && loose(items[j])
    requires forall k | 0 <= k < |items| :: !exact(items[k])
    ensures ExactOrOnly(items, exact, loose) == None
  {
    CountOfTwo(items, loose, i, j);
    FirstWhereNone(items, exact);
  }

  predicate OnlyAt<T>(items: seq<T>, p: T -> bool, i: nat)
    requires i < |items|
  {
    p(items[i]) && forall j | 0 <= j < |items| && j != i :: !p(items[j])
  }

  predicate FirstAt<T>(items: seq<T>, p: T -> bool, i: nat)
    requires i < |items|
  {
    p(items[i]) && forall j | 0 <= j < i :: !p(items[j])
  }

  predicate Nowhere<T>(items: seq<T>, p: T -> bool) {
    forall j | 0 <= j < |items| :: !p(items[j])
  }

  /** Exactly which element a name picks. */
  lemma PicksIff<T>(items: seq<T>, exact: T -> bool, loose: T -> bool, i: nat)
    requires i < |items|
    ensures ExactOrOnly(items, exact, loose) == Some(i)
       <==> FirstAt(items, exact, i) || (Nowhere(items, exact) && OnlyAt(items, loose, i))
  {
    FirstWhereIff(items, exact, i);
    FirstWhereNone(items, exact);
    FirstWhereIff(items, loose, i);
    if Nowhere(items, exact) {
      if OnlyAt(items, loose, i) {
        CountOfOne(items, loose, i);
      } else if loose(items[i]) {
        var j :| 0 <= j < |items| && j != i && loose(items[j]);
        CountOfTwo(items, loose, Min(i, j), Max(i, j));
      }
    }
  }
}
