/** _unique_labels and run_items of the menu: every entry stays reachable by its label. */
module Menu {
  import opened Common
  import opened Text

  /** A menu entry: its label and its action. */
  type Item<A> = (string, A)

  ghost function Labels<A(!new)>(items: seq<Item<A>>): set<string> {
    set i | 0 <= i < |items| :: items[i].0
  }

  /** The entry at i kept its action and got the label that is fresh next to those before it. */
  ghost predicate Placed<A(!new)>(items: seq<Item<A>>, unique: seq<Item<A>>, i: nat)
    requires i < |unique| <= |items|
  {
    unique[i].1 == items[i].1 && IsFresh(Labels(unique[..i]), items[i].0, unique[i].0)
  }

  /** Position by position; the result is determined by the input. */
  ghost predicate IsUniqueForm<A(!new)>(items: seq<Item<A>>, unique: seq<Item<A>>) {
    |unique| <= |items| && forall i | 0 <= i < |unique| :: Placed(items, unique, i)
  }

  /** counts[label] is a suffix up to which every number has been used. */
  ghost predicate CountsCovered(counts: map<string, nat>, seen: set<string>) {
    forall l, m: nat | l in counts && 2 <= m <= counts[l] :: Suffixed(l, m) in seen
  }

  ghost predicate TakenBelow(seen: set<string>, caption: string, n: nat) {
    forall m: nat | 2 <= m < n :: Suffixed(caption, m) in seen
  }

  /** The inner loop: the suffix counts upward to the first candidate nobody has. */
  method FirstFreeSuffix(seen: set<string>, caption: string, start: nat) returns (n: nat, candidate: string)
    requires start >= 2 && TakenBelow(seen, caption, start)
    ensures IsFirstFree(seen, caption, n) && candidate == Suffixed(caption, n)
  {
    n := start;
    candidate := Suffixed(caption, n);
    while candidate in seen
      invariant n >= 2 && candidate == Suffixed(caption, n) && TakenBelow(seen, caption, n)
      decreases Blocking(seen, caption, n)
    {
      SkippingShrinksBlocking(seen, caption, n);
      n := n + 1;
      candidate := Suffixed(caption, n);
    }
  }

  lemma PlacedStays<A(!new)>(items: seq<Item<A>>, unique: seq<Item<A>>, next: Item<A>)
    requires IsUniqueForm(items, unique) && |unique| < |items|
    requires next.1 == items[|unique|].1 && IsFresh(Labels(unique), items[|unique|].0, next.0)
    ensures IsUniqueForm(items, unique + [next])
    ensures Labels(unique + [next]) == Labels(unique) + {next.0}
  {
    var longer := unique + [next];
    forall i | 0 <= i < |longer| ensures Placed(items, longer, i) {
      assert longer[..i] == unique[..i];
      assert i < |unique| ==> Placed(items, unique, i);
      assert unique[..|unique|] == unique;
    }
    assert forall l | l in Labels(longer) :: l in Labels(unique) + {next.0};
    forall l | l in Labels(unique) + {next.0} ensures l in Labels(longer) {
      if l == next.0 {
        assert longer[|unique|].0 == l;
      } else {
        var i :| 0 <= i < |unique| && unique[i].0 == l;
        assert longer[i].0 == l;
      }
    }
  }

  /** _unique_labels, with the set of labels seen and the counts that shorten the search. */
  method UniqueLabels<A(!new)>(items: seq<Item<A>>) returns (unique: seq<Item<A>>)
    ensures |unique| == |items| && IsUniqueForm(items, unique)
  {
    var seen: set<string> := {};
    var counts: map<string, nat> := map[];
    unique := [];
    for k := 0 to |items|
      invariant |unique| == k && seen == Labels(unique)
      invariant IsUniqueForm(items, unique) && CountsCovered(counts, seen)
    {
      var caption, action := items[k].0, items[k].1;
      if caption !in seen {
        PlacedStays(items, unique, (caption, action));
        seen := seen + {caption};
        unique := unique + [(caption, action)];
        continue;
      }
      var used := if caption in counts then counts[caption] else 1;
      assert TakenBelow(seen, caption, used + 1);
      var n, candidate := FirstFreeSuffix(seen, caption, Max(used + 1, 2));
      CoveredAfter(counts, seen, caption, n);
      counts := counts[caption := n];
      PlacedStays(items, unique, (candidate, action));
      seen := seen + {candidate};
      unique := unique + [(candidate, action)];
    }
  }

  lemma CoveredAfter(counts: map<string, nat>, seen: set<string>, caption: string, n: nat)
    requires CountsCovered(counts, seen) && IsFirstFree(seen, caption, n)
    ensures CountsCovered(counts[caption := n], seen + {Suffixed(caption, n)})
  {}

  /** The shortcut through the counts changes nothing: any two results of the definition agree. */
  lemma {:induction false} UniqueFormIsUnique<A(!new)>(items: seq<Item<A>>, u: seq<Item<A>>, v: seq<Item<A>>)
    requires IsUniqueForm(items, u) && IsUniqueForm(items, v) && |u| == |v|
    ensures u == v
  {
    if |u| > 0 {
      var k := |u| - 1;
      FormOfPrefix(items, u);
      FormOfPrefix(items, v);
      UniqueFormIsUnique(items, u[..k], v[..k]);
      assert Placed(items, u, k) && Placed(items, v, k);
      FreshIsUnique(Labels(u[..k]), items[k].0, u[k].0, v[k].0);
      assert u == u[..k] + [u[k]] && v == v[..k] + [v[k]];
      assert u[k] == (u[k].0, u[k].1) && v[k] == (v[k].0, v[k].1);
    }
  }

  lemma FormOfPrefix<A(!new)>(items: seq<Item<A>>, u: seq<Item<A>>)
    requires IsUniqueForm(items, u) && |u| > 0
    ensures IsUniqueForm(items, u[..|u| - 1])
  {
    var front := u[..|u| - 1];
    forall i | 0 <= i < |front| ensures Placed(items, front, i) {
      assert Placed(items, u, i) && front[..i] == u[..i];
    }
  }

  /** The labels are pairwise distinct, and each is the original or the original with a suffix from (2) on. */
  lemma LabelsAreDistinct<A(!new)>(items: seq<Item<A>>, unique: seq<Item<A>>, i: nat, j: nat)
    requires IsUniqueForm(items, unique) && i < j < |unique|
    ensures unique[i].0 != unique[j].0
    ensures unique[j].0 == items[j].0 || exists n: nat :: n >= 2 && unique[j].0 == Suffixed(items[j].0, n)
  {
    assert Placed(items, unique, j);
    FreshIsUnique(Labels(unique[..j]), items[j].0, unique[j].0, unique[j].0);
    assert unique[..j][i] == unique[i];
  }

  // ── Choosing ───────────────────────────────────────────────────────────────

  /** The entry that runs: the first whose label, stripped, is the selected line. */
  function Chosen<A>(items: seq<Item<A>>, selected: string): (r: Option<nat>)
    ensures r.Some? ==> r.value < |items|
  {
    if selected == "" || |items| == 0 then None
    else if Trim(items[0].0) == selected then Some(0)
    else
      match Chosen(items[1..], selected)
      case None => None
      case Some(i) => Some(i + 1)
  }

  /** run_items, from the line the menu program returned to the entry whose action runs. */
  method RunItems<A>(items: seq<Item<A>>, selected: string) returns (r: Option<nat>)
    ensures r == Chosen(items, selected)
  {
    if |items| == 0 || selected == "" { return None; }
    var i := 0;
    assert items[0..] == items;
    while i < |items|
      invariant i <= |items|
      invariant Chosen(items, selected) == Shifted(Chosen(items[i..], selected), i)
    {
      if Trim(items[i].0) == selected { return Some(i); }
      assert items[i..][1..] == items[i + 1..];
      i := i + 1;
    }
    return None;
  }

  function Shifted(r: Option<nat>, offset: nat): Option<nat> {
    match r
    case None => None
    case Some(i) => Some(i + offset)
  }

  lemma {:induction false} ChosenIs<A>(items: seq<Item<A>>, selected: string, i: nat)
    requires selected != "" && i < |items|
    ensures Chosen(items, selected) == Some(i)
       <==> Trim(items[i].0) == selected && forall j | 0 <= j < i :: Trim(items[j].0) != selected
  {
    if i > 0 {
      ChosenIs(items[1..], selected, i - 1);
      assert forall j | 0 <= j < i - 1 :: items[1..][j] == items[j + 1];
      if forall j | 0 <= j < i - 1 :: Trim(items[1..][j].0) != selected {
        forall j | 1 <= j < i ensures Trim(items[j].0) != selected {
          assert items[1..][j - 1] == items[j];
        }
      }
    }
  }

  /** Selecting any entry, whose line comes back stripped, runs that entry. */
  ghost predicate EachRunsItsOwn<A(!new)>(items: seq<Item<A>>) {
    forall i: nat | i < |items| :: Chosen(items, Trim(items[i].0)) == Some(i)
  }

  ghost predicate StrippedDistinct<A(!new)>(items: seq<Item<A>>) {
    && (forall i: nat | i < |items| :: Trim(items[i].0) != "")
    && (forall i: nat, j: nat | i < j < |items| :: Trim(items[i].0) != Trim(items[j].0))
  }

  /** Distinct labels are not enough: they have to be distinct, and not blank, once stripped. */
  lemma EachRunsItsOwnIff<A(!new)>(items: seq<Item<A>>)
    ensures EachRunsItsOwn(items) <==> StrippedDistinct(items)
  {
    if StrippedDistinct(items) {
      forall i: nat | i < |items| ensures Chosen(items, Trim(items[i].0)) == Some(i) {
        ChosenIs(items, Trim(items[i].0), i);
      }
    }
    if EachRunsItsOwn(items) {
      forall i: nat | i < |items| ensures Trim(items[i].0) != "" {
        assert Chosen(items, Trim(items[i].0)) == Some(i);
      }
      forall i: nat, j: nat | i < j < |items| ensures Trim(items[i].0) != Trim(items[j].0) {
        assert Chosen(items, Trim(items[j].0)) == Some(j);
        ChosenIs(items, Trim(items[j].0), j);
      }
    }
  }

  predicate Stripped(caption: string) {
    caption != "" && Trim(caption) == caption
  }

  lemma SuffixedStaysStripped(caption: string, n: nat)
    requires Stripped(caption)
    ensures Stripped(Suffixed(caption, n))
  {
    var s := Suffixed(caption, n);
    assert s[|s| - 1] == ')';
    TrimmedEnds(caption);
    TrimKeeps(s);
  }

  lemma {:induction false} TrimRightShort(s: string)
    ensures |TrimRight(s)| <= |s| && (TrimRight(s) != "" ==> TrimRight(s)[0] == s[0])
  {
    if s != "" && IsSpace(s[|s| - 1]) {
      TrimRightShort(s[..|s| - 1]);
    }
  }

  lemma TrimmedEnds(s: string)
    requires Stripped(s)
    ensures !IsSpace(s[0]) && !IsSpace(s[|s| - 1])
  {
    TrimRightShort(TrimLeft(s));
  }

  /** A menu whose labels carry no surrounding whitespace runs what was selected, repeats and all. */
  lemma StrippedMenuRunsItsOwn<A(!new)>(items: seq<Item<A>>, unique: seq<Item<A>>)
    requires |unique| == |items| && IsUniqueForm(items, unique)
    requires forall i | 0 <= i < |items| :: Stripped(items[i].0)
    ensures EachRunsItsOwn(unique)
  {
    forall j: nat | j < |unique| ensures Stripped(unique[j].0) {
      LabelIsStripped(items, unique, j);
    }
    forall i: nat, j: nat | i < j < |unique| ensures Trim(unique[i].0) != Trim(unique[j].0) {
      LabelsAreDistinct(items, unique, i, j);
      assert Stripped(unique[i].0) && Stripped(unique[j].0);
    }
    EachRunsItsOwnIff(unique);
  }

  lemma LabelIsStripped<A(!new)>(items: seq<Item<A>>, unique: seq<Item<A>>, j: nat)
    requires IsUniqueForm(items, unique) && j < |unique| && Stripped(items[j].0)
    ensures Stripped(unique[j].0)
  {
    assert Placed(items, unique, j);
    if items[j].0 in Labels(unique[..j]) {
      var n: nat :| IsFirstFree(Labels(unique[..j]), items[j].0, n) && unique[j].0 == Suffixed(items[j].0, n);
      SuffixedStaysStripped(items[j].0, n);
    }
  }

  /** With an indented label next to a plain one the disambiguated menu still runs the wrong action. */
  lemma IndentedTwinIsUnreachable(unique: seq<Item<nat>>)
    requires unique == [("A", 0), (" A", 1)]
    ensures IsUniqueForm([("A", 0), (" A", 1)], unique)
    ensures Chosen(unique, Trim(unique[1].0)) == Some(0)
  {
    assert unique[..1][0].0 == "A";
    assert " A" !in Labels(unique[..1]) by {
      assert forall i | 0 <= i < 1 :: unique[..1][i].0 == "A";
      assert "A"[0] != " A"[0];
    }
    assert Labels(unique[..0]) == {};
    forall i | 0 <= i < 2 ensures Placed([("A", 0), (" A", 1)], unique, i) {}
    assert " A"[1..] == "A";
    TrimKeeps("A");
  }
}
