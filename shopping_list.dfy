/** What the shopping-list download computes, stated independently of the
    loop that computes it: one entry per distinct ingredient name, in the
    order the names are first met, carrying the sum of the amounts of every
    line with that name and the measurement unit of the first such line. */
module ShoppingList {

  /** One ingredient line of a recipe (the ingredient's name, the amount the
      recipe's IngredientRecipe row gives, the ingredient's unit); also one
      entry of the consolidated list, whose keys are the same three. */
  datatype Line = Line(name: string, amount: int, measurementUnit: string)

  /** The ingredient lines of all recipes, recipe after recipe. */
  function Flatten(recipes: seq<seq<Line>>): seq<Line> {
    if recipes == [] then []
    else Flatten(recipes[..|recipes| - 1]) + recipes[|recipes| - 1]
  }

  lemma FlattenStep(recipes: seq<seq<Line>>, r: nat)
    requires r < |recipes|
    ensures Flatten(recipes[..r + 1]) == Flatten(recipes[..r]) + recipes[r]
  {
    assert recipes[..r + 1][..r] == recipes[..r];
  }

  function NamesOf(s: seq<Line>): set<string> {
    set i | 0 <= i < |s| :: s[i].name
  }

  predicate DistinctNames(c: seq<Line>) {
    forall i, j :: 0 <= i < j < |c| ==> c[i].name != c[j].name
  }

  predicate Distinct(ns: seq<string>) {
    forall i, j :: 0 <= i < j < |ns| ==> ns[i] != ns[j]
  }

  /** The sum of the amounts of all lines. */
  function Total(s: seq<Line>): int {
    if s == [] then 0 else Total(s[..|s| - 1]) + s[|s| - 1].amount
  }

  /** The sum of the amounts of the lines named `n`. */
  function SumFor(s: seq<Line>, n: string): int {
    if s == [] then 0
    else SumFor(s[..|s| - 1], n) + (if s[|s| - 1].name == n then s[|s| - 1].amount else 0)
  }

  lemma NamesOfSnoc(s: seq<Line>, l: Line)
    ensures NamesOf(s + [l]) == NamesOf(s) + {l.name}
  {
    var s2 := s + [l];
    forall n | n in NamesOf(s2) ensures n in NamesOf(s) + {l.name} {
      var i :| 0 <= i < |s2| && s2[i].name == n;
      if i < |s| { assert s[i].name == n; }
    }
    forall n | n in NamesOf(s) ensures n in NamesOf(s2) {
      var i :| 0 <= i < |s| && s[i].name == n;
      assert s2[i].name == n;
    }
    assert s2[|s|].name == l.name;
  }

  /** The distinct names of `s` in the order they first occur. */
  function FirstSeen(s: seq<Line>): (ns: seq<string>)
    ensures Distinct(ns)
    ensures forall n :: n in ns <==> n in NamesOf(s)
    ensures |ns| <= |s|
  {
    if s == [] then []
    else
      var front, l := s[..|s| - 1], s[|s| - 1];
      assert s == front + [l];
      NamesOfSnoc(front, l);
      var ns := FirstSeen(front);
      if l.name in ns then ns else ns + [l.name]
  }

  /** The position of the first line named `n`, or |s| when there is none. */
  function FirstPos(s: seq<Line>, n: string): (k: nat)
    ensures k <= |s|
    ensures k < |s| ==> s[k].name == n
    ensures forall j :: 0 <= j < k ==> s[j].name != n
    ensures k < |s| <==> n in NamesOf(s)
  {
    if s == [] then 0
    else if s[0].name == n then 0
    else
      var k := 1 + FirstPos(s[1..], n);
      assert forall j :: 1 <= j < k ==> s[j] == s[1..][j - 1];
      k
  }

  /** The consolidated shopping list of the lines `s`. */
  function Consolidated(s: seq<Line>): (c: seq<Line>)
    ensures |c| == |FirstSeen(s)|
    ensures forall i :: 0 <= i < |c| ==> c[i].name == FirstSeen(s)[i]
  {
    var ns := FirstSeen(s);
    seq(|ns|, i requires 0 <= i < |ns| =>
      Line(ns[i], SumFor(s, ns[i]), s[FirstPos(s, ns[i])].measurementUnit))
  }

  /** The source's merge step: add the line's amount to EVERY entry of that
      name (its inner loop has no `break`). */
  function AddTo(c: seq<Line>, l: Line): (r: seq<Line>)
    ensures |r| == |c|
  {
    seq(|c|, k requires 0 <= k < |c| =>
      if c[k].name == l.name then c[k].(amount := c[k].amount + l.amount) else c[k])
  }

  // ---------------------------------------------------------------------
  // Properties of the consolidated list

  /** Entry `i` of the list is named after the i-th distinct name, sums every
      line of that name, and takes its unit from the first line of that name. */
  lemma EntryMeaning(s: seq<Line>, i: nat)
    requires i < |Consolidated(s)|
    ensures var e := Consolidated(s)[i];
      && e.name in NamesOf(s)
      && e.amount == SumFor(s, e.name)
      && exists k :: 0 <= k < |s| && s[k].name == e.name && e.measurementUnit == s[k].measurementUnit
                     && forall j :: 0 <= j < k ==> s[j].name != e.name
  {
    var e := Consolidated(s)[i];
    var k := FirstPos(s, e.name);
    assert k < |s| && s[k].name == e.name && e.measurementUnit == s[k].measurementUnit;
  }

  /** Entry names are pairwise distinct and are exactly the input's names. */
  lemma NamesDistinctAndComplete(s: seq<Line>)
    ensures DistinctNames(Consolidated(s))
    ensures NamesOf(Consolidated(s)) == NamesOf(s)
  {
    var c, ns := Consolidated(s), FirstSeen(s);
    forall n | n in NamesOf(c) ensures n in NamesOf(s) {
      var i :| 0 <= i < |c| && c[i].name == n;
      assert ns[i] == n;
    }
    forall n | n in NamesOf(s) ensures n in NamesOf(c) {
      var i :| 0 <= i < |ns| && ns[i] == n;
      assert c[i].name == n;
    }
  }

  /** Under distinct names, the merge step changes exactly the one entry that
      matches, so the loop without `break` adds each amount once. */
  lemma AddToChangesOne(c: seq<Line>, l: Line, k: nat)
    requires DistinctNames(c)
    requires k < |c| && c[k].name == l.name
    ensures AddTo(c, l) == c[k := c[k].(amount := c[k].amount + l.amount)]
  {
  }

  /** A line whose name is absent leaves every entry as it was. */
  lemma AddToAbsent(c: seq<Line>, l: Line)
    requires l.name !in NamesOf(c)
    ensures AddTo(c, l) == c
  {
    forall k | 0 <= k < |c| ensures AddTo(c, l)[k] == c[k] {
      assert c[k].name in NamesOf(c);
    }
  }

  /** Appending a line to a sequence keeps the first position of every name already present. */
  lemma FirstPosSnoc(s: seq<Line>, l: Line, n: string)
    ensures n in NamesOf(s) ==> FirstPos(s + [l], n) == FirstPos(s, n)
    ensures n !in NamesOf(s) && n == l.name ==> FirstPos(s + [l], n) == |s|
  {
    var s2 := s + [l];
    assert forall j :: 0 <= j < |s| ==> s2[j] == s[j];
    assert s2[|s|] == l;
  }

  /** Appending a line keeps the first position of every name already present. */
  lemma FirstPosKept(s: seq<Line>, l: Line)
    ensures forall n :: n in NamesOf(s) ==> FirstPos(s + [l], n) == FirstPos(s, n)
  {
    forall n | n in NamesOf(s) ensures FirstPos(s + [l], n) == FirstPos(s, n) {
      FirstPosSnoc(s, l, n);
    }
  }

  /** A line of a name already met adds its amount to that name's entry. */
  lemma ConsolidatedSnocPresent(s: seq<Line>, l: Line)
    requires l.name in NamesOf(s)
    ensures Consolidated(s + [l]) == AddTo(Consolidated(s), l)
  {
    var s2 := s + [l];
    assert s2[..|s2| - 1] == s;
    var ns := FirstSeen(s);
    var c, c2 := Consolidated(s), Consolidated(s2);
    FirstPosKept(s, l);
    assert FirstSeen(s2) == ns;
    forall i | 0 <= i < |c| ensures c2[i] == AddTo(c, l)[i] {
      assert ns[i] in NamesOf(s);
    }
  }

  /** A line of a new name becomes a new last entry of its own. */
  lemma ConsolidatedSnocAbsent(s: seq<Line>, l: Line)
    requires l.name !in NamesOf(s)
    ensures Consolidated(s + [l]) == Consolidated(s) + [l]
  {
    var s2 := s + [l];
    assert s2[..|s2| - 1] == s;
    var ns := FirstSeen(s);
    var c, c2 := Consolidated(s), Consolidated(s2);
    FirstPosKept(s, l);
    assert FirstSeen(s2) == ns + [l.name];
    FirstPosSnoc(s, l, l.name);
    forall i | 0 <= i < |c2| ensures c2[i] == (c + [l])[i] {
      if i < |c| {
        assert ns[i] in NamesOf(s);
        assert ns[i] != l.name;
      } else {
        assert SumFor(s, l.name) == 0 by { SumForAbsent(s, l.name); }
      }
    }
  }

  /** The one-line step: consolidating one more line either adds its amount to
      the entry of that name or appends it as a new last entry. */
  lemma ConsolidatedSnoc(s: seq<Line>, l: Line)
    ensures Consolidated(s + [l]) ==
      if l.name in NamesOf(s) then AddTo(Consolidated(s), l) else Consolidated(s) + [l]
  {
    if l.name in NamesOf(s) {
      ConsolidatedSnocPresent(s, l);
    } else {
      ConsolidatedSnocAbsent(s, l);
    }
  }

  /** The one-line step read off the list itself: its names decide whether the
      line is added to an entry or appended. */
  lemma MergeStep(s: seq<Line>, l: Line)
    ensures var c := Consolidated(s);
      Consolidated(s + [l]) == if l.name in NamesOf(c) then AddTo(c, l) else c + [l]
  {
    NamesDistinctAndComplete(s);
    ConsolidatedSnoc(s, l);
  }

  lemma {:induction false} SumForAbsent(s: seq<Line>, n: string)
    requires n !in NamesOf(s)
    ensures SumFor(s, n) == 0
  {
    if s != [] {
      var front := s[..|s| - 1];
      assert s == front + [s[|s| - 1]];
      NamesOfSnoc(front, s[|s| - 1]);
      SumForAbsent(front, n);
    }
  }

  lemma {:induction false} TotalAddTo(c: seq<Line>, l: Line)
    requires DistinctNames(c) && l.name in NamesOf(c)
    ensures Total(AddTo(c, l)) == Total(c) + l.amount
  {
    var front, x := c[..|c| - 1], c[|c| - 1];
    assert c == front + [x];
    NamesOfSnoc(front, x);
    var r := AddTo(c, l);
    assert r[..|r| - 1] == AddTo(front, l);
    assert Total(r) == Total(AddTo(front, l)) + r[|r| - 1].amount;
    if x.name == l.name {
      assert forall i :: 0 <= i < |front| ==> front[i].name == c[i].name != l.name;
      AddToAbsent(front, l);
    } else {
      TotalAddTo(front, l);
    }
  }

  /** Conservation: the amounts of the list add up to the amounts of the input. */
  lemma {:induction false} ConservesTotal(s: seq<Line>)
    ensures Total(Consolidated(s)) == Total(s)
  {
    if s != [] {
      var front, l := s[..|s| - 1], s[|s| - 1];
      assert s == front + [l];
      assert Total(s) == Total(front) + l.amount;
      ConservesTotal(front);
      ConsolidatedSnoc(front, l);
      var c := Consolidated(front);
      if l.name in NamesOf(front) {
        NamesDistinctAndComplete(front);
        TotalAddTo(c, l);
        assert Consolidated(s) == AddTo(c, l);
      } else {
        assert (c + [l])[..|c|] == c;
        assert Consolidated(s) == c + [l];
        assert Total(c + [l]) == Total(c) + l.amount;
      }
    }
  }

  /** Consolidating more lines never removes, reorders, renames or re-units an
      entry already present: later lines change amounts or append at the end. */
  lemma {:induction false} ConsolidatedExtends(s: seq<Line>, t: seq<Line>)
    ensures |Consolidated(s)| <= |Consolidated(s + t)|
    ensures forall i :: 0 <= i < |Consolidated(s)| ==>
      Consolidated(s + t)[i].name == Consolidated(s)[i].name &&
      Consolidated(s + t)[i].measurementUnit == Consolidated(s)[i].measurementUnit
    decreases |t|
  {
    if t == [] {
      assert s + t == s;
    } else {
      var front, l := t[..|t| - 1], t[|t| - 1];
      assert s + t == (s + front) + [l];
      ConsolidatedExtends(s, front);
      ConsolidatedSnoc(s + front, l);
      var c0, c, c2 := Consolidated(s), Consolidated(s + front), Consolidated(s + t);
      forall i | 0 <= i < |c0|
        ensures c2[i].name == c0[i].name && c2[i].measurementUnit == c0[i].measurementUnit
      {
        assert c[i].name == c0[i].name && c[i].measurementUnit == c0[i].measurementUnit;
        assert c2[i].name == c[i].name && c2[i].measurementUnit == c[i].measurementUnit;
      }
    }
  }

  /** First-seen order: an earlier entry's name first occurs before a later one's. */
  lemma {:induction false} FirstSeenOrder(s: seq<Line>)
    ensures forall i, j :: 0 <= i < j < |FirstSeen(s)| ==>
      FirstPos(s, FirstSeen(s)[i]) < FirstPos(s, FirstSeen(s)[j])
  {
    if s != [] {
      var front, l := s[..|s| - 1], s[|s| - 1];
      assert s == front + [l];
      FirstSeenOrder(front);
      var ns := FirstSeen(front);
      forall n | n in ns ensures FirstPos(s, n) == FirstPos(front, n) < |front| {
        FirstPosSnoc(front, l, n);
      }
      if l.name !in ns {
        FirstPosSnoc(front, l, l.name);
      }
    }
  }

  /** A list whose names are already distinct is its own consolidation. */
  lemma {:induction false} ConsolidatedOfDistinct(c: seq<Line>)
    requires DistinctNames(c)
    ensures Consolidated(c) == c
  {
    if c != [] {
      var front, l := c[..|c| - 1], c[|c| - 1];
      assert c == front + [l];
      ConsolidatedOfDistinct(front);
      assert forall i :: 0 <= i < |front| ==> front[i].name == c[i].name != l.name;
      assert l.name !in NamesOf(front);
      ConsolidatedSnocAbsent(front, l);
    }
  }

  /** Re-consolidating a consolidated list changes nothing. */
  lemma Idempotent(s: seq<Line>)
    ensures Consolidated(Consolidated(s)) == Consolidated(s)
  {
    NamesDistinctAndComplete(s);
    ConsolidatedOfDistinct(Consolidated(s));
  }

  /** The list has one entry per distinct name, never more entries than lines. */
  lemma {:induction false} CountsDistinctNames(s: seq<Line>)
    ensures |Consolidated(s)| == |NamesOf(s)| <= |s|
  {
    if s != [] {
      var front, l := s[..|s| - 1], s[|s| - 1];
      assert s == front + [l];
      CountsDistinctNames(front);
      NamesOfSnoc(front, l);
      assert s[..|s| - 1] == front;
      if l.name in NamesOf(front) {
        assert NamesOf(s) == NamesOf(front);
        assert FirstSeen(s) == FirstSeen(front);
      } else {
        assert |NamesOf(s)| == |NamesOf(front)| + 1;
        assert FirstSeen(s) == FirstSeen(front) + [l.name];
      }
    }
  }

  lemma {:induction false} SumForAppend(a: seq<Line>, b: seq<Line>, n: string)
    ensures SumFor(a + b, n) == SumFor(a, n) + SumFor(b, n)
    decreases |b|
  {
    if b == [] {
      assert a + b == a;
    } else {
      var front := b[..|b| - 1];
      assert (a + b)[..|a + b| - 1] == a + front;
      var x := b[|b| - 1];
      assert (a + b)[|a + b| - 1] == x;
      SumForAppend(a, front, n);
      calc {
        SumFor(a + b, n);
        SumFor(a + front, n) + (if x.name == n then x.amount else 0);
        SumFor(a, n) + SumFor(front, n) + (if x.name == n then x.amount else 0);
        SumFor(a, n) + SumFor(b, n);
      }
    }
  }

  lemma FlattenPair(r1: seq<Line>, r2: seq<Line>)
    ensures Flatten([r1, r2]) == r1 + r2
  {
    assert [r1, r2][..1] == [r1];
    assert [r1][..0] == [];
    assert Flatten([r1]) == r1;
  }

  /** Swapping two recipes may change the order of the list, never its names
      nor the amount downloaded for any name. */
  lemma SwapRecipes(r1: seq<Line>, r2: seq<Line>)
    ensures NamesOf(Consolidated(Flatten([r1, r2]))) == NamesOf(Consolidated(Flatten([r2, r1])))
    ensures forall n :: SumFor(Flatten([r1, r2]), n) == SumFor(Flatten([r2, r1]), n)
    ensures var c1, c2 := Consolidated(Flatten([r1, r2])), Consolidated(Flatten([r2, r1]));
      forall i, j | 0 <= i < |c1| && 0 <= j < |c2| && c1[i].name == c2[j].name :: c1[i].amount == c2[j].amount
  {
    FlattenPair(r1, r2);
    FlattenPair(r2, r1);
    assert Flatten([r1, r2]) == r1 + r2 && Flatten([r2, r1]) == r2 + r1;
    NamesDistinctAndComplete(r1 + r2);
    NamesDistinctAndComplete(r2 + r1);
    assert NamesOf(r1 + r2) == NamesOf(r2 + r1) by {
      forall n | n in NamesOf(r1 + r2) ensures n in NamesOf(r2 + r1) {
        var i :| 0 <= i < |r1 + r2| && (r1 + r2)[i].name == n;
        if i < |r1| { assert (r2 + r1)[|r2| + i] == r1[i]; } else { assert (r2 + r1)[i - |r1|] == r2[i - |r1|]; }
      }
      forall n | n in NamesOf(r2 + r1) ensures n in NamesOf(r1 + r2) {
        var i :| 0 <= i < |r2 + r1| && (r2 + r1)[i].name == n;
        if i < |r2| { assert (r1 + r2)[|r1| + i] == r2[i]; } else { assert (r1 + r2)[i - |r2|] == r1[i - |r2|]; }
      }
    }
    forall n ensures SumFor(r1 + r2, n) == SumFor(r2 + r1, n) {
      SumForAppend(r1, r2, n);
      SumForAppend(r2, r1, n);
    }
    var c1, c2 := Consolidated(r1 + r2), Consolidated(r2 + r1);
    forall i, j | 0 <= i < |c1| && 0 <= j < |c2| && c1[i].name == c2[j].name
      ensures c1[i].amount == c2[j].amount
    {
      EntryMeaning(r1 + r2, i);
      EntryMeaning(r2 + r1, j);
    }
  }

  /** Recipes without ingredient lines, or no recipes at all, give an empty list. */
  lemma {:induction false} NoLinesNoEntries(recipes: seq<seq<Line>>)
    requires forall i :: 0 <= i < |recipes| ==> recipes[i] == []
    ensures Consolidated(Flatten(recipes)) == []
  {
    if recipes != [] {
      NoLinesNoEntries(recipes[..|recipes| - 1]);
    }
  }

  // ---------------------------------------------------------------------
  // Worked cases

  /** Three lines whose first and last share a name: those two merge and the
      line in between keeps its place. */
  lemma SharedFirstLine(a: Line, b: Line, c: Line)
    requires a.name == c.name != b.name
    ensures Consolidated([a, b] + [c]) == [a.(amount := a.amount + c.amount), b]
  {
    var first := [a, b];
    assert DistinctNames(first);
    ConsolidatedOfDistinct(first);
    assert c.name in NamesOf(first) by { assert first[0].name == c.name; }
    ConsolidatedSnoc(first, c);
    AddToChangesOne(first, c, 0);
  }

  /** Two recipes sharing flour: the flour amounts are summed, salt follows. */
  lemma FlourAndSalt()
    ensures Consolidated(Flatten([[Line("Flour", 200, "g"), Line("Salt", 5, "g")], [Line("Flour", 100, "g")]]))
         == [Line("Flour", 300, "g"), Line("Salt", 5, "g")]
  {
    var flour, salt, more := Line("Flour", 200, "g"), Line("Salt", 5, "g"), Line("Flour", 100, "g");
    FlattenPair([flour, salt], [more]);
    SharedFirstLine(flour, salt, more);
  }

  /** Two lines of one recipe with the same name merge into one entry. */
  lemma SugarWithinOneRecipe()
    ensures Consolidated(Flatten([[Line("Sugar", 50, "g"), Line("Sugar", 30, "g")]])) == [Line("Sugar", 80, "g")]
  {
    var a, b := Line("Sugar", 50, "g"), Line("Sugar", 30, "g");
    var rs := [[a, b]];
    assert rs[..0] == [];
    assert Flatten(rs) == [a, b];
    ConsolidatedSnoc([], a);
    assert NamesOf([]) == {};
    NamesOfSnoc([], a);
    assert [] + [a] == [a] && [a] + [b] == [a, b];
    ConsolidatedSnoc([a], b);
    assert AddTo([a], b) == [Line("Sugar", 80, "g")];
  }
}
