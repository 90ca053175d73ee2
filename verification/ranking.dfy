/**
  The order of the model grid: favourite score descending (a model without a
  score counts as zero), then plugin name ascending, then model name
  ascending. The grid is sorted with a stable list sort; the model sorts by
  insertion, which is stable too, and for a strict weak order all stable
  sorts produce the same sequence.
 */
module Ranking {
  import opened Strings
  import opened Catalog
  import opened Favorites

  /** The favourite-table key of a model. */
  function KeyOf(m: Model): Key {
    (m.plugin.slug, m.slug)
  }

  /** The favourite score of a model, zero when it has none. */
  function ScoreOf(scores: ScoreTable, m: Model): real {
    GetDefault(scores, KeyOf(m), 0.0)
  }

  /** The sort comparator: whether `a` goes strictly before `b`. */
  predicate Before(scores: ScoreTable, a: Model, b: Model) {
    var sa, sb := ScoreOf(scores, a), ScoreOf(scores, b);
    if sa != sb then sa > sb
    else if a.plugin.name != b.plugin.name then LexLess(a.plugin.name, b.plugin.name)
    else LexLess(a.name, b.name)
  }

  /** Neither model goes before the other: all three sort keys agree. */
  predicate SameRank(scores: ScoreTable, a: Model, b: Model) {
    && ScoreOf(scores, a) == ScoreOf(scores, b)
    && a.plugin.name == b.plugin.name
    && a.name == b.name
  }

  /** The comparator is a strict weak order whose ties are exactly the models
      with equal score, plugin name and model name. */
  lemma BeforeIsStrictWeakOrder(scores: ScoreTable, a: Model, b: Model, c: Model)
    ensures !Before(scores, a, a)
    ensures Before(scores, a, b) ==> !Before(scores, b, a)
    ensures Before(scores, a, b) && Before(scores, b, c) ==> Before(scores, a, c)
    ensures !Before(scores, a, b) && !Before(scores, b, a) <==> SameRank(scores, a, b)
  {
    LexLessIrreflexive(a.name);
    LexLessIrreflexive(a.plugin.name);
    if Before(scores, a, b) {
      BeforeAsymmetric(scores, a, b);
    }
    if Before(scores, a, b) && Before(scores, b, c) {
      BeforeTransitive(scores, a, b, c);
    }
    if a.plugin.name != b.plugin.name {
      LexLessTotal(a.plugin.name, b.plugin.name);
    }
    if a.name != b.name {
      LexLessTotal(a.name, b.name);
    }
  }

  lemma BeforeAsymmetric(scores: ScoreTable, a: Model, b: Model)
    requires Before(scores, a, b)
    ensures !Before(scores, b, a)
  {
    if ScoreOf(scores, a) == ScoreOf(scores, b) {
      if a.plugin.name != b.plugin.name {
        LexLessAsymmetric(a.plugin.name, b.plugin.name);
      } else {
        LexLessAsymmetric(a.name, b.name);
      }
    }
  }

  lemma BeforeTransitive(scores: ScoreTable, a: Model, b: Model, c: Model)
    requires Before(scores, a, b) && Before(scores, b, c)
    ensures Before(scores, a, c)
  {
    var sa, sb, sc := ScoreOf(scores, a), ScoreOf(scores, b), ScoreOf(scores, c);
    if sa == sb && sb == sc {
      if a.plugin.name == b.plugin.name && b.plugin.name == c.plugin.name {
        LexLessTransitive(a.name, b.name, c.name);
      } else if a.plugin.name == b.plugin.name {
      } else if b.plugin.name == c.plugin.name {
      } else {
        LexLessTransitive(a.plugin.name, b.plugin.name, c.plugin.name);
        if a.plugin.name == c.plugin.name {
          LexLessIrreflexive(a.plugin.name);
        }
      }
    }
  }

  /** "Not after" is transitive: the incomparable models form classes. */
  lemma NotBeforeTransitive(scores: ScoreTable, a: Model, b: Model, c: Model)
    requires !Before(scores, b, a) && !Before(scores, c, b)
    ensures !Before(scores, c, a)
  {
    if Before(scores, c, a) {
      // Then c goes before b or b goes before a, against the hypotheses.
      if a.plugin.name != b.plugin.name { LexLessTotal(a.plugin.name, b.plugin.name); }
      if b.plugin.name != c.plugin.name { LexLessTotal(b.plugin.name, c.plugin.name); }
      if a.name != b.name { LexLessTotal(a.name, b.name); }
      if b.name != c.name { LexLessTotal(b.name, c.name); }
      if Before(scores, a, b) {
        BeforeTransitive(scores, c, a, b);
      } else if Before(scores, b, c) {
        BeforeTransitive(scores, b, c, a);
      }
    }
  }

  /** No element goes strictly before its predecessor. */
  predicate Sorted(scores: ScoreTable, s: seq<Model>) {
    forall i :: 0 < i < |s| ==> !Before(scores, s[i], s[i - 1])
  }

  /** In a sorted sequence no later element goes before an earlier one. */
  lemma {:induction false} SortedPairwise(scores: ScoreTable, s: seq<Model>, i: int, j: int)
    requires Sorted(scores, s)
    requires 0 <= i < j < |s|
    ensures !Before(scores, s[j], s[i])
    decreases j - i
  {
    if i + 1 < j {
      SortedPairwise(scores, s, i, j - 1);
      NotBeforeTransitive(scores, s[i], s[j - 1], s[j]);
    }
  }

  /** Putting in front of a sorted sequence an element that its first element
      does not go before keeps it sorted. */
  lemma SortedCons(scores: ScoreTable, a: Model, t: seq<Model>)
    requires Sorted(scores, t)
    requires |t| > 0 ==> !Before(scores, t[0], a)
    ensures Sorted(scores, [a] + t)
  {
    var r := [a] + t;
    forall i | 0 < i < |r| ensures !Before(scores, r[i], r[i - 1]) {
      if i > 1 {
        assert r[i] == t[i - 1] && r[i - 1] == t[i - 2];
      }
    }
  }

  lemma SortedTail(scores: ScoreTable, s: seq<Model>)
    requires Sorted(scores, s) && |s| > 0
    ensures Sorted(scores, s[1..])
  {
    var t := s[1..];
    forall i | 0 < i < |t| ensures !Before(scores, t[i], t[i - 1]) {
      assert t[i] == s[i + 1] && t[i - 1] == s[i];
    }
  }

  /** Puts `x` in front of the first element that does not go before it. */
  function Insert(scores: ScoreTable, x: Model, s: seq<Model>): (r: seq<Model>)
    requires Sorted(scores, s)
    ensures multiset(r) == multiset(s) + multiset{x}
    ensures |r| == |s| + 1
    ensures r[0] == x || (|s| > 0 && r[0] == s[0])
    ensures Sorted(scores, r)
    decreases |s|
  {
    if |s| == 0 then [x]
    else if Before(scores, s[0], x) then
      SortedTail(scores, s);
      var rest := Insert(scores, x, s[1..]);
      BeforeAsymmetric(scores, s[0], x);
      SortedCons(scores, s[0], rest);
      assert s == [s[0]] + s[1..];
      [s[0]] + rest
    else
      SortedCons(scores, x, s);
      [x] + s
  }

  /** Stable insertion sort under the comparator. */
  function Sort(scores: ScoreTable, s: seq<Model>): (r: seq<Model>)
    ensures multiset(r) == multiset(s)
    ensures Sorted(scores, r)
    decreases |s|
  {
    if |s| == 0 then []
    else
      assert s == [s[0]] + s[1..];
      Insert(scores, s[0], Sort(scores, s[1..]))
  }

  /** Rearranging a sequence keeps the same members. */
  lemma PermutationKeepsMembers(a: seq<Model>, b: seq<Model>)
    requires multiset(a) == multiset(b)
    ensures forall m :: m in a <==> m in b
  {
    forall m ensures m in a <==> m in b {
      assert m in a <==> m in multiset(a);
      assert m in b <==> m in multiset(b);
    }
  }

  /** Sorting a sorted sequence leaves it as it is, so re-sorting the grid
      with an unchanged score table does not move anything. */
  lemma {:induction false} SortSortedIsIdentity(scores: ScoreTable, s: seq<Model>)
    requires Sorted(scores, s)
    ensures Sort(scores, s) == s
    decreases |s|
  {
    if |s| > 0 {
      assert Sorted(scores, s[1..]);
      SortSortedIsIdentity(scores, s[1..]);
      if |s| > 1 {
        assert !Before(scores, s[1], s[0]);
      }
      assert s == [s[0]] + s[1..];
    }
  }

  /** A selection leaves the relative order of every two other models alone. */
  lemma StepKeepsOthersOrder(scores: ScoreTable, plugin: string, model: string, a: Model, b: Model)
    requires KeyOf(a) != (plugin, model) && KeyOf(b) != (plugin, model)
    ensures Before(StepFavoriteScore(scores, plugin, model), a, b) <==> Before(scores, a, b)
  {
    StepReadsThroughDefault(scores, plugin, model, KeyOf(a));
    StepReadsThroughDefault(scores, plugin, model, KeyOf(b));
  }

  /** A selected model moves ahead of every other model that did not already
      have a higher score. */
  lemma StepPromotesSelected(scores: ScoreTable, plugin: string, model: string, a: Model, b: Model)
    requires KeyOf(a) == (plugin, model) && KeyOf(b) != (plugin, model)
    requires ScoreOf(scores, a) >= ScoreOf(scores, b)
    ensures Before(StepFavoriteScore(scores, plugin, model), a, b)
  {
    StepReadsThroughDefault(scores, plugin, model, KeyOf(a));
    StepReadsThroughDefault(scores, plugin, model, KeyOf(b));
  }
}
