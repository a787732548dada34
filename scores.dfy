/** Score bookkeeping in `DocumentClassifier.classify`: the per-category lists
    the chunk scores are appended to, their averages, and the choice of the
    category with the highest average. */
module Scores {
  import opened Outcomes
  import opened PyStrings

  /** `all_scores`: for each category, the scores appended so far, in order. */
  type ScoreLists = map<string, seq<real>>

  /** `{category: [] for category in categories}`. */
  function EmptyLists(categories: seq<string>): (r: ScoreLists)
    ensures forall c :: c in r <==> c in categories
    ensures forall c :: c in r ==> r[c] == []
  {
    map c | c in categories :: []
  }

  /** `zip(labels, scores)`: pairs up to the shorter of the two. */
  function Zip(labels: seq<string>, scores: seq<real>): (r: seq<(string, real)>)
    ensures |r| == if |labels| <= |scores| then |labels| else |scores|
    ensures forall k :: 0 <= k < |r| ==> r[k] == (labels[k], scores[k])
  {
    if labels == [] || scores == [] then []
    else [(labels[0], scores[0])] + Zip(labels[1..], scores[1..])
  }

  /** The message of the `KeyError` that `all_scores[label]` raises:
      `str(KeyError(k))` is `repr(k)`. */
  function KeyErrorMessage(key: string): string
  {
    Repr(key)
  }

  /** The scores paired with category `c`, in order. */
  function ScoresFor(pairs: seq<(string, real)>, c: string): seq<real>
  {
    if pairs == [] then []
    else (if pairs[0].0 == c then [pairs[0].1] else []) + ScoresFor(pairs[1..], c)
  }

  /** The index of the first pair whose label is not a key of `lists`, if any. */
  function FirstUnknown(lists: ScoreLists, pairs: seq<(string, real)>): (r: Option<nat>)
    ensures r.None? <==> forall k :: 0 <= k < |pairs| ==> pairs[k].0 in lists
    ensures r.Some? ==> r.value < |pairs| && pairs[r.value].0 !in lists
    ensures r.Some? ==> forall k :: 0 <= k < r.value ==> pairs[k].0 in lists
  {
    if pairs == [] then None
    else if pairs[0].0 !in lists then Some(0)
    else match FirstUnknown(lists, pairs[1..])
      case None => None
      case Some(k) => Some(k + 1)
  }

  /** `for label, score in pairs: all_scores[label].append(score)`: it raises
      unless every label is a category, and it never adds a category. */
  function Append(lists: ScoreLists, pairs: seq<(string, real)>): (r: Call<ScoreLists>)
    ensures r.Returned? <==> forall k :: 0 <= k < |pairs| ==> pairs[k].0 in lists
    ensures r.Returned? ==> r.value.Keys == lists.Keys
  {
    if pairs == [] then Returned(lists)
    else
      var key := pairs[0].0;
      var score := pairs[0].1;
      if key !in lists then Raised(KeyErrorMessage(key))
      else Append(lists[key := lists[key] + [score]], pairs[1..])
  }

  /** What a successful append leaves: each category's list followed by the
      scores paired with that category, in their order. */
  lemma {:induction false} AppendContents(lists: ScoreLists, pairs: seq<(string, real)>)
    requires Append(lists, pairs).Returned?
    ensures forall c :: c in lists ==> Append(lists, pairs).value[c] == lists[c] + ScoresFor(pairs, c)
  {
    if pairs != [] {
      var key := pairs[0].0;
      var next := lists[key := lists[key] + [pairs[0].1]];
      AppendContents(next, pairs[1..]);
    }
  }

  /** A failed append is the `KeyError` of the first label that is not a category. */
  lemma {:induction false} AppendKeyError(lists: ScoreLists, pairs: seq<(string, real)>)
    requires FirstUnknown(lists, pairs).Some?
    ensures Append(lists, pairs) == Raised(KeyErrorMessage(pairs[FirstUnknown(lists, pairs).value].0))
  {
    if pairs[0].0 in lists {
      var next := lists[pairs[0].0 := lists[pairs[0].0] + [pairs[0].1]];
      assert next.Keys == lists.Keys;
      assert FirstUnknown(next, pairs[1..]) == FirstUnknown(lists, pairs[1..]) by {
        FirstUnknownSameKeys(lists, next, pairs[1..]);
      }
      AppendKeyError(next, pairs[1..]);
    }
  }

  /** The `KeyError` message names the offending label unambiguously: two
      labels with the same message are the same label. */
  lemma KeyErrorNamesLabel(a: string, b: string)
    requires KeyErrorMessage(a) == KeyErrorMessage(b)
    ensures a == b
  {
    ReprReadsBack(a);
    ReprReadsBack(b);
  }

  /** FirstUnknown depends only on the categories, not on their lists. */
  lemma {:induction false} FirstUnknownSameKeys(a: ScoreLists, b: ScoreLists, pairs: seq<(string, real)>)
    requires a.Keys == b.Keys
    ensures FirstUnknown(a, pairs) == FirstUnknown(b, pairs)
  {
    if pairs != [] {
      FirstUnknownSameKeys(a, b, pairs[1..]);
    }
  }

  /** When the labels mention category `c` exactly `n` times (and there are at
      least as many scores as labels), `c` is paired with `n` scores. */
  lemma {:induction false} ScoresForCount(labels: seq<string>, scores: seq<real>, c: string)
    requires |labels| <= |scores|
    ensures |ScoresFor(Zip(labels, scores), c)| == multiset(labels)[c]
  {
    if labels != [] {
      ScoresForCount(labels[1..], scores[1..], c);
      assert labels == [labels[0]] + labels[1..];
    }
  }

  function Sum(s: seq<real>): real
  {
    if s == [] then 0.0 else s[0] + Sum(s[1..])
  }

  /** `sum(scores) / len(scores) if scores else 0`. */
  function Mean(s: seq<real>): real
  {
    if s == [] then 0.0 else Sum(s) / (|s| as real)
  }

  /** A sum of values in `[lo, hi]` lies between `|s| * lo` and `|s| * hi`. */
  lemma {:induction false} SumBounds(s: seq<real>, lo: real, hi: real)
    requires forall k :: 0 <= k < |s| ==> lo <= s[k] <= hi
    ensures (|s| as real) * lo <= Sum(s) <= (|s| as real) * hi
  {
    if s != [] {
      SumBounds(s[1..], lo, hi);
    }
  }

  /** Dividing by a positive count keeps a value between the two bounds it
      was multiplied by. */
  lemma DivideBetween(x: real, n: real, lo: real, hi: real)
    requires n > 0.0 && n * lo <= x <= n * hi
    ensures lo <= x / n <= hi
  {
    var m := x / n;
    assert m * n == x;
    assert (m - lo) * n >= 0.0;
    assert (hi - m) * n >= 0.0;
  }

  /** The average of non-empty scores in `[lo, hi]` lies in `[lo, hi]`. */
  lemma MeanBounds(s: seq<real>, lo: real, hi: real)
    requires s != []
    requires forall k :: 0 <= k < |s| ==> lo <= s[k] <= hi
    ensures lo <= Mean(s) <= hi
  {
    SumBounds(s, lo, hi);
    DivideBetween(Sum(s), |s| as real, lo, hi);
  }

  /** `averaged_scores`: the mean of every category's list. */
  function Averages(lists: ScoreLists): map<string, real>
  {
    map c | c in lists :: Mean(lists[c])
  }

  /** With every score in `[0, 1]`, every average is in `[0, 1]`, the
      averages of empty lists being 0. */
  lemma AveragesInUnitInterval(lists: ScoreLists)
    requires forall c, k :: c in lists && 0 <= k < |lists[c]| ==> 0.0 <= lists[c][k] <= 1.0
    ensures forall c :: c in lists ==> 0.0 <= Averages(lists)[c] <= 1.0
  {
    forall c | c in lists
      ensures 0.0 <= Averages(lists)[c] <= 1.0
    {
      if lists[c] != [] {
        MeanBounds(lists[c], 0.0, 1.0);
      }
    }
  }

  /** `max(averaged, key=averaged.get)` over the categories in order: the index
      of the first category whose average is the largest. Like Python's `max`,
      a later category replaces the current best only when it is strictly
      greater. */
  function FirstMax(categories: seq<string>, averages: map<string, real>): (i: nat)
    requires categories != []
    requires forall k :: 0 <= k < |categories| ==> categories[k] in averages
    ensures i < |categories|
    ensures forall k :: 0 <= k < |categories| ==> averages[categories[k]] <= averages[categories[i]]
    ensures forall k :: 0 <= k < i ==> averages[categories[k]] < averages[categories[i]]
  {
    if |categories| == 1 then 0
    else
      var j := FirstMax(categories[..|categories| - 1], averages);
      var last := |categories| - 1;
      if averages[categories[last]] > averages[categories[j]] then last else j
  }

  /** Being maximal and earlier than every other maximal category pins the
      choice down: any index with both properties is FirstMax's. */
  lemma FirstMaxUnique(categories: seq<string>, averages: map<string, real>, i: nat)
    requires categories != []
    requires forall k :: 0 <= k < |categories| ==> categories[k] in averages
    requires i < |categories|
    requires forall k :: 0 <= k < |categories| ==> averages[categories[k]] <= averages[categories[i]]
    requires forall k :: 0 <= k < i ==> averages[categories[k]] < averages[categories[i]]
    ensures FirstMax(categories, averages) == i
  {
    var j := FirstMax(categories, averages);
    assert averages[categories[i]] <= averages[categories[j]];
    assert averages[categories[j]] <= averages[categories[i]];
  }

  /** When all averages are equal (as when no chunk was scored and all are 0),
      the first category is chosen. */
  lemma FirstMaxOfTies(categories: seq<string>, averages: map<string, real>)
    requires categories != []
    requires forall k :: 0 <= k < |categories| ==> categories[k] in averages
    requires forall k :: 0 <= k < |categories| ==> averages[categories[k]] == averages[categories[0]]
    ensures FirstMax(categories, averages) == 0
  {
    FirstMaxUnique(categories, averages, 0);
  }
}
