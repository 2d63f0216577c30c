/**
 * The counting behind components/features/home/AnalyticsDashboard.tsx: headline counters,
 * count-by-key with a fallback bucket sorted by count, and label truncation.
 */
module Analytics {
  import opened Base
  import opened Types
  import Kanban

  // ---- Headline counters ----

  /** The number of ideas whose status is one of `statuses` (a `filter(...).length`). */
  function CountStatus(ideas: seq<Idea>, statuses: set<string>): (n: nat)
    ensures n <= |ideas|
  {
    if ideas == [] then 0
    else (if ideas[0].status in statuses then 1 else 0) + CountStatus(ideas[1..], statuses)
  }

  /** The sum of the scores, a missing score counting as zero. */
  function ScoreSum(ideas: seq<Idea>): int
  {
    if ideas == [] then 0 else OrZero(ideas[0].score) + ScoreSum(ideas[1..])
  }

  /** The counters; the average score is `scoreSum / total`, formatted at render time. */
  datatype Metrics = Metrics(total: nat, completed: nat, scoreSum: int, inProgress: nat)

  /** The counters, computed only for a non-empty list (an empty one shows a placeholder instead). */
  function ComputeMetrics(ideas: seq<Idea>): (m: Option<Metrics>)
    ensures m.None? <==> ideas == []
    ensures m.Some? ==> m.value.total == |ideas| && m.value.total > 0
    ensures m.Some? ==> m.value.completed + m.value.inProgress <= m.value.total
  {
    if ideas == [] then None
    else
      CountersMatchColumns(ideas);
      Some(Metrics(|ideas|, CountStatus(ideas, {"Done", "Approved"}),
                   ScoreSum(ideas), CountStatus(ideas, {"In Progress"})))
  }

  /** `completed` counts the Done and Approved columns, `inProgress` the In Progress column, and together they never exceed the total. */
  lemma {:induction false} CountersMatchColumns(ideas: seq<Idea>)
    ensures CountStatus(ideas, {"Done", "Approved"}) == |Kanban.ColumnView(ideas, "Done")| + |Kanban.ColumnView(ideas, "Approved")|
    ensures CountStatus(ideas, {"In Progress"}) == |Kanban.ColumnView(ideas, "In Progress")|
    ensures CountStatus(ideas, {"Done", "Approved"}) + CountStatus(ideas, {"In Progress"}) <= |ideas|
  {
    if ideas != [] {
      CountersMatchColumns(ideas[1..]);
    }
  }

  // ---- Count by key ----

  /** The idea fields the dashboard groups by. */
  datatype GroupKey = ByStatus | ByCategory | ByAutomationFit | ByImpact | ByDepartment

  function KeyValue(i: Idea, key: GroupKey): Option<string>
  {
    match key
    case ByStatus => Some(i.status)
    case ByCategory => Some(i.categoryId)
    case ByAutomationFit => i.aiAutomationFit
    case ByImpact => i.impactType
    case ByDepartment => Some(i.department)
  }

  /** The bucket an idea is counted in: its key value, or the fallback name when that is falsy. */
  function Bucket(i: Idea, key: GroupKey, fallback: string): (r: string)
    ensures r == fallback || (KeyValue(i, key) == Some(r) && r != "")
  {
    OrElse(KeyValue(i, key), fallback)
  }

  /** An idea ends up in the fallback slice when its key value is missing, empty, or the fallback name itself. */
  predicate LandsInFallback(i: Idea, key: GroupKey, fallback: string)
  {
    KeyValue(i, key).None? || KeyValue(i, key).value == "" || KeyValue(i, key).value == fallback
  }

  /** The number of ideas that end up in the fallback slice. */
  function FallbackCount(ideas: seq<Idea>, key: GroupKey, fallback: string): nat
  {
    if ideas == [] then 0
    else (if LandsInFallback(ideas[0], key, fallback) then 1 else 0) + FallbackCount(ideas[1..], key, fallback)
  }

  /** The bucket of every idea, in list order. */
  function Buckets(ideas: seq<Idea>, key: GroupKey, fallback: string): (r: seq<string>)
    ensures |r| == |ideas|
    ensures forall i :: 0 <= i < |ideas| ==> r[i] == Bucket(ideas[i], key, fallback)
  {
    seq(|ideas|, i requires 0 <= i < |ideas| => Bucket(ideas[i], key, fallback))
  }

  /** How many times `name` occurs in `keys`. */
  function Count(keys: seq<string>, name: string): nat
    decreases |keys|
  {
    if keys == [] then 0
    else Count(keys[..|keys| - 1], name) + (if keys[|keys| - 1] == name then 1 else 0)
  }

  /** A name that does not occur has count zero. */
  lemma {:induction false} CountAbsent(keys: seq<string>, name: string)
    requires name !in keys
    ensures Count(keys, name) == 0
    decreases |keys|
  {
    if keys != [] {
      var p := keys[..|keys| - 1];
      assert forall x :: x in p ==> x in keys;
      CountAbsent(p, name);
    }
  }

  /** In a list without repetitions a listed name occurs exactly once. */
  lemma {:induction false} CountOnce(names: seq<string>, name: string)
    requires Distinct(names) && name in names
    ensures Count(names, name) == 1
    decreases |names|
  {
    var p := names[..|names| - 1];
    assert forall x :: x in p ==> x in names;
    if names[|names| - 1] == name {
      CountAbsent(p, name);
    } else {
      assert name in p;
      CountOnce(p, name);
    }
  }

  /**
   * The fallback slice counts the ideas with a missing or empty key value together with those
   * whose value already is the fallback name.
   */
  lemma {:induction false} FallbackSliceCount(ideas: seq<Idea>, key: GroupKey, fallback: string)
    ensures Count(Buckets(ideas, key, fallback), fallback) == FallbackCount(ideas, key, fallback)
    decreases |ideas|
  {
    var b := Buckets(ideas, key, fallback);
    if ideas == [] {
      assert b == [];
    } else {
      CountFront(b, fallback);
      assert b[1..] == Buckets(ideas[1..], key, fallback);
      FallbackSliceCount(ideas[1..], key, fallback);
    }
  }

  /** An idea with an empty status and one whose status is "Unknown" share the "Unknown" slice. */
  lemma EmptyStatusJoinsUnknown(a: Idea, b: Idea)
    requires a.status == "" && b.status == "Unknown"
    ensures Buckets([a, b], ByStatus, "Unknown") == ["Unknown", "Unknown"]
    ensures Count(Buckets([a, b], ByStatus, "Unknown"), "Unknown") == 2
  {
    FallbackSliceCount([a, b], ByStatus, "Unknown");
    assert [a, b][1..] == [b] && [b][1..] == [];
    assert FallbackCount([b], ByStatus, "Unknown") == 1;
  }

  datatype Slice = Slice(name: string, value: nat)

  function Total(r: seq<Slice>): int
  {
    if r == [] then 0 else r[0].value + Total(r[1..])
  }

  predicate NamesDistinct(r: seq<Slice>)
  {
    forall i, j :: 0 <= i < j < |r| ==> r[i].name != r[j].name
  }

  predicate SortedDesc(r: seq<Slice>)
  {
    forall i, j :: 0 <= i < j < |r| ==> r[i].value >= r[j].value
  }

  /** Insert `x` after every slice whose count is at least its own (keeps a stable order). */
  function Insert(x: Slice, s: seq<Slice>): seq<Slice>
  {
    if s == [] then [x]
    else if x.value > s[0].value then [x] + s
    else [s[0]] + Insert(x, s[1..])
  }

  /** The sort by non-increasing count, as a stable insertion sort. */
  function SortByValue(s: seq<Slice>): seq<Slice>
    decreases |s|
  {
    if s == [] then [] else Insert(s[|s| - 1], SortByValue(s[..|s| - 1]))
  }

  lemma {:induction false} InsertPerm(x: Slice, s: seq<Slice>)
    ensures multiset(Insert(x, s)) == multiset(s) + multiset{x}
  {
    if s != [] && x.value <= s[0].value {
      InsertPerm(x, s[1..]);
      assert s == [s[0]] + s[1..];
    }
  }

  lemma {:induction false} InsertTotal(x: Slice, s: seq<Slice>)
    ensures Total(Insert(x, s)) == Total(s) + x.value
  {
    if s != [] && x.value <= s[0].value {
      InsertTotal(x, s[1..]);
    }
  }

  lemma {:induction false} InsertSorted(x: Slice, s: seq<Slice>)
    requires SortedDesc(s)
    ensures SortedDesc(Insert(x, s))
  {
    if s == [] {
    } else if x.value > s[0].value {
      SortedCons(x, s);
    } else {
      var rest := Insert(x, s[1..]);
      assert SortedDesc(s[1..]);
      InsertSorted(x, s[1..]);
      InsertPerm(x, s[1..]);
      forall y | y in rest
        ensures y.value <= s[0].value
      {
        assert y in multiset(rest);
      }
      SortedCons(s[0], rest);
    }
  }

  /** A head at least as large as every element of a sorted tail gives a sorted sequence. */
  lemma SortedCons(h: Slice, t: seq<Slice>)
    requires SortedDesc(t)
    requires forall y :: y in t ==> y.value <= h.value
    ensures SortedDesc([h] + t)
  {
    var u := [h] + t;
    forall i, j | 0 <= i < j < |u|
      ensures u[i].value >= u[j].value
    {
      if i == 0 {
        assert u[j] == t[j - 1];
      } else {
        assert u[i] == t[i - 1] && u[j] == t[j - 1];
      }
    }
  }

  lemma {:induction false} InsertNames(x: Slice, s: seq<Slice>)
    requires NamesDistinct(s)
    requires forall y :: y in s ==> y.name != x.name
    ensures NamesDistinct(Insert(x, s))
  {
    if s != [] && x.value <= s[0].value {
      var rest := Insert(x, s[1..]);
      InsertNames(x, s[1..]);
      InsertPerm(x, s[1..]);
      forall y | y in rest
        ensures y.name != s[0].name
      {
        assert y in multiset(rest);
      }
      assert Insert(x, s) == [s[0]] + rest;
    }
  }

  /** A non-empty sequence is its front followed by its last element, as a multiset too. */
  lemma LastSplit(s: seq<Slice>)
    requires s != []
    ensures multiset(s) == multiset(s[..|s| - 1]) + multiset{s[|s| - 1]}
  {
    assert s == s[..|s| - 1] + [s[|s| - 1]];
  }

  /** The sort yields a permutation of its input. */
  lemma {:induction false} SortPerm(s: seq<Slice>)
    ensures multiset(SortByValue(s)) == multiset(s)
    decreases |s|
  {
    if s != [] {
      var p := s[..|s| - 1];
      var x := s[|s| - 1];
      SortPerm(p);
      InsertPerm(x, SortByValue(p));
      LastSplit(s);
    }
  }

  /** The sort yields a non-increasing sequence. */
  lemma {:induction false} SortSorted(s: seq<Slice>)
    ensures SortedDesc(SortByValue(s))
    decreases |s|
  {
    if s != [] {
      var p := s[..|s| - 1];
      SortSorted(p);
      InsertSorted(s[|s| - 1], SortByValue(p));
    }
  }

  /** The sort keeps the sum of the counts. */
  lemma {:induction false} SortTotal(s: seq<Slice>)
    ensures Total(SortByValue(s)) == Total(s)
    decreases |s|
  {
    if s != [] {
      var p := s[..|s| - 1];
      SortTotal(p);
      InsertTotal(s[|s| - 1], SortByValue(p));
      assert s == p + [s[|s| - 1]];
      TotalAppend(p, s[|s| - 1]);
    }
  }

  /** The sort keeps names distinct. */
  lemma {:induction false} SortNames(s: seq<Slice>)
    requires NamesDistinct(s)
    ensures NamesDistinct(SortByValue(s))
    decreases |s|
  {
    if s != [] {
      var p := s[..|s| - 1];
      var x := s[|s| - 1];
      var sp := SortByValue(p);
      SortNames(p);
      SortPerm(p);
      forall y | y in sp
        ensures y.name != x.name
      {
        assert y in multiset(p);
      }
      InsertNames(x, sp);
    }
  }

  lemma {:induction false} TotalAppend(p: seq<Slice>, x: Slice)
    ensures Total(p + [x]) == Total(p) + x.value
  {
    if p != [] {
      assert (p + [x])[1..] == p[1..] + [x];
      TotalAppend(p[1..], x);
    }
  }

  /** The sum of the counts of a list of names. */
  function SumCounts(keys: seq<string>, names: seq<string>): int
  {
    if names == [] then 0 else Count(keys, names[0]) + SumCounts(keys, names[1..])
  }

  lemma {:induction false} SumCountsStep(keys: seq<string>, names: seq<string>)
    requires keys != []
    ensures SumCounts(keys, names) == SumCounts(keys[..|keys| - 1], names) + Count(names, keys[|keys| - 1])
    decreases |names|
  {
    if names != [] {
      SumCountsStep(keys, names[1..]);
      CountFront(names, keys[|keys| - 1]);
    } else {
      assert Count(names, keys[|keys| - 1]) == 0;
    }
  }

  /** The count seen from the front of the list. */
  lemma {:induction false} CountFront(names: seq<string>, name: string)
    requires names != []
    ensures Count(names, name) == (if names[0] == name then 1 else 0) + Count(names[1..], name)
    decreases |names|
  {
    if |names| > 1 {
      var p := names[..|names| - 1];
      CountFront(p, name);
      assert p[1..] == names[1..][..|names[1..]| - 1];
    } else {
      assert names[..0] == [] && names[1..] == [];
    }
  }

  lemma {:induction false} SumCountsEmpty(names: seq<string>)
    ensures SumCounts([], names) == 0
  {
    if names != [] {
      SumCountsEmpty(names[1..]);
    }
  }

  /** Distinct names covering every key split the keys exactly: their counts sum to |keys|. */
  lemma {:induction false} SumCountsCovers(keys: seq<string>, names: seq<string>)
    requires Distinct(names)
    requires forall i :: 0 <= i < |keys| ==> keys[i] in names
    ensures SumCounts(keys, names) == |keys|
    decreases |keys|
  {
    if keys == [] {
      SumCountsEmpty(names);
    } else {
      SumCountsStep(keys, names);
      SumCountsCovers(keys[..|keys| - 1], names);
      CountOnce(names, keys[|keys| - 1]);
    }
  }

  lemma {:induction false} TotalIsSumCounts(e: seq<Slice>, keys: seq<string>, names: seq<string>)
    requires |e| == |names|
    requires forall j :: 0 <= j < |e| ==> e[j].value == Count(keys, names[j])
    ensures Total(e) == SumCounts(keys, names)
  {
    if e != [] {
      TotalIsSumCounts(e[1..], keys, names[1..]);
    }
  }

  /**
   * `groupBy(key, fallback)`: one slice per bucket that occurs, named once, carrying the number
   * of ideas in it, ordered by non-increasing count, the counts adding up to the list length.
   */
  method GroupBy(ideas: seq<Idea>, key: GroupKey, fallback: string) returns (r: seq<Slice>)
    ensures NamesDistinct(r) && SortedDesc(r)
    ensures forall j :: 0 <= j < |r| ==> r[j].value == Count(Buckets(ideas, key, fallback), r[j].name) && r[j].value > 0
    ensures Covers(r, Buckets(ideas, key, fallback))
    ensures Total(r) == |ideas|
  {
    ghost var keys := Buckets(ideas, key, fallback);
    var names: seq<string> := [];
    var counts: map<string, nat> := map[];
    var k := 0;
    while k < |ideas|
      invariant 0 <= k <= |ideas|
      invariant Tallied(keys[..k], names, counts)
    {
      var b := Bucket(ideas[k], key, fallback);
      TalliedStep(keys, k, names, counts);
      if b !in counts {
        names := names + [b];
      }
      counts := counts[b := (if b in counts then counts[b] else 0) + 1];
      k := k + 1;
    }
    assert keys[..k] == keys;
    r := SortByValue(Entries(names, counts));
    GroupedResult(keys, names, counts);
  }

  /**
   * The counting loop's state after `keys`: `names` lists each key met once, in first-seen
   * order, and `counts` holds the number of times each occurs.
   */
  ghost predicate Tallied(keys: seq<string>, names: seq<string>, counts: map<string, nat>)
  {
    && (forall n :: n in counts <==> n in names)
    && Distinct(names)
    && (forall n :: n in counts ==> counts[n] == Count(keys, n) && counts[n] > 0)
    && (forall i :: 0 <= i < |keys| ==> keys[i] in counts)
  }

  /** One `a[k] = (a[k] || 0) + 1` step keeps the tally exact. */
  lemma TalliedStep(keys: seq<string>, k: nat, names: seq<string>, counts: map<string, nat>)
    requires k < |keys| && Tallied(keys[..k], names, counts)
    ensures var b := keys[k];
      Tallied(keys[..k + 1],
              if b in counts then names else names + [b],
              counts[b := (if b in counts then counts[b] else 0) + 1])
  {
    var b := keys[k];
    var ys := keys[..k + 1];
    assert ys[..|ys| - 1] == keys[..k];
    if b !in counts {
      assert b !in keys[..k];
      CountAbsent(keys[..k], b);
    }
  }

  /** One slice per recorded name, in first-seen order. */
  function Entries(names: seq<string>, counts: map<string, nat>): (e: seq<Slice>)
    requires forall n :: n in names ==> n in counts
    ensures |e| == |names|
    ensures forall j :: 0 <= j < |e| ==> e[j] == Slice(names[j], counts[names[j]])
  {
    seq(|names|, j requires 0 <= j < |names| => Slice(names[j], counts[names[j]]))
  }

  /** What the counting loop leaves behind makes the sorted slices a correct grouping. */
  lemma GroupedResult(keys: seq<string>, names: seq<string>, counts: map<string, nat>)
    requires Tallied(keys, names, counts)
    ensures var r := SortByValue(Entries(names, counts));
      NamesDistinct(r) && SortedDesc(r) && Total(r) == |keys| &&
      (forall j :: 0 <= j < |r| ==> r[j].value == Count(keys, r[j].name) && r[j].value > 0) &&
      Covers(r, keys)
  {
    var entries := Entries(names, counts);
    TotalIsSumCounts(entries, keys, names);
    SumCountsCovers(keys, names);
    SortSorted(entries);
    SortTotal(entries);
    SortNames(entries);
    GroupedValues(keys, names, counts);
    GroupedCovers(keys, names, counts);
  }

  lemma GroupedValues(keys: seq<string>, names: seq<string>, counts: map<string, nat>)
    requires Tallied(keys, names, counts)
    ensures var r := SortByValue(Entries(names, counts));
      forall j :: 0 <= j < |r| ==> r[j].value == Count(keys, r[j].name) && r[j].value > 0
  {
    var entries := Entries(names, counts);
    var r := SortByValue(entries);
    SortPerm(entries);
    forall j | 0 <= j < |r|
      ensures r[j].value == Count(keys, r[j].name) && r[j].value > 0
    {
      assert r[j] in multiset(entries);
    }
  }

  /** Every key is the name of some slice. */
  predicate Covers(r: seq<Slice>, keys: seq<string>)
  {
    forall i :: 0 <= i < |keys| ==> exists j :: 0 <= j < |r| && r[j].name == keys[i]
  }

  lemma GroupedCovers(keys: seq<string>, names: seq<string>, counts: map<string, nat>)
    requires Tallied(keys, names, counts)
    ensures Covers(SortByValue(Entries(names, counts)), keys)
  {
    var entries := Entries(names, counts);
    var r := SortByValue(entries);
    SortPerm(entries);
    forall i | 0 <= i < |keys|
      ensures exists j :: 0 <= j < |r| && r[j].name == keys[i]
    {
      var m :| 0 <= m < |names| && names[m] == keys[i];
      assert entries[m] in multiset(r);
      var j :| 0 <= j < |r| && r[j] == entries[m];
      assert r[j].name == keys[i];
    }
  }

  // ---- Label truncation ----

  /** Shorten a label longer than `width` to its first `width - 3` characters and an ellipsis. */
  function ShortName(name: string, width: nat): (r: string)
    requires width >= 3
    ensures |r| <= width
    ensures |name| <= width ==> r == name
    ensures |name| > width ==> |r| == width && r[..width - 3] == name[..width - 3] && r[width - 3..] == "..."
  {
    if |name| > width then name[..width - 3] + "..." else name
  }

  /** Category labels are cut at 22 (keeping 19), department labels at 18 (keeping 15). */
  function CategoryShortName(name: string): (r: string)
    ensures |r| <= 22
    ensures |name| <= 22 ==> r == name
    ensures |name| > 22 ==> r == name[..19] + "..."
  {
    ShortName(name, 22)
  }

  function DepartmentShortName(name: string): (r: string)
    ensures |r| <= 18
    ensures |name| <= 18 ==> r == name
    ensures |name| > 18 ==> r == name[..15] + "..."
  {
    ShortName(name, 18)
  }
}
