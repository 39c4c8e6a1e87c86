/** The progress page: per-area status badges, the improvement recommendations and
    the set of knowledge areas that still need a progress record. */
module Progress {
  import opened Seqs
  import opened Catalog

  datatype Status = Strong | Good | NeedsWork

  /** The status thresholds: 85 and above is strong, 70 and above good, the rest needs work. */
  function StatusOf(percentage: int): (s: Status)
    ensures s == Strong <==> percentage >= 85
    ensures s == Good <==> 70 <= percentage < 85
    ensures s == NeedsWork <==> percentage < 70
  {
    if percentage >= 85 then Strong
    else if percentage >= 70 then Good
    else NeedsWork
  }

  /** The badge text of each status. */
  function StatusLabel(s: Status): (text: string)
    ensures s == Strong <==> text == "Strong"
    ensures s == Good <==> text == "Good"
    ensures s == NeedsWork <==> text == "Needs Work"
  {
    match s
    case Strong => "Strong"
    case Good => "Good"
    case NeedsWork => "Needs Work"
  }

  /** Different statuses show different badges. */
  lemma StatusLabelsDistinct(a: Status, b: Status)
    ensures a != b ==> StatusLabel(a) != StatusLabel(b)
  {
    if a != b {
      assert |StatusLabel(a)| != |StatusLabel(b)|;
    }
  }

  function StatusRank(s: Status): nat {
    match s
    case NeedsWork => 0
    case Good => 1
    case Strong => 2
  }

  /** More progress never gives a worse status. */
  lemma StatusMonotone(p: int, q: int)
    requires p <= q
    ensures StatusRank(StatusOf(p)) <= StatusRank(StatusOf(q))
  {
  }

  /** One progress row: a knowledge area and its percentage. */
  datatype AreaProgress = AreaProgress(area: string, percentage: int)

  /** Areas under 80 per cent are candidates for a recommendation. */
  predicate BelowTarget(a: AreaProgress) {
    a.percentage < 80
  }

  /** The rows with percentage `k`; used to state that sorting is stable. */
  function WithPercentage(k: int): AreaProgress -> bool {
    (a: AreaProgress) => a.percentage == k
  }

  predicate SortedByPercentage(s: seq<AreaProgress>) {
    forall i, j :: 0 <= i < j < |s| ==> s[i].percentage <= s[j].percentage
  }

  /** A row no stronger than every row of a sorted sequence can go in front of it. */
  lemma PrependSorted(y: AreaProgress, t: seq<AreaProgress>)
    requires SortedByPercentage(t)
    requires forall z :: z in t ==> y.percentage <= z.percentage
    ensures SortedByPercentage([y] + t)
  {
    var u := [y] + t;
    forall i, j | 0 <= i < j < |u| ensures u[i].percentage <= u[j].percentage {
      assert u[j] == t[j - 1];
      if i > 0 {
        assert u[i] == t[i - 1];
      } else {
        assert t[j - 1] in t;
      }
    }
  }

  /** A row no stronger than the first row of a sorted sequence can go in front of it. */
  lemma PrependLowest(x: AreaProgress, s: seq<AreaProgress>)
    requires SortedByPercentage(s)
    requires s == [] || x.percentage <= s[0].percentage
    ensures SortedByPercentage([x] + s)
  {
    forall z | z in s ensures x.percentage <= z.percentage {
      var k :| 0 <= k < |s| && s[k] == z;
      assert s[0].percentage <= s[k].percentage;
    }
    PrependSorted(x, s);
  }

  lemma SortedTail(s: seq<AreaProgress>)
    requires SortedByPercentage(s) && s != []
    ensures SortedByPercentage(s[1..])
  {
    forall i, j | 0 <= i < j < |s| - 1 ensures s[1..][i].percentage <= s[1..][j].percentage {
      assert s[1..][i] == s[i + 1] && s[1..][j] == s[j + 1];
    }
  }

  /** The head of a sorted sequence goes back in front once `x`, stronger than it, has been
      inserted into the tail. */
  lemma PrependHead(s: seq<AreaProgress>, x: AreaProgress, rest: seq<AreaProgress>)
    requires SortedByPercentage(s) && s != [] && s[0].percentage < x.percentage
    requires SortedByPercentage(rest)
    requires multiset(rest) == multiset(s[1..]) + multiset{x}
    ensures SortedByPercentage([s[0]] + rest)
    ensures multiset([s[0]] + rest) == multiset(s) + multiset{x}
  {
    forall z | z in rest ensures s[0].percentage <= z.percentage {
      assert z in multiset(rest);
      if z != x {
        assert z in multiset(s[1..]);
        var k :| 0 <= k < |s[1..]| && s[1..][k] == z;
        assert s[k + 1] == z;
      }
    }
    PrependSorted(s[0], rest);
    assert s == [s[0]] + s[1..];
    assert multiset(s) == multiset{s[0]} + multiset(s[1..]);
  }

  /** Insert `x` into a sorted sequence before the first row whose percentage is not lower. */
  function InsertByPercentage(x: AreaProgress, s: seq<AreaProgress>): (r: seq<AreaProgress>)
    requires SortedByPercentage(s)
    ensures SortedByPercentage(r)
    ensures multiset(r) == multiset(s) + multiset{x}
    decreases |s|
  {
    if s == [] || x.percentage <= s[0].percentage then
      PrependLowest(x, s);
      [x] + s
    else
      SortedTail(s);
      var rest := InsertByPercentage(x, s[1..]);
      PrependHead(s, x, rest);
      [s[0]] + rest
  }

  /** `sort((a, b) => a.percentage - b.percentage)`: ascending by percentage, a permutation
      of the input, and stable (JavaScript's sort is stable). */
  function SortByPercentage(s: seq<AreaProgress>): (r: seq<AreaProgress>)
    ensures SortedByPercentage(r)
    ensures multiset(r) == multiset(s)
  {
    if s == [] then []
    else
      assert s == [s[0]] + s[1..];
      InsertByPercentage(s[0], SortByPercentage(s[1..]))
  }

  lemma FilterCons(p: AreaProgress -> bool, x: AreaProgress, s: seq<AreaProgress>)
    ensures Filter(p, [x] + s) == (if p(x) then [x] else []) + Filter(p, s)
  {
    FilterConcat(p, [x], s);
    assert Filter(p, [x]) == if p(x) then [x] else [];
  }

  /** Past a weaker head, insertion happens in the tail. */
  lemma InsertPastHead(x: AreaProgress, s: seq<AreaProgress>)
    requires SortedByPercentage(s) && s != [] && s[0].percentage < x.percentage
    ensures SortedByPercentage(s[1..])
    ensures InsertByPercentage(x, s) == [s[0]] + InsertByPercentage(x, s[1..])
  {
    SortedTail(s);
  }

  /** A head weaker than `x` shares no percentage with it, so it does not disturb the ties of `x`. */
  lemma TiesPastHead(k: int, h: AreaProgress, x: AreaProgress, rest: seq<AreaProgress>, tail: seq<AreaProgress>)
    requires h.percentage < x.percentage
    requires Filter(WithPercentage(k), rest)
          == (if x.percentage == k then [x] else []) + Filter(WithPercentage(k), tail)
    ensures Filter(WithPercentage(k), [h] + rest)
         == (if x.percentage == k then [x] else []) + Filter(WithPercentage(k), [h] + tail)
  {
    var p := WithPercentage(k);
    FilterCons(p, h, rest);
    FilterCons(p, h, tail);
    if x.percentage == k {
      assert !p(h);
    } else if p(h) {
      ConsAssoc(h, Filter(p, rest), [], Filter(p, tail));
    }
  }

  /** Inserting `x` places it before every row that already shares its percentage. */
  lemma {:induction false} InsertKeepsTies(k: int, x: AreaProgress, s: seq<AreaProgress>)
    requires SortedByPercentage(s)
    ensures Filter(WithPercentage(k), InsertByPercentage(x, s))
         == (if x.percentage == k then [x] else []) + Filter(WithPercentage(k), s)
    decreases |s|
  {
    if s == [] || x.percentage <= s[0].percentage {
      FilterCons(WithPercentage(k), x, s);
    } else {
      InsertPastHead(x, s);
      InsertKeepsTies(k, x, s[1..]);
      TiesPastHead(k, s[0], x, InsertByPercentage(x, s[1..]), s[1..]);
      assert s == [s[0]] + s[1..];
    }
  }

  /** Sorting is stable: rows with equal percentage keep their original relative order. */
  lemma {:induction false} SortIsStable(k: int, s: seq<AreaProgress>)
    ensures Filter(WithPercentage(k), SortByPercentage(s)) == Filter(WithPercentage(k), s)
    decreases |s|
  {
    if s != [] {
      SortIsStable(k, s[1..]);
      InsertKeepsTies(k, s[0], SortByPercentage(s[1..]));
      FilterCons(WithPercentage(k), s[0], s[1..]);
      assert s == [s[0]] + s[1..];
    }
  }

  /** Two sequences with the same multiset have the same members. */
  lemma SameMembers(a: seq<AreaProgress>, b: seq<AreaProgress>)
    requires multiset(a) == multiset(b)
    ensures forall x :: x in a <==> x in b
  {
    forall x ensures x in a <==> x in b {
      assert x in a <==> x in multiset(a);
      assert x in b <==> x in multiset(b);
    }
  }

  /** The areas below target, weakest first: each copy of a candidate row kept, and rows of
      equal percentage in their original order. */
  function RankedCandidates(data: seq<AreaProgress>): (sorted: seq<AreaProgress>)
    ensures SortedByPercentage(sorted)
    ensures forall a :: a in sorted <==> a in data && a.percentage < 80
    ensures multiset(sorted) == multiset(Filter(BelowTarget, data))
    ensures forall k :: Filter(WithPercentage(k), sorted) == Filter(WithPercentage(k), Filter(BelowTarget, data))
  {
    var candidates := Filter(BelowTarget, data);
    var sorted := SortByPercentage(candidates);
    SameMembers(sorted, candidates);
    forall k ensures Filter(WithPercentage(k), sorted) == Filter(WithPercentage(k), candidates) {
      SortIsStable(k, candidates);
    }
    sorted
  }

  /** The improvement recommendations: the areas below 80 per cent, weakest first,
      at most three. */
  function Recommendations(data: seq<AreaProgress>): (r: seq<AreaProgress>)
    ensures |r| <= 3
    ensures forall a :: a in r ==> a in data && a.percentage < 80
    ensures SortedByPercentage(r)
    ensures |r| <= |RankedCandidates(data)| && r == RankedCandidates(data)[..|r|]
  {
    Take(RankedCandidates(data), 3)
  }

  /** The recommendations are the weakest candidates: every area below target that is
      left out is at least as strong as every one shown. */
  lemma RecommendationsAreWeakest(data: seq<AreaProgress>, a: AreaProgress, i: nat)
    requires a in data && a.percentage < 80 && a !in Recommendations(data)
    requires i < |Recommendations(data)|
    ensures Recommendations(data)[i].percentage <= a.percentage
  {
    var sorted := RankedCandidates(data);
    var r := Recommendations(data);
    var j :| 0 <= j < |sorted| && sorted[j] == a;
    assert sorted[i] == r[i];
  }

  /** Three are shown whenever at least three areas are below target. */
  lemma RecommendationsCount(data: seq<AreaProgress>)
    ensures |Recommendations(data)| == if |RankedCandidates(data)| < 3 then |RankedCandidates(data)| else 3
  {
  }

  /** "Excellent Progress" (no recommendation) is shown exactly when no area is below 80. */
  lemma NoRecommendationsIffAllOnTarget(data: seq<AreaProgress>)
    ensures Recommendations(data) == [] <==> forall a :: a in data ==> a.percentage >= 80
  {
    var sorted := RankedCandidates(data);
    if sorted != [] {
      assert sorted[0] in sorted;
    }
  }

  /** Knowledge areas that have no progress row yet, in catalog order. */
  function MissingAreas(areas: seq<KnowledgeArea>, existing: seq<string>): (r: seq<KnowledgeArea>)
    ensures forall a :: a in r <==> a in areas && a.name !in existing
    ensures IsSubsequence(r, areas)
  {
    FilterIsSubsequence((a: KnowledgeArea) => a.name !in existing, areas);
    Filter((a: KnowledgeArea) => a.name !in existing, areas)
  }

  /** After a row is created for every missing area, every knowledge area has a row. */
  lemma SeedingCoversAllAreas(areas: seq<KnowledgeArea>, existing: seq<string>)
    ensures forall a :: a in areas ==> a.name in existing || a.name in AreaNames(MissingAreas(areas, existing))
  {
    var missing := MissingAreas(areas, existing);
    forall a | a in areas && a.name !in existing
      ensures a.name in AreaNames(missing)
    {
      var j :| 0 <= j < |missing| && missing[j] == a;
      assert AreaNames(missing)[j] == a.name;
    }
  }

  /** The rows shown when progress could not be loaded. */
  const FallbackProgress: seq<AreaProgress> := [
    AreaProgress("Emergency Procedures", 92),
    AreaProgress("VATS Techniques", 78),
    AreaProgress("Lung Cancer Management", 85),
    AreaProgress("Chest Trauma", 65),
    AreaProgress("Post-operative Care", 71)
  ]

  /** One step of the filter: the first row's verdict, then the rest. */
  lemma FilterStep(t: seq<AreaProgress>, r: seq<AreaProgress>)
    requires |t| >= 1 && Filter(BelowTarget, t[1..]) == r
    ensures Filter(BelowTarget, t) == if t[0].percentage < 80 then [t[0]] + r else r
  {
  }

  /** Rows 1, 3 and 4 of five, when only those are below target. */
  lemma FilterFive(f: seq<AreaProgress>)
    requires |f| == 5
    requires f[0].percentage >= 80 && f[1].percentage < 80 && f[2].percentage >= 80
    requires f[3].percentage < 80 && f[4].percentage < 80
    ensures Filter(BelowTarget, f) == [f[1], f[3], f[4]]
  {
    assert f[4..][1..] == [];
    FilterStep(f[4..], []);
    assert f[3..][1..] == f[4..];
    FilterStep(f[3..], [f[4]]);
    assert f[2..][1..] == f[3..];
    FilterStep(f[2..], [f[3]] + [f[4]]);
    assert f[1..][1..] == f[2..];
    FilterStep(f[1..], [f[3]] + [f[4]]);
    assert f[0..] == f;
    FilterStep(f, [f[1]] + ([f[3]] + [f[4]]));
  }

  /** A row stronger than both rows of a sorted pair is inserted after them. */
  lemma InsertPastPair(x: AreaProgress, y: AreaProgress, z: AreaProgress)
    requires y.percentage <= z.percentage < x.percentage
    ensures SortedByPercentage([y, z])
    ensures InsertByPercentage(x, [y, z]) == [y, z, x]
  {
    assert [y, z][1..] == [z];
    assert InsertByPercentage(x, [z]) == [z, x] by {
      assert [z][1..] == [];
    }
  }

  /** Three rows of which the first is the strongest come out as the other two, then it. */
  lemma SortThree(t: seq<AreaProgress>)
    requires |t| == 3
    requires t[1].percentage <= t[2].percentage < t[0].percentage
    ensures SortByPercentage(t) == [t[1], t[2], t[0]]
  {
    assert t[2..][1..] == [];
    assert SortByPercentage(t[2..]) == [t[2]];
    assert t[1..][1..] == t[2..];
    assert SortByPercentage(t[1..]) == [t[1], t[2]];
    InsertPastPair(t[0], t[1], t[2]);
  }

  /** Five rows shaped like the fallback rows: the second, fourth and fifth are below target,
      the fourth weakest and the second strongest among them. */
  lemma RecommendationsOfFive(f: seq<AreaProgress>)
    requires |f| == 5
    requires f[0].percentage >= 80 && f[2].percentage >= 80
    requires f[3].percentage <= f[4].percentage < f[1].percentage < 80
    ensures Recommendations(f) == [f[3], f[4], f[1]]
  {
    FilterFive(f);
    SortThree([f[1], f[3], f[4]]);
    assert RankedCandidates(f) == [f[3], f[4], f[1]];
  }

  /** With the fallback rows, chest trauma, post-operative care and VATS are recommended,
      in that order. */
  lemma FallbackRecommendations()
    ensures Recommendations(FallbackProgress) == [
      AreaProgress("Chest Trauma", 65),
      AreaProgress("Post-operative Care", 71),
      AreaProgress("VATS Techniques", 78)]
  {
    RecommendationsOfFive(FallbackProgress);
  }
}
