/** The history page script (`dashboard.js`): the summary figures, the three
    badges, the per-category chart data and the history table. The stored
    history holds the newest result at its head (`addQuizResult` prepends),
    so the table, which shows the array reversed in place, lists the oldest
    result first.
    Stored percentages are modelled as integers. */
module DashboardPage {
  import opened Wrappers
  import opened Grouping
  import opened Rounding
  import Seqs

  /** One stored result as this page reads it. */
  datatype Result = Result(categoryName: string, score: int, totalQuestions: int, percentage: int, date: string)

  function NameOf(r: Result): string { r.categoryName }
  function PercentOf(r: Result): int { r.percentage }

  predicate Percentages(h: seq<Result>)
  {
    forall i :: 0 <= i < |h| ==> 0 <= h[i].percentage <= 100
  }

  // ---------- calculateAndDisplayStats ----------

  datatype Summary = Summary(totalQuizzes: nat, averageScore: int, bestCategory: string)

  /** The three figures: the number of results, the rounded mean percentage
      (0 with no results) and a best category that is always "N/A". */
  function SummaryOf(h: seq<Result>): Summary
  {
    Summary(|h|, if |h| > 0 then RoundDiv(Sum(h, PercentOf), |h|) else 0, "N/A")
  }

  /** The average of percentages is a percentage. */
  lemma AverageIsPercentage(h: seq<Result>)
    requires Percentages(h)
    ensures 0 <= SummaryOf(h).averageScore <= 100
  {
    if h != [] {
      SumBounds(h, PercentOf, 100);
      RoundDivBounds(Sum(h, PercentOf), |h|, 100);
    }
  }

  /** When every result has the same percentage, that is the average. */
  lemma AverageOfEqualScores(h: seq<Result>, p: int)
    requires h != [] && forall i :: 0 <= i < |h| ==> h[i].percentage == p
    ensures SummaryOf(h).averageScore == p
  {
    SumConstant(h, PercentOf, p);
    RoundDivExact(p, |h|);
  }

  // ---------- checkAndDisplayBadges ----------

  const ScienceAndNature := "Science & Nature"

  /** `history.some(result => result.percentage === 100)`. */
  predicate GoldMedal(h: seq<Result>)
  {
    exists i :: 0 <= i < |h| && h[i].percentage == 100
  }

  /** `history.filter(result => result.categoryName === "Science & Nature")`. */
  function ScienceResults(h: seq<Result>): seq<Result>
  {
    Select(h, NameOf, ScienceAndNature)
  }

  predicate Scientist(h: seq<Result>)
  {
    |ScienceResults(h)| >= 5
  }

  /** `new Set(history.map(result => result.categoryName))`. */
  function CompletedCategories(h: seq<Result>): set<string>
  {
    set i | 0 <= i < |h| :: h[i].categoryName
  }

  predicate Mastermind(h: seq<Result>)
  {
    |CompletedCategories(h)| >= 3
  }

  /** The three badges on the page; each starts locked. */
  class BadgeShelf {
    var goldLocked: bool
    var scientistLocked: bool
    var mastermindLocked: bool

    constructor ()
      ensures goldLocked && scientistLocked && mastermindLocked
    {
      goldLocked, scientistLocked, mastermindLocked := true, true, true;
    }

    /** `checkAndDisplayBadges`: each badge whose condition holds loses its
        "locked" class; a badge is never locked again. */
    method CheckAndDisplayBadges(h: seq<Result>)
      modifies this
      ensures goldLocked == (old(goldLocked) && !GoldMedal(h))
      ensures scientistLocked == (old(scientistLocked) && !Scientist(h))
      ensures mastermindLocked == (old(mastermindLocked) && !Mastermind(h))
    {
      var hasPerfectScore := exists i :: 0 <= i < |h| && h[i].percentage == 100;
      if hasPerfectScore {
        goldLocked := false;
      }
      var scienceQuizzes := ScienceResults(h);
      if |scienceQuizzes| >= 5 {
        scientistLocked := false;
      }
      var completedCategories := set i | 0 <= i < |h| :: h[i].categoryName;
      if |completedCategories| >= 3 {
        mastermindLocked := false;
      }
    }
  }

  lemma {:induction false} SubsetCardinality(a: set<string>, b: set<string>)
    requires a <= b
    ensures |a| <= |b|
  {
    if a != {} {
      var x :| x in a;
      SubsetCardinality(a - {x}, b - {x});
    }
  }

  /** A badge earned by a history stays earned once a new result is put in
      front of it, as `addQuizResult` does. */
  lemma BadgesKeptByNewResult(h: seq<Result>, r: Result)
    ensures GoldMedal(h) ==> GoldMedal([r] + h)
    ensures Scientist(h) ==> Scientist([r] + h)
    ensures Mastermind(h) ==> Mastermind([r] + h)
  {
    var h' := [r] + h;
    if GoldMedal(h) {
      var i :| 0 <= i < |h| && h[i].percentage == 100;
      assert h'[i + 1] == h[i];
    }
    SelectAppend([r], h, NameOf, ScienceAndNature);
    assert CompletedCategories(h) <= CompletedCategories(h') by {
      forall c | c in CompletedCategories(h)
        ensures c in CompletedCategories(h')
      {
        var i :| 0 <= i < |h| && h[i].categoryName == c;
        assert h'[i + 1] == h[i];
      }
    }
    SubsetCardinality(CompletedCategories(h), CompletedCategories(h'));
  }

  /** The scientist badge counts results, not categories: five results in
      "Science & Nature" earn it even when every other category is absent. */
  lemma ScientistFromFive(h: seq<Result>)
    requires |h| == 5 && forall i :: 0 <= i < |h| ==> h[i].categoryName == ScienceAndNature
    ensures Scientist(h) && !Mastermind(h)
  {
    assert h == h[..4] + [h[4]];
    var k := h[..4];
    assert k == k[..3] + [k[3]];
    var j := k[..3];
    assert j == j[..2] + [j[2]];
    var m := j[..2];
    assert m == m[..1] + [m[1]];
    assert m[..1] == [] + [m[0]];
    SelectSnoc(h[..4], h[4], NameOf);
    SelectSnoc(k[..3], k[3], NameOf);
    SelectSnoc(j[..2], j[2], NameOf);
    SelectSnoc(m[..1], m[1], NameOf);
    SelectSnoc([], m[0], NameOf);
    assert CompletedCategories(h) == {ScienceAndNature};
  }

  // ---------- createCategoryChart ----------

  /** One `categoryStats` entry: the sum of percentages and the count. */
  datatype ChartStat = ChartStat(total: int, count: nat)

  function StatOf(h: seq<Result>, c: string): ChartStat
  {
    var sel := Select(h, NameOf, c);
    ChartStat(Sum(sel, PercentOf), |sel|)
  }

  /** `stat.total += result.percentage; stat.count++`. */
  function Tally(st: ChartStat, r: Result): ChartStat
  {
    ChartStat(st.total + r.percentage, st.count + 1)
  }

  /** One more result changes only its own category's entry; a category seen
      for the first time starts from `{ total: 0, count: 0 }`. */
  lemma StatStep(prefix: seq<Result>, r: Result)
    ensures r.categoryName !in Keys(prefix, NameOf) ==> StatOf(prefix, r.categoryName) == ChartStat(0, 0)
    ensures forall c :: StatOf(prefix + [r], c) == if c == r.categoryName then Tally(StatOf(prefix, c), r) else StatOf(prefix, c)
  {
    if r.categoryName !in Keys(prefix, NameOf) {
      SelectAbsent(prefix, NameOf, r.categoryName);
    }
    forall c {
      StatStepAt(prefix, r, c);
    }
  }

  lemma StatStepAt(prefix: seq<Result>, r: Result, c: string)
    ensures StatOf(prefix + [r], c) == if c == r.categoryName then Tally(StatOf(prefix, c), r) else StatOf(prefix, c)
  {
    SelectSnocAt(prefix, r, NameOf, c);
    if c == r.categoryName {
      SumSnoc(Select(prefix, NameOf, c), r, PercentOf);
    }
  }

  /** Every label has at least one result. */
  lemma {:induction false} LabelHasResults(h: seq<Result>, c: string)
    requires c in Keys(h, NameOf)
    ensures |Select(h, NameOf, c)| > 0
  {
    KeysMembers(h, NameOf, c);
    var i :| 0 <= i < |h| && NameOf(h[i]) == c;
    SelectMembers(h, NameOf, c, h[i]);
  }

  /** The state of the `forEach` that fills `categoryStats`, once `prefix`
      is folded in. */
  ghost predicate StatsOf(prefix: seq<Result>, labels: seq<string>, stats: map<string, ChartStat>)
  {
    && labels == Keys(prefix, NameOf)
    && (forall c :: c in stats <==> c in labels)
    && (forall c :: c in stats ==> stats[c] == StatOf(prefix, c))
  }

  /** Folding in one more result, as the `forEach` callback does, keeps `StatsOf`. */
  lemma TallyStep(prefix: seq<Result>, r: Result, labels: seq<string>, stats: map<string, ChartStat>)
    requires StatsOf(prefix, labels, stats)
    ensures var c := r.categoryName;
            var st := if c in stats then stats[c] else ChartStat(0, 0);
            StatsOf(prefix + [r], if c in stats then labels else labels + [c], stats[c := Tally(st, r)])
  {
    var c := r.categoryName;
    KeysSnoc(prefix, r, NameOf);
    if c !in stats {
      SelectAbsent(prefix, NameOf, c);
    }
    var st := if c in stats then stats[c] else ChartStat(0, 0);
    var stats' := stats[c := Tally(st, r)];
    forall k | k in stats'
      ensures stats'[k] == StatOf(prefix + [r], k)
    {
      StatStepAt(prefix, r, k);
    }
  }

  /** The chart's labels and bar values. */
  datatype Chart = Chart(labels: seq<string>, data: seq<int>)

  /** The bar of one category: the rounded mean of its percentages. */
  function BarOf(h: seq<Result>, c: string): int
    requires c in Keys(h, NameOf)
  {
    LabelHasResults(h, c);
    var st := StatOf(h, c);
    RoundDiv(st.total, st.count)
  }

  function ChartOf(h: seq<Result>): Chart
  {
    var labels := Keys(h, NameOf);
    Chart(labels, seq(|labels|, i requires 0 <= i < |labels| => BarOf(h, labels[i])))
  }

  /** `createCategoryChart`: nothing without the canvas; otherwise the
      `categoryStats` object is filled in one pass over the history and each
      label gets the rounded mean of its entry. */
  method CategoryChart(h: seq<Result>, hasCanvas: bool) returns (chart: Option<Chart>)
    ensures !hasCanvas ==> chart == None
    ensures hasCanvas ==> chart == Some(ChartOf(h))
  {
    if !hasCanvas {
      return None;
    }
    var labels: seq<string> := [];
    var stats: map<string, ChartStat> := map[];
    for i := 0 to |h|
      invariant StatsOf(h[..i], labels, stats)
    {
      var r := h[i];
      TallyStep(h[..i], r, labels, stats);
      PrefixSnoc(h, i);
      var c := r.categoryName;
      var st;
      if c in stats {
        st := stats[c];
      } else {
        st := ChartStat(0, 0);
        labels := labels + [c];
      }
      stats := stats[c := Tally(st, r)];
    }
    assert h[..|h|] == h;
    forall c | c in labels
      ensures stats[c].count > 0
    {
      LabelHasResults(h, c);
    }
    var data := seq(|labels|, i requires 0 <= i < |labels| => RoundDiv(stats[labels[i]].total, stats[labels[i]].count));
    forall i | 0 <= i < |labels|
      ensures data[i] == BarOf(h, labels[i])
    {
      assert stats[labels[i]] == StatOf(h, labels[i]);
    }
    assert data == ChartOf(h).data;
    chart := Some(Chart(labels, data));
  }

  /** One label per distinct category name, without repeats: the chart has
      exactly as many bars as the mastermind badge counts categories. */
  lemma ChartLabelsAreCategories(h: seq<Result>)
    ensures Distinct(ChartOf(h).labels)
    ensures (set c | c in ChartOf(h).labels) == CompletedCategories(h)
    ensures |ChartOf(h).labels| == |CompletedCategories(h)|
  {
    var labels := Keys(h, NameOf);
    KeysDistinct(h, NameOf);
    forall c
      ensures c in labels <==> c in CompletedCategories(h)
    {
      KeysMembers(h, NameOf, c);
    }
    assert (set c | c in labels) == CompletedCategories(h);
    DistinctCardinality(labels);
  }

  /** Each bar is a percentage when the results are. */
  lemma ChartBarsArePercentages(h: seq<Result>, i: nat)
    requires Percentages(h) && i < |ChartOf(h).labels|
    ensures 0 <= ChartOf(h).data[i] <= 100
  {
    var c := ChartOf(h).labels[i];
    var sel := Select(h, NameOf, c);
    LabelHasResults(h, c);
    forall j | 0 <= j < |sel|
      ensures 0 <= PercentOf(sel[j]) <= 100
    {
      SelectMembers(h, NameOf, c, sel[j]);
    }
    SumBounds(sel, PercentOf, 100);
    RoundDivBounds(Sum(sel, PercentOf), |sel|, 100);
  }

  // ---------- displayQuizHistory ----------

  /** `history.reverse()`: the array reversed in place. */
  method Reverse(a: array<Result>)
    modifies a
    ensures a[..] == Seqs.Reversed(old(a[..]))
  {
    var n := a.Length;
    ghost var o := a[..];
    for i := 0 to n / 2
      invariant forall k :: 0 <= k < i ==> a[k] == o[n - 1 - k]
      invariant forall k :: 0 <= k < i ==> a[n - 1 - k] == o[k]
      invariant forall k :: i <= k < n - i ==> a[k] == o[k]
    {
      a[i], a[n - 1 - i] := a[n - 1 - i], a[i];
    }
    ghost var r := Seqs.Reversed(o);
    forall k | 0 <= k < n
      ensures a[k] == r[k]
    {
      if k >= n - n / 2 {
        assert a[n - 1 - (n - 1 - k)] == o[n - 1 - k];
      }
    }
  }

  datatype PageView =
    | NoTable
    | NoHistory
    | Shown(summary: Summary, chart: Option<Chart>, rows: seq<Result>)

  /** `displayQuizHistory`: without the table body nothing happens; with no
      results only the notice shows; otherwise the figures, badges and chart
      are computed from the stored order, and then the array is reversed and
      its rows listed in the new order. */
  method DisplayQuizHistory(history: array<Result>, hasTable: bool, hasCanvas: bool, shelf: BadgeShelf)
    returns (view: PageView)
    modifies history, shelf
    ensures !hasTable ==> view == NoTable
    ensures hasTable && history.Length == 0 ==> view == NoHistory
    ensures !hasTable || history.Length == 0 ==> history[..] == old(history[..]) && unchanged(shelf)
    ensures hasTable && history.Length > 0 ==>
      && view == Shown(SummaryOf(old(history[..])),
                       if hasCanvas then Some(ChartOf(old(history[..]))) else None,
                       history[..])
      && history[..] == Seqs.Reversed(old(history[..]))
      && shelf.goldLocked == (old(shelf.goldLocked) && !GoldMedal(old(history[..])))
      && shelf.scientistLocked == (old(shelf.scientistLocked) && !Scientist(old(history[..])))
      && shelf.mastermindLocked == (old(shelf.mastermindLocked) && !Mastermind(old(history[..])))
  {
    if !hasTable {
      return NoTable;
    }
    if history.Length == 0 {
      return NoHistory;
    }
    var stored := history[..];
    var summary := SummaryOf(stored);
    shelf.CheckAndDisplayBadges(stored);
    var chart := CategoryChart(stored, hasCanvas);
    Reverse(history);
    view := Shown(summary, chart, history[..]);
  }
}
