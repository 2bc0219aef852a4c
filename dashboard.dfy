/** The statistics dashboard (`dashboard.mjs`): overall totals, the per-category
    data with the best category, and the breakdown by activity type with
    per-category score and total sums. Division by a result's total is done
    in exact reals; rendering into the page is not modelled. */
module Dashboard {
  import opened Wrappers
  import opened Grouping
  import opened Rounding

  type Positive = n: int | n > 0 witness 1

  /** One stored quiz result as this page reads it: its category, score,
      number of questions and activity type. */
  datatype Attempt = Attempt(category: string, score: nat, total: Positive, activity: string)

  function CategoryOf(a: Attempt): string { a.category }
  function ActivityOf(a: Attempt): string { a.activity }
  function ScoreOf(a: Attempt): int { a.score }
  function TotalOf(a: Attempt): int { a.total }

  /** `item.score / item.total`. */
  function Ratio(a: Attempt): (r: real)
    ensures r >= 0.0
    ensures a.score <= a.total ==> r <= 1.0
  {
    a.score as real / a.total as real
  }

  /** The sum of the ratios of `xs`. */
  function SumRatios(xs: seq<Attempt>): (r: real)
    ensures r >= 0.0
  {
    if xs == [] then 0.0 else SumRatios(xs[..|xs| - 1]) + Ratio(xs[|xs| - 1])
  }

  lemma SumRatiosSnoc(xs: seq<Attempt>, x: Attempt)
    ensures SumRatios(xs + [x]) == SumRatios(xs) + Ratio(x)
  {
    assert (xs + [x])[..|xs|] == xs;
  }

  /** `totalPercentageSum`: the sum of `(score / total) * 100`. */
  function PercentSum(xs: seq<Attempt>): real
  {
    if xs == [] then 0.0 else PercentSum(xs[..|xs| - 1]) + Ratio(xs[|xs| - 1]) * 100.0
  }

  /** `Math.round` on an exact real: the nearest integer, halves rounding up. */
  function Round(x: real): int
  {
    (x + 0.5).Floor
  }

  // ---------- Per-category data and the best category ----------

  /** The accumulator object `{ totalScore, count }` of one category. */
  datatype CategoryAcc = CategoryAcc(totalScore: real, count: nat)

  /** What the accumulator of category `c` holds once every entry is folded in. */
  function AccOf(h: seq<Attempt>, c: string): CategoryAcc
  {
    var sel := Select(h, CategoryOf, c);
    CategoryAcc(SumRatios(sel), |sel|)
  }

  /** `acc[c].totalScore += score / total; acc[c].count++`. */
  function Add(acc: CategoryAcc, item: Attempt): CategoryAcc
  {
    CategoryAcc(acc.totalScore + Ratio(item), acc.count + 1)
  }

  /** The mean ratio of an accumulator. */
  function Mean(acc: CategoryAcc): real
    requires acc.count > 0
  {
    acc.totalScore / acc.count as real
  }

  predicate Listed(keys: seq<string>, data: map<string, CategoryAcc>)
  {
    forall k :: k in keys ==> k in data && data[k].count > 0
  }

  /** `keys[i]` has a maximal mean, and every earlier key a strictly smaller one. */
  predicate EarliestBest(keys: seq<string>, data: map<string, CategoryAcc>, i: int)
    requires Listed(keys, data)
  {
    && 0 <= i < |keys|
    && (forall j :: 0 <= j < |keys| ==> Mean(data[keys[j]]) <= Mean(data[keys[i]]))
    && (forall j :: 0 <= j < i ==> Mean(data[keys[j]]) < Mean(data[keys[i]]))
  }

  /** At most one position is the earliest best, so the name the loop picks
      is determined by the data and the key order. */
  lemma EarliestBestUnique(keys: seq<string>, data: map<string, CategoryAcc>, i: int, j: int)
    requires Listed(keys, data)
    requires EarliestBest(keys, data, i) && EarliestBest(keys, data, j)
    ensures i == j
  {
    var a, b := Mean(data[keys[i]]), Mean(data[keys[j]]);
    assert a <= b && b <= a;
  }

  /** The `categoryData` reduce: one accumulator per category, created on the
      category's first entry, then updated in place by every entry. */
  method CategoryData(h: seq<Attempt>) returns (keys: seq<string>, data: map<string, CategoryAcc>)
    ensures keys == Keys(h, CategoryOf)
    ensures forall k :: k in data <==> k in keys
    ensures forall k :: k in data ==> data[k] == AccOf(h, k)
  {
    keys, data := [], map[];
    for i := 0 to |h|
      invariant DataOf(h[..i], keys, data)
    {
      var item := h[i];
      DataStep(h[..i], item, keys, data);
      PrefixSnoc(h, i);
      var c := item.category;
      var acc;
      if c in data {
        acc := data[c];
      } else {
        acc := CategoryAcc(0.0, 0);
        keys := keys + [c];
      }
      data := data[c := Add(acc, item)];
    }
    assert h[..|h|] == h;
  }

  /** The state of the `categoryData` reduce once `prefix` is folded in. */
  ghost predicate DataOf(prefix: seq<Attempt>, keys: seq<string>, data: map<string, CategoryAcc>)
  {
    && keys == Keys(prefix, CategoryOf)
    && (forall k :: k in data <==> k in keys)
    && (forall k :: k in data ==> data[k] == AccOf(prefix, k))
  }

  /** Folding in one more entry, as the reduce's callback does, keeps `DataOf`. */
  lemma DataStep(prefix: seq<Attempt>, item: Attempt, keys: seq<string>, data: map<string, CategoryAcc>)
    requires DataOf(prefix, keys, data)
    ensures var c := item.category;
            var acc := if c in data then data[c] else CategoryAcc(0.0, 0);
            DataOf(prefix + [item], if c in data then keys else keys + [c], data[c := Add(acc, item)])
  {
    var c := item.category;
    KeysSnoc(prefix, item, CategoryOf);
    if c !in data {
      SelectAbsent(prefix, CategoryOf, c);
    }
    var acc := if c in data then data[c] else CategoryAcc(0.0, 0);
    var data' := data[c := Add(acc, item)];
    forall k | k in data'
      ensures data'[k] == AccOf(prefix + [item], k)
    {
      AccStepAt(prefix, item, k);
    }
  }

  /** One more entry changes only its own category's accumulator; a category
      seen for the first time starts from `{ totalScore: 0, count: 0 }`. */
  lemma AccStep(prefix: seq<Attempt>, item: Attempt)
    ensures item.category !in Keys(prefix, CategoryOf) ==> AccOf(prefix, item.category) == CategoryAcc(0.0, 0)
    ensures forall k :: AccOf(prefix + [item], k) == if k == item.category then Add(AccOf(prefix, k), item) else AccOf(prefix, k)
  {
    if item.category !in Keys(prefix, CategoryOf) {
      SelectAbsent(prefix, CategoryOf, item.category);
    }
    forall k {
      AccStepAt(prefix, item, k);
    }
  }

  lemma AccStepAt(prefix: seq<Attempt>, item: Attempt, k: string)
    ensures AccOf(prefix + [item], k) == if k == item.category then Add(AccOf(prefix, k), item) else AccOf(prefix, k)
  {
    SelectSnocAt(prefix, item, CategoryOf, k);
    if k == item.category {
      SumRatiosSnoc(Select(prefix, CategoryOf, k), item);
    }
  }

  /** The `for…in` loop over `categoryData`: starting from `{ name: "—",
      score: -1 }`, a category replaces the best one only with a strictly
      greater mean. */
  method BestCategory(keys: seq<string>, data: map<string, CategoryAcc>) returns (name: string)
    requires Listed(keys, data)
    requires forall k :: k in keys ==> data[k].totalScore >= 0.0
    ensures keys == [] ==> name == "—"
    ensures keys != [] ==> exists i :: EarliestBest(keys, data, i) && keys[i] == name
  {
    name := "—";
    var best := -1.0;
    ghost var at := -1;
    for j := 0 to |keys|
      invariant j == 0 ==> name == "—" && best == -1.0
      invariant j > 0 ==> 0 <= at < j && keys[at] == name && best == Mean(data[name])
      invariant j > 0 ==> forall m :: 0 <= m < j ==> Mean(data[keys[m]]) <= best
      invariant j > 0 ==> forall m :: 0 <= m < at ==> Mean(data[keys[m]]) < best
    {
      var acc := data[keys[j]];
      var avg := acc.totalScore / acc.count as real;
      assert avg == Mean(acc) >= 0.0;
      if avg > best {
        name, best, at := keys[j], avg, j;
      }
    }
    if keys != [] {
      assert EarliestBest(keys, data, at);
    }
  }

  // ---------- calculateStats ----------

  datatype Stats = Stats(totalQuizzes: nat, averageScore: int, bestCategoryName: string,
                         categoryKeys: seq<string>, categoryData: map<string, CategoryAcc>)

  /** Everything `calculateStats` promises about its result. */
  ghost predicate StatsOf(h: seq<Attempt>, s: Stats)
  {
    && s.totalQuizzes == |h|
    && s.averageScore == (if |h| > 0 then Round(PercentSum(h) / |h| as real) else 0)
    && s.categoryKeys == Keys(h, CategoryOf)
    && (forall k :: k in s.categoryData <==> k in s.categoryKeys)
    && (forall k :: k in s.categoryData ==> s.categoryData[k] == AccOf(h, k))
    && (h == [] ==> s.bestCategoryName == "—")
    && (h != [] ==> Listed(s.categoryKeys, s.categoryData)
                    && exists i :: EarliestBest(s.categoryKeys, s.categoryData, i)
                                   && s.categoryKeys[i] == s.bestCategoryName)
  }

  /** Every listed category has at least one entry. */
  lemma {:induction false} ListedCategories(h: seq<Attempt>, k: string)
    requires k in Keys(h, CategoryOf)
    ensures |Select(h, CategoryOf, k)| > 0
  {
    KeysMembers(h, CategoryOf, k);
    var i :| 0 <= i < |h| && CategoryOf(h[i]) == k;
    SelectMembers(h, CategoryOf, k, h[i]);
  }

  method CalculateStats(h: seq<Attempt>) returns (s: Stats)
    ensures StatsOf(h, s)
  {
    var totalQuizzes := |h|;
    var averageScore := if totalQuizzes > 0 then Round(PercentSum(h) / totalQuizzes as real) else 0;
    var keys, data := CategoryData(h);
    forall k | k in keys
      ensures data[k].count > 0
    {
      ListedCategories(h, k);
    }
    var best := BestCategory(keys, data);
    s := Stats(totalQuizzes, averageScore, best, keys, data);
  }

  /** Two results that both meet `calculateStats`'s promise are the same: the
      best category is determined, ties going to the earliest key. */
  lemma StatsDetermined(h: seq<Attempt>, s: Stats, t: Stats)
    requires StatsOf(h, s) && StatsOf(h, t)
    ensures s == t
  {
    assert s.categoryData == t.categoryData;
    if h != [] {
      var i :| EarliestBest(s.categoryKeys, s.categoryData, i) && s.categoryKeys[i] == s.bestCategoryName;
      var j :| EarliestBest(t.categoryKeys, t.categoryData, j) && t.categoryKeys[j] == t.bestCategoryName;
      EarliestBestUnique(s.categoryKeys, s.categoryData, i, j);
    }
  }

  /** The category counts add up to the number of results. */
  lemma CountsAddUp(h: seq<Attempt>)
    ensures GroupSums(Keys(h, CategoryOf), h, CategoryOf, One) == |h|
  {
    Grouping.CountsAddUp(h, CategoryOf);
  }

  /** With no score above its total, the sum of percentages is at most
      100 per result. */
  lemma {:induction false} PercentSumBounds(h: seq<Attempt>)
    requires forall i :: 0 <= i < |h| ==> h[i].score <= h[i].total
    ensures 0.0 <= PercentSum(h) <= 100.0 * |h| as real
  {
    if h != [] {
      PercentSumBounds(h[..|h| - 1]);
      var r := Ratio(h[|h| - 1]);
      assert 0.0 <= r * 100.0 <= 100.0;
    }
  }

  /** With no score above its total, the average score is a percentage. */
  lemma AverageIsPercentage(h: seq<Attempt>, s: Stats)
    requires forall i :: 0 <= i < |h| ==> h[i].score <= h[i].total
    requires StatsOf(h, s)
    ensures 0 <= s.averageScore <= 100
  {
    if h != [] {
      PercentSumBounds(h);
      var n := |h| as real;
      MeanBound(PercentSum(h), n);
    }
  }

  lemma MeanBound(p: real, n: real)
    requires n >= 1.0 && 0.0 <= p <= 100.0 * n
    ensures 0 <= Round(p / n) <= 100
  {
    assert p / n <= 100.0;
  }

  // ---------- Activity breakdown ----------

  /** The `activities` reduce: the results grouped by type, each group in the
      original order. */
  method Activities(h: seq<Attempt>) returns (types: seq<string>, groups: map<string, seq<Attempt>>)
    ensures types == Keys(h, ActivityOf)
    ensures forall t :: t in groups <==> t in types
    ensures forall t :: t in groups ==> groups[t] == Select(h, ActivityOf, t)
  {
    types, groups := [], map[];
    for i := 0 to |h|
      invariant types == Keys(h[..i], ActivityOf)
      invariant forall t :: t in groups <==> t in types
      invariant forall t :: t in groups ==> groups[t] == Select(h[..i], ActivityOf, t)
    {
      var item := h[i];
      var prefix := h[..i];
      PrefixSnoc(h, i);
      KeysSnoc(prefix, item, ActivityOf);
      if item.activity !in groups {
        SelectAbsent(prefix, ActivityOf, item.activity);
        groups := groups[item.activity := []];
        types := types + [item.activity];
      }
      groups := groups[item.activity := groups[item.activity] + [item]];
      forall t | t in groups
        ensures groups[t] == Select(h[..i + 1], ActivityOf, t)
      {
        SelectSnocAt(prefix, item, ActivityOf, t);
      }
    }
    assert h[..|h|] == h;
  }

  /** A category's `{ score, total }` inside one activity. */
  datatype ScoreTotal = ScoreTotal(score: int, total: int)

  /** `acc[c].score += item.score; acc[c].total += item.total`. */
  function AddTo(st: ScoreTotal, item: Attempt): ScoreTotal
  {
    ScoreTotal(st.score + item.score, st.total + item.total)
  }

  function ScoreTotalOf(g: seq<Attempt>, c: string): ScoreTotal
  {
    var sel := Select(g, CategoryOf, c);
    ScoreTotal(Sum(sel, ScoreOf), Sum(sel, TotalOf))
  }

  /** The `categoryStats` reduce over one activity's results. */
  method CategoryStats(g: seq<Attempt>) returns (cats: seq<string>, stats: map<string, ScoreTotal>)
    ensures cats == Keys(g, CategoryOf)
    ensures forall c :: c in stats <==> c in cats
    ensures forall c :: c in stats ==> stats[c] == ScoreTotalOf(g, c)
  {
    cats, stats := [], map[];
    for i := 0 to |g|
      invariant cats == Keys(g[..i], CategoryOf)
      invariant forall c :: c in stats <==> c in cats
      invariant forall c :: c in stats ==> stats[c] == ScoreTotalOf(g[..i], c)
    {
      var item := g[i];
      var prefix := g[..i];
      PrefixSnoc(g, i);
      KeysSnoc(prefix, item, CategoryOf);
      if item.category !in stats {
        SelectAbsent(prefix, CategoryOf, item.category);
        stats := stats[item.category := ScoreTotal(0, 0)];
        cats := cats + [item.category];
      }
      stats := stats[item.category := AddTo(stats[item.category], item)];
      forall c | c in stats
        ensures stats[c] == ScoreTotalOf(g[..i + 1], c)
      {
        ScoreTotalStepAt(prefix, item, c);
      }
    }
    assert g[..|g|] == g;
  }

  /** One more entry adds its score and total to its own category only; a
      category seen for the first time starts from `{ score: 0, total: 0 }`. */
  lemma ScoreTotalStep(prefix: seq<Attempt>, item: Attempt)
    ensures item.category !in Keys(prefix, CategoryOf) ==> ScoreTotalOf(prefix, item.category) == ScoreTotal(0, 0)
    ensures forall c :: ScoreTotalOf(prefix + [item], c) == if c == item.category then AddTo(ScoreTotalOf(prefix, c), item) else ScoreTotalOf(prefix, c)
  {
    if item.category !in Keys(prefix, CategoryOf) {
      SelectAbsent(prefix, CategoryOf, item.category);
    }
    forall c {
      ScoreTotalStepAt(prefix, item, c);
    }
  }

  lemma ScoreTotalStepAt(prefix: seq<Attempt>, item: Attempt, c: string)
    ensures ScoreTotalOf(prefix + [item], c) == if c == item.category then AddTo(ScoreTotalOf(prefix, c), item) else ScoreTotalOf(prefix, c)
  {
    SelectSnocAt(prefix, item, CategoryOf, c);
    if c == item.category {
      var sel := Select(prefix, CategoryOf, c);
      SumSnoc(sel, item, ScoreOf);
      SumSnoc(sel, item, TotalOf);
    }
  }

  /** A sum of totals over a non-empty list is positive. */
  lemma {:induction false} TotalsPositive(xs: seq<Attempt>)
    requires xs != []
    ensures Sum(xs, TotalOf) > 0
  {
    if |xs| > 1 {
      TotalsPositive(xs[..|xs| - 1]);
    }
  }

  /** Every listed category of a group has a positive total. */
  lemma CategoryTotalPositive(g: seq<Attempt>, c: string)
    requires c in Keys(g, CategoryOf)
    ensures ScoreTotalOf(g, c).total > 0
  {
    ListedCategories(g, c);
    TotalsPositive(Select(g, CategoryOf, c));
  }

  /** One line of an activity card: name, score, total and the rounded percentage. */
  datatype Row = Row(name: string, score: int, total: int, percentage: int)

  /** One card: the activity type and its category rows, in key order. */
  datatype Card = Card(activity: string, rows: seq<Row>)

  /** `Math.round((score / total) * 100)`. */
  function Percentage(st: ScoreTotal): int
    requires st.total > 0
  {
    RoundDiv(100 * st.score, st.total)
  }

  function RowOf(g: seq<Attempt>, c: string): Row
    requires c in Keys(g, CategoryOf)
  {
    CategoryTotalPositive(g, c);
    var st := ScoreTotalOf(g, c);
    Row(c, st.score, st.total, Percentage(st))
  }

  function CardOf(h: seq<Attempt>, t: string): Card
  {
    var g := Select(h, ActivityOf, t);
    var cats := Keys(g, CategoryOf);
    Card(t, seq(|cats|, j requires 0 <= j < |cats| => RowOf(g, cats[j])))
  }

  /** The cards of the breakdown, one per activity type in first-occurrence order. */
  function Breakdown(h: seq<Attempt>): seq<Card>
  {
    var types := Keys(h, ActivityOf);
    seq(|types|, i requires 0 <= i < |types| => CardOf(h, types[i]))
  }

  /** One pass of the `for…in` loop: the type's category sums and its card. */
  method ActivityCard(h: seq<Attempt>, t: string, g: seq<Attempt>) returns (card: Card)
    requires g == Select(h, ActivityOf, t)
    ensures card == CardOf(h, t)
  {
    var cats, stats := CategoryStats(g);
    var rows: seq<Row> := [];
    for j := 0 to |cats|
      invariant |rows| == j
      invariant forall m :: 0 <= m < j ==> rows[m] == RowOf(g, cats[m])
    {
      var c := cats[j];
      var st := stats[c];
      CategoryTotalPositive(g, c);
      rows := rows + [Row(c, st.score, st.total, Percentage(st))];
    }
    card := Card(t, rows);
  }

  /** `displayActivityBreakdown`: nothing without its container, otherwise
      one card per activity type. */
  method ActivityBreakdown(h: seq<Attempt>, hasContainer: bool) returns (cards: Option<seq<Card>>)
    ensures !hasContainer ==> cards == None
    ensures hasContainer ==> cards == Some(Breakdown(h))
  {
    if !hasContainer {
      return None;
    }
    var types, groups := Activities(h);
    var out: seq<Card> := [];
    for i := 0 to |types|
      invariant |out| == i
      invariant forall m :: 0 <= m < i ==> out[m] == CardOf(h, types[m])
    {
      var card := ActivityCard(h, types[i], groups[types[i]]);
      out := out + [card];
    }
    assert out == Breakdown(h);
    cards := Some(out);
  }

  /** Every result sits in exactly one activity group: the group of its own
      type, and no group holds a result of another type. */
  lemma OneGroupEach(h: seq<Attempt>, i: nat, t: string)
    requires i < |h| && t in Keys(h, ActivityOf)
    ensures h[i].activity in Keys(h, ActivityOf)
    ensures h[i] in Select(h, ActivityOf, t) <==> h[i].activity == t
  {
    KeysMembers(h, ActivityOf, h[i].activity);
    SelectMembers(h, ActivityOf, t, h[i]);
  }

  /** The activity groups hold all results between them. */
  lemma GroupSizesAddUp(h: seq<Attempt>)
    ensures GroupSums(Keys(h, ActivityOf), h, ActivityOf, One) == |h|
  {
    Grouping.CountsAddUp(h, ActivityOf);
  }

  /** Within one activity, the category scores and totals add up to the
      activity's overall score and total. */
  lemma CategorySumsAddUp(h: seq<Attempt>, t: string)
    ensures var g := Select(h, ActivityOf, t);
            && GroupSums(Keys(g, CategoryOf), g, CategoryOf, ScoreOf) == Sum(g, ScoreOf)
            && GroupSums(Keys(g, CategoryOf), g, CategoryOf, TotalOf) == Sum(g, TotalOf)
  {
    var g := Select(h, ActivityOf, t);
    Partition(g, CategoryOf, ScoreOf);
    Partition(g, CategoryOf, TotalOf);
  }

  // ---------- initDashboard ----------

  datatype View = NoHistory | Shown(stats: Stats, breakdown: Option<seq<Card>>)

  /** `initDashboard`: an empty history shows the notice and stops before
      any statistics are computed. */
  method InitDashboard(h: seq<Attempt>, hasContainer: bool) returns (view: View)
    ensures view.NoHistory? <==> h == []
    ensures view.Shown? ==> StatsOf(h, view.stats)
    ensures view.Shown? ==> view.breakdown == (if hasContainer then Some(Breakdown(h)) else None)
  {
    if |h| == 0 {
      return NoHistory;
    }
    var stats := CalculateStats(h);
    var cards := ActivityBreakdown(h, hasContainer);
    view := Shown(stats, cards);
  }
}
