/**
  Reading the metric table (metrics/store.go): which rows answer a window, and how they are
  arranged into series. A query that names no step takes minute rows before the fold boundary
  and raw rows from it on.
*/
module MetricQuery {
  import opened MetricTable
  import opened Options
  import Ordering

  const DEFAULT_POINTS: nat := 720
  const MAX_POINTS: nat := 20_000

  /** An empty name asks for nothing in particular; a step of zero picks what still exists. */
  datatype Query = Query(scope: string, name: string, metric: string, from: Option<int>, to: Option<int>, step: int, limit: int)

  datatype Point = Point(time: nat, value: real)

  datatype Series = Series(name: Name, step: int, points: seq<Point>)

  predicate StepFits(q: Query, now: nat, k: Key) {
    if q.step > 0 then k.step == q.step
    else
      var folded := now - RAW_RETENTION;
      (k.step == RAW_STEP && k.time >= folded) || (k.step == MINUTE_STEP && k.time < folded)
  }

  predicate Selected(q: Query, now: nat, k: Key) {
    && StepFits(q, now, k)
    && (q.scope != "" ==> k.series.scope == q.scope)
    && (q.name != "" ==> k.series.name == q.name)
    && (q.metric != "" ==> k.series.metric == q.metric)
    && (q.from.Some? ==> k.time >= q.from.value)
    && (q.to.Some? ==> k.time <= q.to.value)
  }

  function Limit(q: Query): nat {
    if q.limit <= 0 then DEFAULT_POINTS else if q.limit > MAX_POINTS then MAX_POINTS else q.limit
  }

  /** `ORDER BY time_ms DESC LIMIT`: rows of one instant may come in any order. */
  ghost predicate IsSelection(table: Table, q: Query, now: nat, rows: seq<Key>) {
    && |rows| <= Limit(q)
    && (forall k :: k in rows ==> k in table && Selected(q, now, k))
    && (forall i, j :: 0 <= i < j < |rows| ==> rows[i] != rows[j] && rows[i].time >= rows[j].time)
    && (forall k :: k in table && Selected(q, now, k) && k !in rows ==>
          |rows| == Limit(q) && forall r :: r in rows ==> k.time <= r.time)
  }

  /** The points of one series, in the order of the rows. */
  function PointsOf(table: Table, rows: seq<Key>, name: Name): seq<Point>
    requires forall k :: k in rows ==> k in table
  {
    if rows == [] then []
    else
      var front, last := rows[..|rows| - 1], rows[|rows| - 1];
      assert forall k :: k in front ==> k in rows;
      PointsOf(table, front, name) + if last.series == name then [Point(last.time, table[last])] else []
  }

  ghost predicate HasRow(rows: seq<Key>, name: Name) {
    exists k :: k in rows && k.series == name
  }

  predicate NameAtMost(a: Name, b: Name) {
    if a.scope != b.scope then Ordering.Before(a.scope, b.scope)
    else if a.name != b.name then Ordering.Before(a.name, b.name)
    else Ordering.AtMost(a.metric, b.metric)
  }

  predicate SeriesAtMost(a: Series, b: Series) {
    NameAtMost(a.name, b.name)
  }

  /** Each series that has a row once, in the order of names, with its points oldest first. */
  ghost predicate IsAnswer(table: Table, q: Query, rows: seq<Key>, out: seq<Series>)
    requires forall k :: k in rows ==> k in table
  {
    && (forall i, j :: 0 <= i < j < |out| ==> out[i].name != out[j].name && NameAtMost(out[i].name, out[j].name))
    && (forall i :: 0 <= i < |out| ==> out[i].points == Ordering.Reversed(PointsOf(table, rows, out[i].name)))
    && (forall i :: 0 <= i < |out| ==> out[i].step == if q.step > 0 then q.step else RAW_STEP)
    && (forall k :: k in rows ==> exists i :: 0 <= i < |out| && out[i].name == k.series)
    && (forall i :: 0 <= i < |out| ==> HasRow(rows, out[i].name))
  }

  // The rows -------------------------------------------------------------------------------

  method SelectRows(table: Table, q: Query, now: nat) returns (rows: seq<Key>)
    ensures IsSelection(table, q, now, rows)
  {
    var left := set k | k in table && Selected(q, now, k);
    rows := [];
    while left != {} && |rows| < Limit(q)
      invariant |rows| <= Limit(q)
      invariant forall k :: k in left ==> k in table && Selected(q, now, k) && k !in rows && forall r :: r in rows ==> k.time <= r.time
      invariant forall k :: k in table && Selected(q, now, k) ==> k in left || k in rows
      invariant forall k :: k in rows ==> k in table && Selected(q, now, k)
      invariant forall i, j :: 0 <= i < j < |rows| ==> rows[i] != rows[j] && rows[i].time >= rows[j].time
      decreases |left|
    {
      var newest := NewestOf(left);
      rows := rows + [newest];
      left := left - {newest};
    }
  }

  // The series -------------------------------------------------------------------------------

  /** The series found so far, newest point first, and where each one is. */
  ghost predicate Grouped(table: Table, step: int, rows: seq<Key>, out: seq<Series>, index: map<Name, nat>)
    requires forall k :: k in rows ==> k in table
  {
    && (forall n :: n in index ==> index[n] < |out| && out[index[n]].name == n)
    && (forall i :: 0 <= i < |out| ==> out[i].name in index && index[out[i].name] == i)
    && (forall i :: 0 <= i < |out| ==> out[i].step == step && out[i].points == PointsOf(table, rows, out[i].name))
    && (forall k :: k in rows ==> k.series in index)
    && (forall n :: n in index ==> HasRow(rows, n))
  }

  /** A series without rows has no points. */
  lemma {:induction false} NoPoints(table: Table, rows: seq<Key>, name: Name)
    requires forall k :: k in rows ==> k in table && k.series != name
    ensures PointsOf(table, rows, name) == []
  {
    if rows == [] {
    } else {
      var front := rows[..|rows| - 1];
      assert forall k :: k in front ==> k in rows;
      NoPoints(table, front, name);
    }
  }

  lemma RowIsAdded(table: Table, rows: seq<Key>, k: Key, name: Name)
    requires (forall r :: r in rows ==> r in table) && k in table
    ensures forall r :: r in rows + [k] ==> r in table
    ensures PointsOf(table, rows + [k], name) ==
            PointsOf(table, rows, name) + if k.series == name then [Point(k.time, table[k])] else []
  {
    assert (rows + [k])[..|rows|] == rows;
  }

  method GroupRows(table: Table, step: int, rows: seq<Key>) returns (out: seq<Series>, index: map<Name, nat>)
    requires forall k :: k in rows ==> k in table
    ensures Grouped(table, step, rows, out, index)
  {
    out, index := [], map[];
    for i := 0 to |rows|
      invariant forall k :: k in rows[..i] ==> k in table
      invariant Grouped(table, step, rows[..i], out, index)
    {
      var k := rows[i];
      assert rows[..i + 1] == rows[..i] + [k];
      assert k in rows;
      out, index := AddRow(table, step, rows[..i], k, out, index);
    }
    assert rows[..|rows|] == rows;
  }

  /** One row more: to the series it belongs to, or to a new one at the end. */
  method AddRow(table: Table, step: int, ghost rows: seq<Key>, k: Key, series: seq<Series>, at: map<Name, nat>)
    returns (out: seq<Series>, index: map<Name, nat>)
    requires (forall r :: r in rows ==> r in table) && k in table && Grouped(table, step, rows, series, at)
    ensures (forall r :: r in rows + [k] ==> r in table) && Grouped(table, step, rows + [k], out, index)
  {
    hide PointsOf;
    forall n { RowIsAdded(table, rows, k, n); }
    out, index := series, at;
    if k.series !in index {
      NoPoints(table, rows, k.series);
      index := index[k.series := |out|];
      out := out + [Series(k.series, step, [])];
    }
    var i := index[k.series];
    out := out[i := out[i].(points := out[i].points + [Point(k.time, table[k])])];
    assert k in rows + [k];
    forall r | r in rows + [k] ensures r.series in index {
      assert r in rows || r == k;
    }
    forall n | n in index ensures HasRow(rows + [k], n) {
      if n != k.series {
        var r :| r in rows && r.series == n;
        assert r in rows + [k];
      }
    }
  }

  method ReversePoints(points: seq<Point>) returns (reversed: seq<Point>)
    ensures reversed == Ordering.Reversed(points)
  {
    var a := new Point[|points|](i requires 0 <= i < |points| => points[i]);
    assert a[..] == points;
    Ordering.ReverseInPlace(a);
    reversed := a[..];
  }

  method ReverseAll(series: seq<Series>) returns (out: seq<Series>)
    ensures |out| == |series|
    ensures forall i :: 0 <= i < |out| ==> out[i] == series[i].(points := Ordering.Reversed(series[i].points))
  {
    out := series;
    for i := 0 to |out|
      invariant |out| == |series|
      invariant forall j :: 0 <= j < |out| ==>
                  out[j] == if j < i then series[j].(points := Ordering.Reversed(series[j].points)) else series[j]
    {
      var reversed := ReversePoints(out[i].points);
      out := out[i := out[i].(points := reversed)];
    }
  }

  lemma NamesAreOrdered()
    ensures Ordering.TotalOrder(SeriesAtMost)
    ensures forall a, b :: NameAtMost(a, b) && NameAtMost(b, a) ==> a == b
  {
    Ordering.StringsAreOrdered();
    forall a, b ensures NameAtMost(a, b) || NameAtMost(b, a) {
      NamesCompare(a, b);
    }
    forall a, b | NameAtMost(a, b) && NameAtMost(b, a) ensures a == b {
      NamesCompare(a, b);
    }
    forall a, b, c | NameAtMost(a, b) && NameAtMost(b, c) ensures NameAtMost(a, c) {
      NamesChain(a, b, c);
    }
    forall a: Series, b: Series, c: Series | SeriesAtMost(a, b) && SeriesAtMost(b, c) ensures SeriesAtMost(a, c) {
      NamesChain(a.name, b.name, c.name);
    }
  }

  lemma NamesCompare(a: Name, b: Name)
    ensures NameAtMost(a, b) || NameAtMost(b, a)
    ensures NameAtMost(a, b) && NameAtMost(b, a) ==> a == b
  {
    Compare(a.scope, b.scope);
    Compare(a.name, b.name);
    Compare(a.metric, b.metric);
  }

  lemma Compare(a: string, b: string)
    ensures a == b || Ordering.Before(a, b) != Ordering.Before(b, a)
    ensures !(Ordering.Before(a, b) && Ordering.Before(b, a))
  {
    Ordering.BeforeIsTotal(a, b);
    if Ordering.Before(a, b) { Ordering.BeforeIsAsymmetric(a, b); }
    if Ordering.Before(b, a) { Ordering.BeforeIsAsymmetric(b, a); }
  }

  lemma NamesChain(a: Name, b: Name, c: Name)
    requires NameAtMost(a, b) && NameAtMost(b, c)
    ensures NameAtMost(a, c)
  {
    Chain(a.scope, b.scope, c.scope);
    Chain(a.name, b.name, c.name);
    Chain(a.metric, b.metric, c.metric);
  }

  lemma Chain(a: string, b: string, c: string)
    ensures Ordering.Before(a, b) && Ordering.Before(b, c) ==> Ordering.Before(a, c) && a != c
    ensures Ordering.AtMost(a, b) && Ordering.AtMost(b, c) ==> Ordering.AtMost(a, c)
  {
    if Ordering.Before(a, b) && Ordering.Before(b, c) {
      Ordering.BeforeIsTransitive(a, b, c);
      Ordering.BeforeIsAsymmetric(a, c);
    }
    Ordering.StringsAreOrdered();
  }

  lemma NamesStayDistinct(before: seq<Series>, after: seq<Series>)
    requires multiset(before) == multiset(after)
    requires forall i, j :: 0 <= i < j < |before| ==> before[i].name != before[j].name
    ensures forall i, j :: 0 <= i < j < |after| ==> after[i].name != after[j].name
    ensures forall x :: x in before <==> x in after
  {
    forall x ensures x in before <==> x in after {
      assert x in multiset(before) <==> x in multiset(after);
    }
    forall i, j | 0 <= i < j < |after| ensures after[i].name != after[j].name {
      if after[i] == after[j] {
        Ordering.RepeatCounts(after, i, j);
        Ordering.DistinctCount(before);
      } else {
        assert after[i] in before && after[j] in before;
      }
    }
  }

  lemma AnswerFollows(table: Table, q: Query, rows: seq<Key>, series: seq<Series>, index: map<Name, nat>, turned: seq<Series>, out: seq<Series>)
    requires forall k :: k in rows ==> k in table
    requires Grouped(table, if q.step > 0 then q.step else RAW_STEP, rows, series, index)
    requires |turned| == |series|
    requires forall i :: 0 <= i < |series| ==> turned[i] == series[i].(points := Ordering.Reversed(series[i].points))
    requires multiset(turned) == multiset(out) && Ordering.Sorted(out, SeriesAtMost)
    ensures IsAnswer(table, q, rows, out)
  {
    NamesStayDistinct(turned, out);
    forall i | 0 <= i < |out|
      ensures out[i].points == Ordering.Reversed(PointsOf(table, rows, out[i].name))
      ensures out[i].step == if q.step > 0 then q.step else RAW_STEP
      ensures HasRow(rows, out[i].name)
    {
      assert out[i] in turned;
      var j :| 0 <= j < |turned| && turned[j] == out[i];
      assert series[j].name in index;
    }
    forall k | k in rows ensures exists i :: 0 <= i < |out| && out[i].name == k.series {
      var j := index[k.series];
      assert turned[j] in out;
    }
  }

  /** The series are those of the newest rows the window selects, up to its limit. */
  ghost predicate Answers(table: Table, q: Query, now: nat, out: seq<Series>) {
    exists rows :: IsSelection(table, q, now, rows) && IsAnswer(table, q, rows, out)
  }

  /** A window, answered. */
  method Read(table: Table, q: Query, now: nat) returns (out: seq<Series>)
    ensures Answers(table, q, now, out)
  {
    var rows := SelectRows(table, q, now);
    var step := if q.step > 0 then q.step else RAW_STEP;
    var series, index := GroupRows(table, step, rows);
    var turned := ReverseAll(series);
    var a := new Series[|turned|](i requires 0 <= i < |turned| => turned[i]);
    assert a[..] == turned;
    Ordering.SortInPlace(a, SeriesAtMost);
    out := a[..];
    NamesAreOrdered();
    Ordering.SortPermutes(turned, SeriesAtMost);
    Ordering.SortSorts(turned, SeriesAtMost);
    AnswerFollows(table, q, rows, series, index, turned, out);
  }

  // What the answer shows ---------------------------------------------------------------

  /** The points of a series are the rows of it, no more and no fewer. */
  lemma {:induction false} PointsAreRows(table: Table, rows: seq<Key>, name: Name, p: Point)
    requires forall k :: k in rows ==> k in table
    ensures p in PointsOf(table, rows, name) <==> exists k :: k in rows && k.series == name && Point(k.time, table[k]) == p
  {
    if rows == [] {
    } else {
      var front, last := rows[..|rows| - 1], rows[|rows| - 1];
      assert rows == front + [last];
      PointsAreRows(table, front, name, p);
    }
  }

  /** Two rows of one series in one answer are of different instants. */
  lemma OneRowAnInstant(q: Query, now: nat, a: Key, b: Key)
    requires Selected(q, now, a) && Selected(q, now, b) && a.series == b.series && a.time == b.time
    ensures a == b
  {
  }

  ghost predicate Falling(points: seq<Point>) {
    forall i, j :: 0 <= i < j < |points| ==> points[i].time > points[j].time
  }

  lemma {:induction false} PointsFall(table: Table, q: Query, now: nat, rows: seq<Key>, name: Name)
    requires forall k :: k in rows ==> k in table && Selected(q, now, k)
    requires forall i, j :: 0 <= i < j < |rows| ==> rows[i] != rows[j] && rows[i].time >= rows[j].time
    ensures Falling(PointsOf(table, rows, name))
  {
    if rows == [] {
    } else {
      var front, last := rows[..|rows| - 1], rows[|rows| - 1];
      assert forall k :: k in front ==> k in rows;
      PointsFall(table, q, now, front, name);
      if last.series == name {
        forall p | p in PointsOf(table, front, name) ensures p.time > last.time {
          PointsAreRows(table, front, name, p);
          var k :| k in front && k.series == name && Point(k.time, table[k]) == p;
          if k.time == last.time { OneRowAnInstant(q, now, k, last); }
        }
      }
    }
  }

  lemma TurnedRises(points: seq<Point>)
    requires Falling(points)
    ensures forall a, b :: 0 <= a < b < |points| ==> Ordering.Reversed(points)[a].time < Ordering.Reversed(points)[b].time
  {
  }

  /**
    Each series of an answer rises strictly in time, across the stitch as well, and shows
    each of the chosen rows once.
  */
  lemma SeriesRise(table: Table, q: Query, now: nat, rows: seq<Key>, out: seq<Series>, i: nat)
    requires IsSelection(table, q, now, rows) && IsAnswer(table, q, rows, out) && i < |out|
    ensures forall a, b :: 0 <= a < b < |out[i].points| ==> out[i].points[a].time < out[i].points[b].time
    ensures forall p :: p in out[i].points <==> exists k :: k in rows && k.series == out[i].name && Point(k.time, table[k]) == p
  {
    hide PointsOf, Selected;
    PointsFall(table, q, now, rows, out[i].name);
    TurnedRises(PointsOf(table, rows, out[i].name));
    Ordering.ReversedKeepsMembers(PointsOf(table, rows, out[i].name));
    forall p ensures p in out[i].points <==> exists k :: k in rows && k.series == out[i].name && Point(k.time, table[k]) == p {
      PointsAreRows(table, rows, out[i].name, p);
    }
  }

  const EVERYTHING: Query := Query("", "", "", None, None, 0, 20_000)

  /**
    A full window that no limit cuts, asked no earlier than the last sweep (which folded up
    to `foldedTo`), is answered with every stored row except full detail older than six hours.
  */
  lemma FullWindowShowsEverything(table: Table, ever: set<Sample>, foldedTo: int, now: nat, rows: seq<Key>)
    requires Truthful(table, ever) && foldedTo <= now - RAW_RETENTION
    requires forall k :: k in table && k.step != RAW_STEP ==> k.time < foldedTo
    requires IsSelection(table, EVERYTHING, now, rows) && |table.Keys| <= MAX_POINTS
    ensures forall k :: k in rows <==> k in table && !OldRaw(k, now - RAW_RETENTION)
  {
    forall k | k in table && !OldRaw(k, now - RAW_RETENTION) ensures k in rows {
      if k !in rows {
        assert Selected(EVERYTHING, now, k);
        RowsAreKeys(rows, table.Keys - {k});
      }
    }
  }

  /** Right after a sweep there is no such detail, and nothing at all is left out. */
  lemma AfterASweepNothingIsLeftOut(before: Table, now: nat, retention: nat, maxRows: nat, ever: set<Sample>, foldedTo: int, rows: seq<Key>)
    requires var table := Stage(before, now - RAW_RETENTION, now - retention, maxRows, 4);
             && Truthful(table, ever) && |table.Keys| <= MAX_POINTS
             && (forall k :: k in table && k.step != RAW_STEP ==> k.time < foldedTo)
             && IsSelection(table, EVERYTHING, now, rows)
    requires foldedTo <= now - RAW_RETENTION
    ensures forall k :: k in rows <==> k in Stage(before, now - RAW_RETENTION, now - retention, maxRows, 4)
  {
    var table := Stage(before, now - RAW_RETENTION, now - retention, maxRows, 4);
    FullWindowShowsEverything(table, ever, foldedTo, now, rows);
    forall k | k in table ensures !OldRaw(k, now - RAW_RETENTION) {
      assert k in WithoutOldRaw(Folded(before, now - RAW_RETENTION), now - RAW_RETENTION);
    }
  }

  lemma {:induction false} RowsAreKeys(rows: seq<Key>, keys: set<Key>)
    requires forall i, j :: 0 <= i < j < |rows| ==> rows[i] != rows[j]
    requires forall k :: k in rows ==> k in keys
    ensures |rows| <= |keys|
  {
    if rows == [] {
    } else {
      var front, last := rows[..|rows| - 1], rows[|rows| - 1];
      assert forall k :: k in front ==> k in rows;
      assert last in rows && last !in front;
      RowsAreKeys(front, keys - {last});
    }
  }
}
