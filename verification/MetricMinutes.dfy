/**
  When a minute row is the average of its minute (metrics/store.go). A fold takes what is
  older than its boundary, and the boundary may fall anywhere: what decides is whether it
  falls between two minutes.
*/
module MetricMinutes {
  import opened MetricTable

  predicate Aligned(before: int) {
    before <= 0 || before % MINUTE_STEP == 0
  }

  lemma MinuteBounds(time: nat)
    ensures MinuteOf(time) % MINUTE_STEP == 0 && MinuteOf(time) <= time < MinuteOf(time) + MINUTE_STEP
  {
    assert MinuteOf(time) == time - time % MINUTE_STEP;
  }

  lemma NextMultiple(a: nat, b: int)
    requires a % MINUTE_STEP == 0 && b % MINUTE_STEP == 0 && a < b
    ensures a + MINUTE_STEP <= b
  {
  }

  /** A boundary leaves every minute on one side exactly when it falls between two. */
  lemma BoundarySplitsNoMinute(before: int)
    ensures (forall a: nat, b: nat :: MinuteOf(a) == MinuteOf(b) ==> (a < before <==> b < before)) <==> Aligned(before)
  {
    if Aligned(before) {
      forall a: nat, b: nat | MinuteOf(a) == MinuteOf(b) ensures a < before <==> b < before {
        if a < before { OnOneSide(a, b, before); }
        if b < before { OnOneSide(b, a, before); }
      }
    } else {
      InsideAMinute(before);
      var b: nat := before;
      assert MinuteOf(before - 1) == MinuteOf(b);
    }
  }

  lemma OnOneSide(a: nat, b: nat, before: int)
    requires Aligned(before) && MinuteOf(a) == MinuteOf(b) && a < before
    ensures b < before
  {
    MinuteBounds(a);
    MinuteBounds(b);
    NextMultiple(MinuteOf(a), before);
  }

  lemma InsideAMinute(before: int)
    requires !Aligned(before)
    ensures before > 0 && MinuteOf(before - 1) == MinuteOf(before) && MinuteOf(before) < before
  {
    assert before == MinuteOf(before) + before % MINUTE_STEP;
  }

  // One fold ------------------------------------------------------------------------------

  /** The full detail of a minute. */
  function RawOf(table: Table, minute: Key): set<Key> {
    set k | k in table && k.step == RAW_STEP && MinuteKey(k.series, k.time) == minute
  }

  /** What the fold writes are averages of whole minutes. */
  ghost predicate FoldsWholeMinutes(table: Table, before: int) {
    forall m :: m in Minutes(table, before) ==>
      RawOf(table, m) != {} && FoldedRow(table, before, m) == Average(table, RawOf(table, m))
  }

  lemma GroupIsWhole(table: Table, before: int, m: Key)
    requires Aligned(before) && m in Minutes(table, before)
    ensures Group(table, before, m) == RawOf(table, m) != {}
  {
    GroupsHaveRows(table, before);
    var k :| k in Group(table, before, m);
    forall other | other in RawOf(table, m) ensures OldRaw(other, before) {
      assert MinuteKey(other.series, other.time) == MinuteKey(k.series, k.time);
      OnOneSide(k.time, other.time, before);
    }
  }

  /** Over every table: a fold writes averages of whole minutes exactly when its boundary falls between two. */
  lemma FoldIsTheAverageExactlyWhen(before: int)
    ensures (forall table: Table :: FoldsWholeMinutes(table, before)) <==> Aligned(before)
  {
    if Aligned(before) {
      forall table: Table, m | m in Minutes(table, before)
        ensures RawOf(table, m) != {} && FoldedRow(table, before, m) == Average(table, RawOf(table, m))
      {
        GroupIsWhole(table, before, m);
      }
    } else {
      SplitMinute(before);
    }
  }

  /** One sample on each side of a boundary inside a minute. */
  lemma SplitMinute(before: int)
    requires !Aligned(before)
    ensures exists table: Table :: !FoldsWholeMinutes(table, before)
  {
    InsideAMinute(before);
    var series := Name("", "", "");
    var aged, young := Key(RAW_STEP, series, before - 1), Key(RAW_STEP, series, before);
    var table: Table := map[aged := 0.0, young := 1.0];
    var m := MinuteKey(series, before - 1);
    assert Group(table, before, m) == {aged};
    assert aged in table && OldRaw(aged, before);
    assert m in Minutes(table, before);
    assert RawOf(table, m) == {aged, young};
    SumSplits(table, {aged}, aged);
    SumSplits(table, {aged, young}, aged);
    SumSplits(table, {young}, young);
    assert {aged, young} - {aged} == {young} && {aged} - {aged} == {} && {young} - {young} == {};
    assert FoldedRow(table, before, m) == 0.0 / 1.0 == 0.0;
    assert Average(table, RawOf(table, m)) == 1.0 / 2.0;
    assert !FoldsWholeMinutes(table, before);
  }

  // Whole runs --------------------------------------------------------------------------------

  function AppendsNext(all: Table, e: Event): Table {
    if e.Appended? then Put(all, e.samples) else all
  }

  /** Everything appended, the last reading of an instant standing. */
  function Appends(events: seq<Event>): Table {
    if events == [] then map[] else AppendsNext(Appends(events[..|events| - 1]), events[|events| - 1])
  }

  function FoldedNext(foldedTo: int, e: Event): int {
    if e.Swept? && e.done > 0 then Max(foldedTo, e.now - RAW_RETENTION) else foldedTo
  }

  /** How far minutes have been folded. */
  function FoldedTo(events: seq<Event>): int {
    if events == [] then 0 else FoldedNext(FoldedTo(events[..|events| - 1]), events[|events| - 1])
  }

  /** Folds at boundaries between minutes, and no sample for a minute that is folded already. */
  predicate TidyStep(foldedTo: int, e: Event) {
    match e
    case Appended(samples) => forall s :: s in samples ==> s.time >= foldedTo
    case Swept(now, done) => done > 0 ==> Aligned(now - RAW_RETENTION)
  }

  predicate Tidy(events: seq<Event>) {
    events != [] ==> Tidy(events[..|events| - 1]) && TidyStep(FoldedTo(events[..|events| - 1]), events[|events| - 1])
  }

  ghost predicate SameValues(a: Table, b: Table, keys: set<Key>) {
    keys <= a.Keys && keys <= b.Keys && forall k :: k in keys ==> a[k] == b[k]
  }

  /** The detail of a minute is all there or all gone, and all there while the minute is not folded. */
  ghost predicate Intact(table: Table, all: Table, foldedTo: int) {
    && Aligned(foldedTo)
    && (forall k :: k in all ==> k.step == RAW_STEP)
    && (forall k :: k in table && k.step == RAW_STEP ==> k in all && table[k] == all[k])
    && (forall k :: k in all && k.time >= foldedTo ==> k in table)
    && (forall j, k :: j in all && k in all && MinuteKey(j.series, j.time) == MinuteKey(k.series, k.time) ==> (j in table <==> k in table))
  }

  ghost predicate Averaged(table: Table, all: Table, foldedTo: int) {
    forall m :: m in table && m.step != RAW_STEP ==> m.time < foldedTo && IsAverage(all, m, table[m])
  }

  ghost predicate IsAverage(all: Table, m: Key, value: real) {
    RawOf(all, m) != {} && value == Average(all, RawOf(all, m))
  }

  lemma {:induction false} SumsAgree(a: Table, b: Table, keys: set<Key>)
    requires SameValues(a, b, keys)
    ensures Sum(a, keys) == Sum(b, keys)
    decreases |keys|
  {
    if keys == {} {
    } else {
      var k :| k in keys;
      SumSplits(a, keys, k);
      SumSplits(b, keys, k);
      SumsAgree(a, b, keys - {k});
    }
  }

  lemma FoldAverages(table: Table, all: Table, foldedTo: int, before: int, m: Key)
    requires Intact(table, all, foldedTo) && Aligned(before) && m in Minutes(table, before)
    ensures IsAverage(all, m, FoldedRow(table, before, m)) && m.time < before
  {
    GroupIsWhole(table, before, m);
    var group := Group(table, before, m);
    var k :| k in group;
    MinuteBounds(k.time);
    forall j ensures j in group <==> j in RawOf(all, m) {
      if j in RawOf(all, m) {
        assert MinuteKey(j.series, j.time) == MinuteKey(k.series, k.time);
        assert j in table;
      }
    }
    assert group == RawOf(all, m);
    SumsAgree(table, all, group);
  }

  lemma FoldKeepsAverages(table: Table, all: Table, foldedTo: int, before: int)
    requires Intact(table, all, foldedTo) && Averaged(table, all, foldedTo) && Aligned(before)
    ensures Intact(Folded(table, before), all, Max(foldedTo, before)) && Averaged(Folded(table, before), all, Max(foldedTo, before))
  {
    hide IsAverage, FoldedRow;
    forall m | m in Minutes(table, before)
      ensures IsAverage(all, m, FoldedRow(table, before, m)) && m.time < before && m.step == MINUTE_STEP
    {
      FoldAverages(table, all, foldedTo, before, m);
    }
    var now := Folded(table, before);
    assert forall k: Key :: k.step == RAW_STEP ==> (k in now <==> k in table) && (k in now ==> now[k] == table[k]);
  }

  lemma DropKeepsAverages(table: Table, all: Table, foldedTo: int, before: int)
    requires Intact(table, all, foldedTo) && Averaged(table, all, foldedTo) && Aligned(before) && before <= foldedTo
    ensures Intact(WithoutOldRaw(table, before), all, foldedTo) && Averaged(WithoutOldRaw(table, before), all, foldedTo)
  {
    hide IsAverage;
    forall j, k | j in all && k in all && MinuteKey(j.series, j.time) == MinuteKey(k.series, k.time)
      ensures j in WithoutOldRaw(table, before) <==> k in WithoutOldRaw(table, before)
    {
      BoundarySplitsNoMinute(before);
      assert MinuteOf(j.time) == MinuteOf(k.time);
    }
  }

  /** Expiring rows older than what is left of the full detail takes minute rows only. */
  lemma ExpiryKeepsAverages(table: Table, all: Table, foldedTo: int, before: int, expire: int)
    requires Intact(table, all, foldedTo) && Averaged(table, all, foldedTo) && expire <= before
    requires forall k :: k in table ==> !OldRaw(k, before)
    ensures Intact(Since(table, expire), all, foldedTo) && Averaged(Since(table, expire), all, foldedTo)
  {
    hide IsAverage;
    var now := Since(table, expire);
    assert forall k: Key :: k.step == RAW_STEP ==> (k in now <==> k in table);
  }

  lemma SweepKeepsAverages(table: Table, all: Table, foldedTo: int, before: int, expire: int, maxRows: nat, done: nat)
    requires Intact(table, all, foldedTo) && Averaged(table, all, foldedTo) && expire <= before
    requires done > 0 ==> Aligned(before)
    requires |Stage(table, before, expire, maxRows, 3).Keys| <= maxRows
    ensures var now, to := Stage(table, before, expire, maxRows, done), if done > 0 then Max(foldedTo, before) else foldedTo;
            Intact(now, all, to) && Averaged(now, all, to)
  {
    hide Intact, Averaged, Folded, Since, Capped, Aligned;
    if done == 0 {
    } else {
      var to := Max(foldedTo, before);
      FoldKeepsAverages(table, all, foldedTo, before);
      var dropped := WithoutOldRaw(Folded(table, before), before);
      DropKeepsAverages(Folded(table, before), all, to, before);
      ExpiryKeepsAverages(dropped, all, to, before, expire);
      CapOverflows(Since(dropped, expire), maxRows);
    }
  }

  /** Some sample is for this instant of this series. */
  ghost predicate Touched(samples: seq<Sample>, k: Key) {
    exists s :: s in samples && RawKey(s) == k
  }

  lemma {:induction false} PutAgrees(table: Table, all: Table, samples: seq<Sample>, k: Key)
    ensures k in Put(table, samples) <==> k in table || Touched(samples, k)
    ensures Touched(samples, k) ==> k in Put(table, samples) && k in Put(all, samples) && Put(table, samples)[k] == Put(all, samples)[k]
    ensures !Touched(samples, k) && k in table ==> Put(table, samples)[k] == table[k]
  {
    if samples == [] {
    } else {
      var front, last := samples[..|samples| - 1], samples[|samples| - 1];
      PutAgrees(table, all, front, k);
      assert samples == front + [last];
      assert Touched(samples, k) <==> Touched(front, k) || RawKey(last) == k by {
        if Touched(front, k) {
          var s :| s in front && RawKey(s) == k;
          assert s in samples;
        }
        assert last in samples;
      }
    }
  }

  lemma AppendKeepsAverages(table: Table, all: Table, foldedTo: int, samples: seq<Sample>)
    requires Intact(table, all, foldedTo) && Averaged(table, all, foldedTo)
    requires forall s :: s in samples ==> s.time >= foldedTo
    ensures Intact(Put(table, samples), Put(all, samples), foldedTo) && Averaged(Put(table, samples), Put(all, samples), foldedTo)
  {
    forall k: Key
      ensures k in Put(table, samples) <==> k in table || Touched(samples, k)
      ensures k in Put(all, samples) <==> k in all || Touched(samples, k)
      ensures Touched(samples, k) ==> k.step == RAW_STEP && k.time >= foldedTo && Put(table, samples)[k] == Put(all, samples)[k]
      ensures !Touched(samples, k) && k in table ==> Put(table, samples)[k] == table[k]
      ensures !Touched(samples, k) && k in all ==> Put(all, samples)[k] == all[k]
    {
      PutAgrees(table, all, samples, k);
      PutAgrees(all, table, samples, k);
    }
    PutKeepsIntact(table, all, foldedTo, samples, Put(table, samples), Put(all, samples));
  }

  lemma PutKeepsIntact(table: Table, all: Table, foldedTo: int, samples: seq<Sample>, now: Table, more: Table)
    requires Intact(table, all, foldedTo) && Averaged(table, all, foldedTo)
    requires forall k: Key :: k in now <==> k in table || Touched(samples, k)
    requires forall k: Key :: k in more <==> k in all || Touched(samples, k)
    requires forall k: Key :: Touched(samples, k) ==> k.step == RAW_STEP && k.time >= foldedTo && k in now && k in more && now[k] == more[k]
    requires forall k: Key :: !Touched(samples, k) && k in table ==> now[k] == table[k]
    requires forall k: Key :: !Touched(samples, k) && k in all ==> more[k] == all[k]
    ensures Intact(now, more, foldedTo) && Averaged(now, more, foldedTo)
  {
    hide IsAverage, Touched;
    forall j, k | j in more && k in more && MinuteKey(j.series, j.time) == MinuteKey(k.series, k.time)
      ensures j in now <==> k in now
    {
      BoundarySplitsNoMinute(foldedTo);
      assert MinuteOf(j.time) == MinuteOf(k.time);
    }
    forall m | m in now && m.step != RAW_STEP ensures m.time < foldedTo && IsAverage(more, m, now[m]) {
      OldMinuteStays(all, more, foldedTo, m, table[m]);
    }
  }

  /** Samples at or after the boundary leave the minutes before it alone. */
  lemma OldMinuteStays(all: Table, more: Table, foldedTo: int, m: Key, value: real)
    requires Aligned(foldedTo) && m.time < foldedTo && IsAverage(all, m, value)
    requires forall k :: k in more && k.time < foldedTo ==> k in all && more[k] == all[k]
    requires forall k :: k in all ==> k in more
    ensures IsAverage(more, m, value)
  {
    forall k ensures k in RawOf(more, m) <==> k in RawOf(all, m) {
      if k in RawOf(more, m) {
        MinuteBounds(k.time);
        NextMultiple(m.time, foldedTo);
      }
    }
    forall k | k in RawOf(all, m) ensures k.time < foldedTo {
      MinuteBounds(k.time);
      NextMultiple(m.time, foldedTo);
    }
    assert RawOf(more, m) == RawOf(all, m);
    SumsAgree(more, all, RawOf(all, m));
  }

  lemma NextKeepsAverages(table: Table, all: Table, foldedTo: int, e: Event, retention: nat, maxRows: nat)
    requires Intact(table, all, foldedTo) && Averaged(table, all, foldedTo)
    requires Fits(table, e, retention, maxRows) && retention >= RAW_RETENTION && TidyStep(foldedTo, e)
    ensures var now, more, to := TableNext(table, e, retention, maxRows), AppendsNext(all, e), FoldedNext(foldedTo, e);
            Intact(now, more, to) && Averaged(now, more, to)
  {
    hide Intact, Averaged, Stage, Put;
    match e
    case Appended(samples) => AppendKeepsAverages(table, all, foldedTo, samples);
    case Swept(now, done) =>
      SweepKeepsAverages(table, all, foldedTo, now - RAW_RETENTION, now - retention, maxRows, done);
  }

  lemma {:induction false} RunKeepsAverages(events: seq<Event>, retention: nat, maxRows: nat)
    requires BelowTheLimit(events, retention, maxRows) && retention >= RAW_RETENTION && Tidy(events)
    ensures var table, all, to := TableAfter(events, retention, maxRows), Appends(events), FoldedTo(events);
            Intact(table, all, to) && Averaged(table, all, to)
  {
    if events == [] {
    } else {
      hide Intact, Averaged, Fits, TidyStep, TableNext, AppendsNext, FoldedNext;
      var front, last := events[..|events| - 1], events[|events| - 1];
      RunKeepsAverages(front, retention, maxRows);
      NextKeepsAverages(TableAfter(front, retention, maxRows), Appends(front), FoldedTo(front), last, retention, maxRows);
    }
  }

  /**
    Over any run of appends and sweeps below the row limit, with a retention of at least six
    hours, boundaries that fall between minutes and no sample for a minute folded already:
    every minute row is the average of that minute's samples, the last reading of an instant
    standing.
  */
  lemma EveryMinuteRowIsTheAverage(events: seq<Event>, retention: nat, maxRows: nat, m: Key)
    requires BelowTheLimit(events, retention, maxRows) && retention >= RAW_RETENTION && Tidy(events)
    requires m in TableAfter(events, retention, maxRows) && m.step == MINUTE_STEP
    ensures IsAverage(Appends(events), m, TableAfter(events, retention, maxRows)[m])
  {
    RunKeepsAverages(events, retention, maxRows);
  }
}
