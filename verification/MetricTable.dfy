/**
  The metric table (metrics/store.go) as a map, with two resolutions in it: full detail, and
  one row a minute for what a sweep has folded. Instants are milliseconds since 1970.
*/
module MetricTable {
  import opened Ordering

  const RAW_STEP: nat := 10_000
  const MINUTE_STEP: nat := 60_000
  const RAW_RETENTION: nat := 21_600_000

  datatype Name = Name(scope: string, name: string, metric: string)

  datatype Sample = Sample(series: Name, time: nat, value: real)

  /** The primary key of a row. */
  datatype Key = Key(step: nat, series: Name, time: nat)

  type Table = map<Key, real>

  function MinuteOf(time: nat): nat {
    time / MINUTE_STEP * MINUTE_STEP
  }

  function RawKey(s: Sample): Key {
    Key(RAW_STEP, s.series, s.time)
  }

  function MinuteKey(series: Name, time: nat): Key {
    Key(MINUTE_STEP, series, MinuteOf(time))
  }

  lemma MinuteStarts(time: nat)
    ensures MinuteOf(time) <= time && MinuteOf(MinuteOf(time)) == MinuteOf(time)
  {
  }

  /** INSERT OR REPLACE, sample by sample: the last reading of an instant stands. */
  function Put(table: Table, samples: seq<Sample>): Table {
    if samples == [] then table
    else var s := samples[|samples| - 1]; Put(table, samples[..|samples| - 1])[RawKey(s) := s.value]
  }

  // Averages -------------------------------------------------------------------------------

  ghost function Sum(table: Table, keys: set<Key>): real
    requires keys <= table.Keys
  {
    if keys == {} then 0.0 else var k :| k in keys; table[k] + Sum(table, keys - {k})
  }

  /** A sum may be taken in any order. */
  lemma {:induction false} SumSplits(table: Table, keys: set<Key>, k: Key)
    requires keys <= table.Keys && k in keys
    ensures Sum(table, keys) == table[k] + Sum(table, keys - {k})
    decreases |keys|
  {
    var first :| first in keys && Sum(table, keys) == table[first] + Sum(table, keys - {first});
    if first == k {
    } else {
      SumSplits(table, keys - {first}, k);
      SumSplits(table, keys - {k}, first);
      assert keys - {first} - {k} == keys - {k} - {first};
    }
  }

  ghost function Average(table: Table, keys: set<Key>): real
    requires keys <= table.Keys && keys != {}
  {
    Sum(table, keys) / |keys| as real
  }

  lemma {:induction false} SumIsBetween(table: Table, keys: set<Key>) returns (low: Key, high: Key)
    requires keys <= table.Keys && keys != {}
    ensures low in keys && high in keys
    ensures table[low] * |keys| as real <= Sum(table, keys) <= table[high] * |keys| as real
    decreases |keys|
  {
    var k :| k in keys;
    SumSplits(table, keys, k);
    low, high := k, k;
    if keys == {k} {
      assert keys - {k} == {};
    } else {
      var rest := keys - {k};
      var a, b := SumIsBetween(table, rest);
      var n := |rest| as real;
      assert |keys| as real == n + 1.0;
      if table[a] < table[k] { low := a; }
      if table[b] > table[k] { high := b; }
      OneMore(table[low], table[a], table[k], n);
      OneMore(-table[high], -table[b], -table[k], n);
      Negated(table[high], n + 1.0);
      Negated(table[b], n);
    }
  }

  lemma OneMore(x: real, y: real, v: real, n: real)
    requires x <= y && x <= v && n >= 0.0
    ensures x * (n + 1.0) <= y * n + v
  {
    Scaled(x, y, n);
    assert x * (n + 1.0) == x * n + x;
  }

  lemma Negated(x: real, n: real)
    ensures (-x) * n == -(x * n)
  {
  }

  lemma Scaled(x: real, y: real, n: real)
    requires x <= y && n >= 0.0
    ensures x * n <= y * n
  {
  }

  lemma Divided(low: real, sum: real, high: real, n: real)
    requires n > 0.0 && low * n <= sum <= high * n
    ensures low <= sum / n <= high
  {
    var mean := sum / n;
    assert mean * n == sum;
    if mean < low { Stretched(mean, low, n); }
    if mean > high { Stretched(high, mean, n); }
  }

  lemma Stretched(x: real, y: real, n: real)
    requires x < y && n > 0.0
    ensures x * n < y * n
  {
  }

  // Folding ------------------------------------------------------------------------------

  predicate OldRaw(k: Key, before: int) {
    k.step == RAW_STEP && k.time < before
  }

  /** The rows one minute row is folded from. */
  function Group(table: Table, before: int, minute: Key): set<Key> {
    set k | k in table && OldRaw(k, before) && MinuteKey(k.series, k.time) == minute
  }

  /** The minute rows a fold writes. */
  function Minutes(table: Table, before: int): set<Key> {
    set k | k in table && OldRaw(k, before) :: MinuteKey(k.series, k.time)
  }

  lemma GroupsHaveRows(table: Table, before: int)
    ensures forall m :: m in Minutes(table, before) ==> Group(table, before, m) != {}
  {
    forall m | m in Minutes(table, before) ensures Group(table, before, m) != {} {
      var k :| k in table && OldRaw(k, before) && MinuteKey(k.series, k.time) == m;
      assert k in Group(table, before, m);
    }
  }

  /** The average of a group; the fold replaces whatever row the minute had. */
  ghost function FoldedRow(table: Table, before: int, minute: Key): real
    requires minute in Minutes(table, before)
  {
    GroupsHaveRows(table, before);
    Average(table, Group(table, before, minute))
  }

  ghost function Folded(table: Table, before: int): Table {
    table + map m | m in Minutes(table, before) :: FoldedRow(table, before, m)
  }

  function WithoutOldRaw(table: Table, before: int): Table {
    map k | k in table && !OldRaw(k, before) :: table[k]
  }

  function Since(table: Table, bound: int): Table {
    map k | k in table && k.time >= bound :: table[k]
  }

  ghost function NewerThan(table: Table, time: int): set<Key> {
    set k | k in table && k.time > time
  }

  /** The row limit: a row goes when more than `maxRows` are newer. */
  ghost function Capped(table: Table, maxRows: nat): Table {
    map k | k in table && |NewerThan(table, k.time)| <= maxRows :: table[k]
  }

  /** The table after the first `done` statements of a sweep. */
  ghost function Stage(table: Table, foldBefore: int, expireBefore: int, maxRows: nat, done: nat): Table {
    if done == 0 then table
    else if done == 1 then Folded(table, foldBefore)
    else if done == 2 then WithoutOldRaw(Folded(table, foldBefore), foldBefore)
    else if done == 3 then Since(WithoutOldRaw(Folded(table, foldBefore), foldBefore), expireBefore)
    else Capped(Since(WithoutOldRaw(Folded(table, foldBefore), foldBefore), expireBefore), maxRows)
  }

  // What the table means -------------------------------------------------------------------

  /** Some sample of the series and the minute had at most this value, and some at least. */
  ghost predicate Witnessed(ever: set<Sample>, series: Name, minute: nat, value: real) {
    && (exists s :: s in ever && s.series == series && MinuteOf(s.time) == minute && s.value <= value)
    && (exists s :: s in ever && s.series == series && MinuteOf(s.time) == minute && s.value >= value)
  }

  /** A full-detail row is a sample; a minute row lies between samples of its minute. */
  ghost predicate Truthful(table: Table, ever: set<Sample>) {
    forall k :: k in table ==>
      if k.step == RAW_STEP then Sample(k.series, k.time, table[k]) in ever
      else k.step == MINUTE_STEP && MinuteOf(k.time) == k.time && Witnessed(ever, k.series, k.time, table[k])
  }

  /** Every sample from `cutoff` on has a row: its own, or its minute's. */
  ghost predicate Represented(table: Table, ever: set<Sample>, cutoff: int) {
    forall s :: s in ever && MinuteOf(s.time) >= cutoff ==> RawKey(s) in table || MinuteKey(s.series, s.time) in table
  }

  lemma {:induction false} PutKeys(table: Table, samples: seq<Sample>)
    ensures forall k :: k in Put(table, samples) <==> k in table || exists s :: s in samples && RawKey(s) == k
    ensures forall k :: k in Put(table, samples) ==>
              || (k in table && Put(table, samples)[k] == table[k])
              || exists s :: s in samples && RawKey(s) == k && s.value == Put(table, samples)[k]
  {
    if samples == [] {
    } else {
      var front, last := samples[..|samples| - 1], samples[|samples| - 1];
      PutKeys(table, front);
      assert samples == front + [last];
      var now, before := Put(table, samples), Put(table, front);
      forall k | k in now ensures (k in table && now[k] == table[k]) || exists s :: s in samples && RawKey(s) == k && s.value == now[k] {
        if k == RawKey(last) {
          assert last in samples;
        } else if !(k in table && before[k] == table[k]) {
          var s :| s in front && RawKey(s) == k && s.value == before[k];
          assert s in samples;
        }
      }
      forall k ensures k in now <==> k in table || exists s :: s in samples && RawKey(s) == k {
        if k in now && k !in table {
          if k != RawKey(last) {
            var s :| s in front && RawKey(s) == k;
            assert s in samples;
          } else {
            assert last in samples;
          }
        }
        if s :| s in samples && RawKey(s) == k {
          if s in front { assert k in before; } else { assert s == last; }
        }
      }
    }
  }

  lemma MoreSamplesWitness(ever: set<Sample>, more: set<Sample>, series: Name, minute: nat, value: real)
    requires ever <= more && Witnessed(ever, series, minute, value)
    ensures Witnessed(more, series, minute, value)
  {
    var a :| a in ever && a.series == series && MinuteOf(a.time) == minute && a.value <= value;
    var b :| b in ever && b.series == series && MinuteOf(b.time) == minute && b.value >= value;
    assert a in more && b in more;
  }

  lemma PutKeeps(table: Table, ever: set<Sample>, cutoff: int, samples: seq<Sample>)
    requires Truthful(table, ever) && Represented(table, ever, cutoff)
    ensures var more := ever + set s | s in samples;
            Truthful(Put(table, samples), more) && Represented(Put(table, samples), more, cutoff)
  {
    var more := ever + set s | s in samples;
    PutKeys(table, samples);
    var now := Put(table, samples);
    forall k | k in now
      ensures if k.step == RAW_STEP then Sample(k.series, k.time, now[k]) in more
              else k.step == MINUTE_STEP && MinuteOf(k.time) == k.time && Witnessed(more, k.series, k.time, now[k])
    {
      if k in table && now[k] == table[k] {
        if k.step != RAW_STEP { MoreSamplesWitness(ever, more, k.series, k.time, now[k]); }
      } else {
        var s :| s in samples && RawKey(s) == k && s.value == now[k];
        assert s == Sample(k.series, k.time, now[k]);
      }
    }
  }

  lemma FoldedRowIsWitnessed(table: Table, ever: set<Sample>, before: int, minute: Key)
    requires Truthful(table, ever) && minute in Minutes(table, before)
    ensures minute.step == MINUTE_STEP && MinuteOf(minute.time) == minute.time
    ensures Witnessed(ever, minute.series, minute.time, FoldedRow(table, before, minute))
  {
    GroupsHaveRows(table, before);
    var group := Group(table, before, minute);
    var low, high := SumIsBetween(table, group);
    Divided(table[low], Sum(table, group), table[high], |group| as real);
    MinuteStarts(low.time);
    var a, b := Sample(low.series, low.time, table[low]), Sample(high.series, high.time, table[high]);
    assert a in ever && b in ever;
  }

  /** Every full-detail row older than the boundary has its minute's row beside it. */
  ghost predicate FoldedUpTo(table: Table, before: int) {
    forall k :: k in table && OldRaw(k, before) ==> MinuteKey(k.series, k.time) in table
  }

  lemma FoldKeeps(table: Table, ever: set<Sample>, cutoff: int, before: int)
    requires Truthful(table, ever) && Represented(table, ever, cutoff)
    ensures Truthful(Folded(table, before), ever) && Represented(Folded(table, before), ever, cutoff)
    ensures FoldedUpTo(Folded(table, before), before)
  {
    var now := Folded(table, before);
    forall m | m in Minutes(table, before)
      ensures m.step == MINUTE_STEP && MinuteOf(m.time) == m.time && Witnessed(ever, m.series, m.time, now[m])
    {
      FoldedRowIsWitnessed(table, ever, before, m);
    }
    forall k | k in now && OldRaw(k, before) ensures MinuteKey(k.series, k.time) in now {
      assert k !in Minutes(table, before);
      assert MinuteKey(k.series, k.time) in Minutes(table, before);
    }
  }

  lemma DropKeeps(table: Table, ever: set<Sample>, cutoff: int, before: int)
    requires Truthful(table, ever) && Represented(table, ever, cutoff) && FoldedUpTo(table, before)
    ensures Truthful(WithoutOldRaw(table, before), ever) && Represented(WithoutOldRaw(table, before), ever, cutoff)
  {
    var now := WithoutOldRaw(table, before);
    forall s | s in ever && MinuteOf(s.time) >= cutoff ensures RawKey(s) in now || MinuteKey(s.series, s.time) in now {
      assert RawKey(s) in table ==> RawKey(s) in now || OldRaw(RawKey(s), before);
    }
  }

  function Max(a: int, b: int): int {
    if a < b then b else a
  }

  lemma SinceKeeps(table: Table, ever: set<Sample>, cutoff: int, bound: int)
    requires Truthful(table, ever) && Represented(table, ever, cutoff)
    ensures Truthful(Since(table, bound), ever) && Represented(Since(table, bound), ever, Max(cutoff, bound))
  {
    var now := Since(table, bound);
    forall s | s in ever && MinuteOf(s.time) >= Max(cutoff, bound) ensures RawKey(s) in now || MinuteKey(s.series, s.time) in now {
      MinuteStarts(s.time);
    }
  }

  // Over whole runs --------------------------------------------------------------------------

  /** A transaction of samples, or a sweep at `now` that got `done` statements far. */
  datatype Event = Appended(samples: seq<Sample>) | Swept(now: nat, done: nat)

  ghost function TableNext(table: Table, e: Event, retention: nat, maxRows: nat): Table {
    match e
    case Appended(samples) => Put(table, samples)
    case Swept(now, done) => Stage(table, now - RAW_RETENTION, now - retention, maxRows, done)
  }

  ghost function TableAfter(events: seq<Event>, retention: nat, maxRows: nat): Table {
    if events == [] then map[]
    else TableNext(TableAfter(events[..|events| - 1], retention, maxRows), events[|events| - 1], retention, maxRows)
  }

  function SamplesNext(ever: set<Sample>, e: Event): set<Sample> {
    ever + if e.Appended? then set s | s in e.samples else {}
  }

  function SamplesOf(events: seq<Event>): set<Sample> {
    if events == [] then {} else SamplesNext(SamplesOf(events[..|events| - 1]), events[|events| - 1])
  }

  /** What the sweep leaves once the old rows have expired is within the row limit. */
  ghost predicate Fits(table: Table, e: Event, retention: nat, maxRows: nat) {
    e.Swept? ==> |Stage(table, e.now - RAW_RETENTION, e.now - retention, maxRows, 3).Keys| <= maxRows
  }

  ghost predicate BelowTheLimit(events: seq<Event>, retention: nat, maxRows: nat) {
    events != [] ==>
      && BelowTheLimit(events[..|events| - 1], retention, maxRows)
      && Fits(TableAfter(events[..|events| - 1], retention, maxRows), events[|events| - 1], retention, maxRows)
  }

  lemma StageKeeps(table: Table, ever: set<Sample>, cutoff: int, before: int, expire: int, maxRows: nat, done: nat)
    requires Truthful(table, ever) && Represented(table, ever, cutoff) && expire <= cutoff
    requires |Stage(table, before, expire, maxRows, 3).Keys| <= maxRows
    ensures var now := Stage(table, before, expire, maxRows, done);
            Truthful(now, ever) && Represented(now, ever, cutoff)
  {
    hide Truthful, Represented, Folded, FoldedUpTo, WithoutOldRaw, Since, Capped;
    var folded := Folded(table, before);
    FoldKeeps(table, ever, cutoff, before);
    var dropped := WithoutOldRaw(folded, before);
    DropKeeps(folded, ever, cutoff, before);
    SinceKeeps(dropped, ever, cutoff, expire);
    CapOverflows(Since(dropped, expire), maxRows);
  }

  lemma NextKeeps(table: Table, ever: set<Sample>, e: Event, retention: nat, maxRows: nat, cutoff: int)
    requires Truthful(table, ever) && Represented(table, ever, cutoff)
    requires Fits(table, e, retention, maxRows) && (e.Swept? ==> e.now - retention <= cutoff)
    ensures Truthful(TableNext(table, e, retention, maxRows), SamplesNext(ever, e))
    ensures Represented(TableNext(table, e, retention, maxRows), SamplesNext(ever, e), cutoff)
  {
    hide Truthful, Represented, Put, Stage;
    match e
    case Appended(samples) => PutKeeps(table, ever, cutoff, samples);
    case Swept(now, done) =>
      StageKeeps(table, ever, cutoff, now - RAW_RETENTION, now - retention, maxRows, done);
      assert SamplesNext(ever, e) == ever;
  }

  /**
    Over any run of appends, late ones included, and sweeps, below the row limit: every
    sample whose minute starts no earlier than any sweep's expiry still has its own row or
    its minute's, and every minute row lies between samples of that minute.
  */
  lemma {:induction false} RunKeepsEverySample(events: seq<Event>, retention: nat, maxRows: nat, cutoff: int)
    requires BelowTheLimit(events, retention, maxRows)
    requires forall e :: e in events && e.Swept? ==> e.now - retention <= cutoff
    ensures Truthful(TableAfter(events, retention, maxRows), SamplesOf(events))
    ensures Represented(TableAfter(events, retention, maxRows), SamplesOf(events), cutoff)
  {
    if events == [] {
    } else {
      hide TableNext, SamplesNext, Fits, Truthful, Represented;
      var front, last := events[..|events| - 1], events[|events| - 1];
      assert events == front + [last];
      RunKeepsEverySample(front, retention, maxRows, cutoff);
      NextKeeps(TableAfter(front, retention, maxRows), SamplesOf(front), last, retention, maxRows, cutoff);
    }
  }

  lemma LoneRow(table: Table, before: int, k: Key)
    requires k in table && OldRaw(k, before)
    requires forall j :: j in table && OldRaw(j, before) ==> j == k
    ensures Folded(table, before) == table[MinuteKey(k.series, k.time) := table[k]]
  {
    var m := MinuteKey(k.series, k.time);
    assert Minutes(table, before) == {m};
    assert Group(table, before, m) == {k};
    SumSplits(table, {k}, k);
    assert {k} - {k} == {};
    assert FoldedRow(table, before, m) == table[k] / 1.0;
  }

  /**
    A minute's row need not be the average of the minute: the boundary of a fold may fall
    inside a minute, and the next one a daemon makes, a minute later, replaces the row with the
    average of the rest.
  */
  lemma MinuteForgetsItsStart(series: Name)
    ensures var table := map[Key(RAW_STEP, series, 0) := 0.0, Key(RAW_STEP, series, 10_000) := 3.0];
            var once := WithoutOldRaw(Folded(table, 5_000), 5_000);
            && once == map[Key(RAW_STEP, series, 10_000) := 3.0, Key(MINUTE_STEP, series, 0) := 0.0]
            && WithoutOldRaw(Folded(once, 65_000), 65_000) == map[Key(MINUTE_STEP, series, 0) := 3.0]
  {
    var first, second := Key(RAW_STEP, series, 0), Key(RAW_STEP, series, 10_000);
    LoneRow(map[first := 0.0, second := 3.0], 5_000, first);
    LoneRow(map[second := 3.0, Key(MINUTE_STEP, series, 0) := 0.0], 65_000, second);
  }

  // The row limit ---------------------------------------------------------------------------

  lemma {:induction false} ThereIsAnOldest(table: Table) returns (k: Key)
    requires table.Keys != {}
    ensures k in table && forall m :: m in table ==> k.time <= m.time
    decreases |table.Keys|
  {
    k :| k in table;
    if table.Keys == {k} {
    } else {
      var rest := table - {k};
      assert rest.Keys == table.Keys - {k};
      var other := ThereIsAnOldest(rest);
      if other.time < k.time { k := other; }
      forall m | m in table ensures k.time <= m.time {
        assert m in rest || m.time >= k.time;
      }
    }
  }

  /**
    The limit is not what is left. A sweep that finds more than `maxRows` rows leaves more
    than `maxRows` behind; one that finds no more leaves them all.
  */
  lemma {:induction false} CapOverflows(table: Table, maxRows: nat)
    ensures |table.Keys| > maxRows ==> |Capped(table, maxRows).Keys| > maxRows
    ensures |table.Keys| <= maxRows ==> Capped(table, maxRows) == table
    decreases |table.Keys|
  {
    if |table.Keys| <= maxRows + 1 {
      forall k | k in table ensures |NewerThan(table, k.time)| <= maxRows {
        SmallerSet(NewerThan(table, k.time) + {k}, table.Keys);
      }
      assert Capped(table, maxRows) == table;
    } else {
      var oldest := ThereIsAnOldest(table);
      var rest := table - {oldest};
      assert rest.Keys == table.Keys - {oldest};
      CapOverflows(rest, maxRows);
      forall k | k in Capped(rest, maxRows) ensures k in Capped(table, maxRows) {
        assert NewerThan(rest, k.time) == NewerThan(table, k.time);
      }
      SmallerSet(Capped(rest, maxRows).Keys, Capped(table, maxRows).Keys);
    }
  }

  method NewestOf(keys: set<Key>) returns (newest: Key)
    requires keys != {}
    ensures newest in keys && forall k :: k in keys ==> k.time <= newest.time
  {
    newest :| newest in keys;
    var todo := keys - {newest};
    while todo != {}
      invariant todo <= keys && newest in keys
      invariant forall k :: k in keys && k !in todo ==> k.time <= newest.time
      decreases |todo|
    {
      var k :| k in todo;
      todo := todo - {k};
      if newest.time < k.time { newest := k; }
    }
  }
}
