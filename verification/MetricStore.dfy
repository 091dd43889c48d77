/**
  The metric store as the daemon keeps it (metrics/store.go): appends that carry the
  maintenance with them, and the sweep, statement by statement. A statement that fails leaves
  the table as it was and ends the sweep.
*/
module MetricStore {
  import opened MetricTable
  import opened Options
  import opened Ordering

  const SWEEP_INTERVAL: nat := 60_000
  const DEFAULT_RETENTION: nat := 1_209_600_000
  const DEFAULT_MAX_ROWS: nat := 2_000_000

  method SumOf(table: Table, keys: set<Key>) returns (sum: real)
    requires keys <= table.Keys
    ensures sum == Sum(table, keys)
  {
    var left := keys;
    sum := 0.0;
    while left != {}
      invariant left <= keys && sum + Sum(table, left) == Sum(table, keys)
      decreases |left|
    {
      var k :| k in left;
      SumSplits(table, left, k);
      sum := sum + table[k];
      left := left - {k};
    }
  }

  /** The minute rows of a fold, group by group. */
  method FoldGroups(table: Table, before: int) returns (rows: Table)
    ensures rows.Keys == Minutes(table, before)
    ensures forall m :: m in Minutes(table, before) ==> rows[m] == FoldedRow(table, before, m)
  {
    var todo := Minutes(table, before);
    rows := map[];
    GroupsHaveRows(table, before);
    while todo != {}
      invariant todo <= Minutes(table, before) && rows.Keys == Minutes(table, before) - todo
      invariant forall m :: m in rows ==> rows[m] == FoldedRow(table, before, m)
      decreases |todo|
    {
      var m :| m in todo;
      todo := todo - {m};
      var group := Group(table, before, m);
      var sum := SumOf(table, group);
      rows := rows[m := sum / |group| as real];
    }
  }

  /** `ORDER BY time_ms DESC LIMIT 1 OFFSET n`; which of several rows of one instant comes first is open. */
  method NthNewest(table: Table, n: nat) returns (bound: Option<int>)
    ensures bound.None? <==> |table.Keys| <= n
    ensures bound.Some? ==> forall k :: k in table ==> (k.time < bound.value <==> |NewerThan(table, k.time)| > n)
  {
    if |table.Keys| <= n { return None; }
    var left := table.Keys;
    for i := 0 to n
      invariant left <= table.Keys && |left| == |table.Keys| - i
      invariant forall a, b :: a in left && b in table && b !in left ==> a.time <= b.time
    {
      var newest := NewestOf(left);
      left := left - {newest};
    }
    var it := NewestOf(left);
    forall k | k in table ensures k.time < it.time <==> |NewerThan(table, k.time)| > n {
      if k.time < it.time {
        SmallerSet(table.Keys - left + {it}, NewerThan(table, k.time));
      } else {
        SmallerSet(NewerThan(table, k.time), table.Keys - left);
      }
    }
    return Some(it.time);
  }

  class Store {
    const retention: nat
    const maxRows: nat
    var table: Table
    var lastSweep: Option<nat>
    // Every sample ever committed; the highest instant below which rows may be gone; and how
    // far minutes have been folded.
    ghost var ever: set<Sample>
    ghost var cutoff: int
    ghost var foldedTo: int

    ghost predicate Valid()
      reads this
    {
      && Truthful(table, ever) && Represented(table, ever, cutoff)
      && (forall k :: k in table && k.step != RAW_STEP ==> k.time < foldedTo)
    }

    constructor (retentionWanted: int, rowsWanted: int)
      ensures Valid() && table == map[] && lastSweep == None && ever == {} && cutoff == 0 && foldedTo == 0
      ensures retention == if retentionWanted <= 0 then DEFAULT_RETENTION else retentionWanted
      ensures maxRows == if rowsWanted <= 0 then DEFAULT_MAX_ROWS else rowsWanted
    {
      retention := if retentionWanted <= 0 then DEFAULT_RETENTION else retentionWanted;
      maxRows := if rowsWanted <= 0 then DEFAULT_MAX_ROWS else rowsWanted;
      table, lastSweep, ever, cutoff, foldedTo := map[], None, {}, 0, 0;
    }

    method Fold(before: int)
      requires Valid()
      modifies this`table, this`foldedTo
      ensures Valid() && table == Folded(old(table), before) && FoldedUpTo(table, before)
      ensures foldedTo == Max(old(foldedTo), before)
    {
      hide Truthful, Represented, FoldedUpTo, FoldedRow, Minutes;
      var rows := FoldGroups(table, before);
      FoldKeeps(table, ever, cutoff, before);
      FoldedTimes(table, before);
      assert table + rows == Folded(table, before);
      table := table + rows;
      foldedTo := Max(foldedTo, before);
    }

    method DropFolded(before: int)
      requires Valid() && FoldedUpTo(table, before)
      modifies this`table
      ensures Valid() && table == WithoutOldRaw(old(table), before)
    {
      DropKeeps(table, ever, cutoff, before);
      table := WithoutOldRaw(table, before);
    }

    method DropBefore(bound: int)
      requires Valid()
      modifies this`table, this`cutoff
      ensures Valid() && table == Since(old(table), bound) && cutoff == Max(old(cutoff), bound)
    {
      SinceKeeps(table, ever, cutoff, bound);
      table := Since(table, bound);
      cutoff := Max(cutoff, bound);
    }

    method ApplyRowLimit()
      requires Valid()
      modifies this`table, this`cutoff
      ensures Valid() && table == Capped(old(table), maxRows) && cutoff >= old(cutoff)
      ensures |old(table).Keys| <= maxRows ==> cutoff == old(cutoff)
    {
      var bound := NthNewest(table, maxRows);
      CapOverflows(table, maxRows);
      if bound.Some? {
        assert Since(table, bound.value) == Capped(table, maxRows);
        DropBefore(bound.value);
      }
    }

    /** Folds what is older than six hours, drops it, then applies both ceilings. */
    method Sweep(now: nat) returns (ok: bool, ghost done: nat)
      requires Valid()
      modifies this`table, this`cutoff, this`foldedTo
      ensures Valid() && done <= 4 && (ok ==> done == 4)
      ensures table == Stage(old(table), now - RAW_RETENTION, now - retention, maxRows, done)
      ensures cutoff >= old(cutoff) && foldedTo == (if done == 0 then old(foldedTo) else Max(old(foldedTo), now - RAW_RETENTION))
      // Below the row limit, only what is past its retention may be gone.
      ensures done < 4 || |Stage(old(table), now - RAW_RETENTION, now - retention, maxRows, 3).Keys| <= maxRows ==>
                cutoff == if done < 3 then old(cutoff) else Max(old(cutoff), now - retention)
    {
      hide Folded, WithoutOldRaw, Since, Capped, Truthful, Represented, FoldedUpTo;
      var foldBefore, expireBefore := now - RAW_RETENTION, now - retention;
      done, ok := 0, *;
      if !ok { return; }
      Fold(foldBefore);
      done, ok := 1, *;
      if !ok { return; }
      DropFolded(foldBefore);
      done, ok := 2, *;
      if !ok { return; }
      DropBefore(expireBefore);
      done, ok := 3, *;
      if !ok { return; }
      ApplyRowLimit();
      done, ok := 4, *;
    }

    /** Sweeps as part of an append, at most once a minute of the samples' own time. */
    method Maintain(now: nat) returns (ok: bool, ghost done: nat)
      requires Valid()
      modifies this`table, this`cutoff, this`foldedTo, this`lastSweep
      ensures Valid() && cutoff >= old(cutoff) && done <= 4
      ensures lastSweep == if Due(old(lastSweep), now) then Some(now) else old(lastSweep)
      ensures table == if Due(old(lastSweep), now) then Stage(old(table), now - RAW_RETENTION, now - retention, maxRows, done)
                       else old(table)
    {
      done := 0;
      if lastSweep.Some? && now - lastSweep.value < SWEEP_INTERVAL {
        return true, done;
      }
      lastSweep := Some(now);
      ok, done := Sweep(now);
    }

    /** One transaction for the tick: all of the samples or none. */
    method Insert(samples: seq<Sample>) returns (committed: bool, latest: nat)
      requires Valid() && samples != []
      modifies this`table, this`ever
      ensures Valid() && (committed ==> latest == Latest(samples))
      ensures table == if committed then Put(old(table), samples) else old(table)
      ensures ever == if committed then old(ever) + (set s | s in samples) else old(ever)
    {
      hide Truthful, Represented;
      var tx := table;
      latest := samples[0].time;
      committed := false;
      for i := 0 to |samples|
        invariant tx == Put(table, samples[..i])
        invariant latest == if i == 0 then samples[0].time else Latest(samples[..i])
      {
        var ok := *;
        if !ok { return; }
        assert samples[..i + 1][..i] == samples[..i];
        tx := tx[RawKey(samples[i]) := samples[i].value];
        if samples[i].time > latest { latest := samples[i].time; }
      }
      committed := *;
      if !committed { return; }
      assert samples[..|samples|] == samples;
      PutKeeps(table, ever, cutoff, samples);
      PutKeys(table, samples);
      table, ever := tx, ever + set s | s in samples;
    }

    /** The samples, then the maintenance, timed by the latest of them. */
    method Append(samples: seq<Sample>) returns (ok: bool, ghost committed: bool, ghost done: nat)
      requires Valid()
      modifies this`table, this`cutoff, this`foldedTo, this`lastSweep, this`ever
      ensures Valid() && cutoff >= old(cutoff) && done <= 4
      ensures ok ==> committed
      ensures !committed || samples == [] ==> table == old(table) && ever == old(ever) && lastSweep == old(lastSweep)
      ensures committed && samples != [] ==>
                && ever == old(ever) + (set s | s in samples)
                && (if Due(old(lastSweep), Latest(samples)) then
                      && lastSweep == Some(Latest(samples))
                      && table == Stage(Put(old(table), samples), Latest(samples) - RAW_RETENTION, Latest(samples) - retention, maxRows, done)
                    else
                      lastSweep == old(lastSweep) && table == Put(old(table), samples))
    {
      hide Stage, Truthful, Represented, Put;
      done := 0;
      if samples == [] { return true, true, done; }
      var written, latest := Insert(samples);
      ok, committed := written, written;
      if !written { return; }
      ok, done := Maintain(latest);
    }
  }

  predicate Due(lastSweep: Option<nat>, now: nat) {
    lastSweep.None? || now - lastSweep.value >= SWEEP_INTERVAL
  }

  function Latest(samples: seq<Sample>): nat
    requires samples != []
  {
    var front, last := samples[..|samples| - 1], samples[|samples| - 1].time;
    if front == [] then last else if last > Latest(front) then last else Latest(front)
  }

  lemma FoldedTimes(table: Table, before: int)
    ensures forall m :: m in Minutes(table, before) ==> m.time < before && m.step == MINUTE_STEP
  {
    forall m | m in Minutes(table, before) ensures m.time < before {
      var k :| k in table && OldRaw(k, before) && MinuteKey(k.series, k.time) == m;
      MinuteStarts(k.time);
    }
  }
}
