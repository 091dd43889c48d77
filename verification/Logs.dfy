/**
  The log store in the form the daemon keeps it (logs/store.go): fields changed step by step.
  Each method is proved to take the steps `LogStore` gives the pipe and the watches, so what
  holds over every interleaving there holds of these methods too.
*/
module Logs {
  import LS = LogStore
  import F = Follower
  import H = Hearing
  import O = Ordering

  type Record = LS.Record

  datatype Channel = Channel(buffer: seq<Record>, capacity: nat)

  function Sent(ch: Channel, r: Record): Channel {
    if |ch.buffer| < ch.capacity then ch.(buffer := ch.buffer + [r]) else ch
  }

  class Store {
    // What appenders and the writer share.
    var last: nat
    var queue: seq<Record>
    var dropped: nat
    var watchers: map<nat, Channel>
    var nextId: nat
    // The writer's own.
    var batch: seq<Record>
    var table: map<nat, Record>
    var reported: nat
    // What only the proofs look at.
    ghost var first: nat
    ghost var flights: map<nat, LS.Flight>
    ghost var written: set<nat>
    ghost var lost: set<nat>
    ghost var writtenCount: nat
    ghost var returned: set<nat>
    ghost var history: seq<Record>
    ghost var heard: map<nat, LS.Watcher>

    ghost function Now(): LS.Pipe
      reads this
    {
      LS.Pipe(first, last, flights, queue, batch, table, written, lost, writtenCount, dropped, returned)
    }

    ghost function Watches(): LS.Hearing
      reads this
    {
      LS.Hearing(history, heard)
    }

    /** The channels and what the proofs record of them agree. */
    ghost predicate Valid()
      reads this
    {
      && watchers.Keys == heard.Keys
      && (forall w :: w in watchers ==> w < nextId && watchers[w] == Channel(heard[w].buffer, heard[w].capacity))
    }

    /** The numbers go on from the highest one stored. */
    constructor (stored: map<nat, Record>)
      requires F.WellKept(stored)
      ensures Valid() && LS.EmptyPipe(Now()) && table == stored && Watches() == LS.Hearing([], map[])
      ensures last == 0 || last in stored
    {
      last := if stored.Keys == {} then 0 else F.Greatest(stored.Keys);
      queue, batch, dropped, reported, watchers, nextId := [], [], 0, 0, map[], 0;
      table := stored;
      first := if stored.Keys == {} then 0 else F.Greatest(stored.Keys);
      flights, written, lost, writtenCount, returned, history, heard := map[], {}, {}, 0, {}, [], map[];
      new;
      forall n | n in table ensures n <= first {
        assert n in stored.Keys;
      }
    }

    // Appending ------------------------------------------------------------------------

    /** Draws the next number. */
    method Draw(ghost t: nat, draft: Record) returns (r: Record)
      requires Valid() && t !in flights
      modifies this`last, this`flights
      ensures Valid()
      ensures Now() == LS.Drawn(old(Now()), t, draft)
      ensures r == draft.(seq_ := last) && flights[t] == LS.Issued(r)
    {
      last := last + 1;
      r := draft.(seq_ := last);
      flights := flights[t := LS.Issued(r)];
    }

    /** Offers the record to every watch, under the lock that also adds and removes them. */
    method Offer(r: Record)
      modifies this`watchers
      ensures watchers.Keys == old(watchers).Keys
      ensures forall w :: w in watchers ==> watchers[w] == Sent(old(watchers)[w], r)
    {
      var todo := watchers.Keys;
      while todo != {}
        invariant todo <= watchers.Keys == old(watchers).Keys
        invariant forall w :: w in todo ==> watchers[w] == old(watchers)[w]
        invariant forall w :: w in watchers && w !in todo ==> watchers[w] == Sent(old(watchers)[w], r)
        decreases |todo|
      {
        var w :| w in todo;
        todo := todo - {w};
        var ch := watchers[w];
        if |ch.buffer| < ch.capacity {
          watchers := watchers[w := ch.(buffer := ch.buffer + [r])];
        }
      }
    }

    method Deliver(ghost t: nat, r: Record)
      requires Valid() && t in flights && flights[t] == LS.Issued(r)
      modifies this`watchers, this`heard, this`history, this`flights
      ensures Valid()
      ensures Now() == LS.Flown(old(Now()), t) && Watches() == LS.Offered(old(Watches()), r)
    {
      hide LS.SeqsOf, LS.Drawn, LS.Enqueued, LS.Swept;
      Offer(r);
      history, heard := history + [r], LS.Offered(Watches(), r).watchers;
      flights := flights[t := LS.Delivered(r)];
    }

    /** The send that never blocks. */
    method Enqueue(ghost t: nat, r: Record)
      requires Valid() && t in flights && flights[t] == LS.Delivered(r)
      modifies this`queue, this`dropped, this`lost, this`flights, this`returned
      ensures Valid()
      ensures Now() == LS.Enqueued(old(Now()), t)
    {
      if |queue| < LS.QUEUE_DEPTH {
        queue := queue + [r];
      } else {
        dropped := dropped + 1;
        lost := lost + {r.seq_};
      }
      flights := flights - {t};
      returned := returned + {r.seq_};
    }

    /** One append that nothing else interrupts. */
    method Append(ghost t: nat, draft: Record) returns (r: Record)
      requires Valid() && t !in flights
      modifies this`last, this`watchers, this`heard, this`history, this`queue, this`dropped, this`lost, this`flights, this`returned
      ensures Valid()
      ensures r == draft.(seq_ := old(last) + 1) && last == r.seq_ && returned == old(returned) + {r.seq_}
      ensures flights == old(flights) && Watches() == LS.Offered(old(Watches()), r)
      ensures if old(|queue|) < LS.QUEUE_DEPTH
              then queue == old(queue) + [r] && dropped == old(dropped)
              else queue == old(queue) && dropped == old(dropped) + 1 && r.seq_ in lost
    {
      r := Draw(t, draft);
      Deliver(t, r);
      Enqueue(t, r);
      assert flights == old(flights);
    }

    // Writing --------------------------------------------------------------------------

    /** Takes what waits in the queue, one record at a time, until it is found empty. */
    method Drain()
      requires Valid()
      modifies this`queue, this`batch
      ensures Valid()
      ensures Now() == old(Now()).(queue := [], batch := LS.Pending(old(Now())))
    {
      while queue != []
        invariant Valid() && batch + queue == LS.Pending(old(Now()))
        invariant Now() == old(Now()).(queue := queue, batch := batch)
        decreases |queue|
      {
        batch, queue := batch + [queue[0]], queue[1..];
      }
      assert batch + [] == batch;
    }

    /**
      One transaction. An insert fails on a number that is taken, and anything may fail for
      reasons of its own; then nothing of the batch is kept. `broke` says whether it did.
    */
    method WriteBatch() returns (ok: bool, ghost broke: bool)
      modifies this`table
      ensures table == if ok then LS.Inserted(old(table), batch) else old(table)
      ensures LS.DistinctNumbers(batch) && (forall r :: r in batch ==> r.seq_ !in old(table)) ==> ok == !broke
    {
      var tx := table;
      broke := false;
      for i := 0 to |batch|
        invariant tx == LS.Inserted(table, batch[..i]) && !broke
        invariant table == old(table)
      {
        var r := batch[i];
        assert batch[..i + 1][..i] == batch[..i];
        LS.InsertedIs(table, batch[..i]);
        if r.seq_ in tx {
          assert LS.DistinctNumbers(batch) ==> r.seq_ !in LS.SeqsOf(batch[..i]);
          return false, broke;
        }
        var fails := *;
        if fails { return false, true; }
        tx := tx[r.seq_ := r];
      }
      ok := *;
      broke := !ok;
      assert batch[..|batch|] == batch;
      if ok { table := tx; }
    }

    /** What could not be written is counted, never just forgotten. */
    method Flush() returns (ok: bool)
      requires Valid()
      modifies this`table, this`batch, this`dropped, this`written, this`lost, this`writtenCount
      ensures Valid()
      ensures Now() == LS.Flushed(old(Now()), ok)
    {
      hide LS.SeqsOf, LS.Inserted, LS.DistinctNumbers;
      if batch == [] {
        FlushOfNothing(Now());
        return true;
      }
      ghost var broke;
      ok, broke := WriteBatch();
      if ok {
        written := written + LS.SeqsOf(batch);
        writtenCount := writtenCount + |batch|;
      } else {
        dropped := dropped + |batch|;
        lost := lost + LS.SeqsOf(batch);
      }
      batch := [];
    }

    /** Answers a caller of Flush, once the whole queue has gone into a batch and the batch was written or lost. */
    method ServeFlush() returns (ok: bool)
      requires Valid()
      modifies this`queue, this`table, this`batch, this`dropped, this`written, this`lost, this`writtenCount
      ensures Valid() && Now().returned == old(Now().returned) && queue == [] && batch == []
      ensures LS.Accounted(old(Now()), old(returned), LS.Pending(old(Now()))) ==> LS.Settled(Now(), returned)
      ensures F.WellKept(old(table)) ==> F.WellKept(table)
      ensures ok && LS.DistinctNumbers(LS.Pending(old(Now()))) ==>
                forall r :: r in LS.Pending(old(Now())) ==> r.seq_ in table && table[r.seq_] == r
    {
      Drain();
      ghost var drained := Now();
      assert LS.Pending(drained) == drained.batch;
      LS.FlushGoesOn(drained, true);
      LS.FlushGoesOn(drained, false);
      ok := Flush();
      InsertedRows(drained.table, drained.batch);
    }

    method Search(q: F.Query) returns (out: seq<Record>)
      requires Valid() && F.WellKept(table)
      modifies this`queue, this`table, this`batch, this`dropped, this`written, this`lost, this`writtenCount
      ensures Valid() && F.IsAnswer(table, q, F.Limit(q), out)
      ensures LS.Accounted(old(Now()), old(returned), LS.Pending(old(Now()))) ==> LS.Settled(Now(), returned)
    {
      var ok := ServeFlush();
      assert F.WellKept(table);
      out := F.Search(table, q);
    }

    /** What was lost since the last report becomes a record of its own, once. */
    method ReportDropped(ghost t: nat)
      requires Valid() && t !in flights
      modifies this`reported, this`last, this`watchers, this`heard, this`history, this`queue, this`dropped, this`lost, this`flights, this`returned
      ensures Valid() && reported == old(dropped) && flights == old(flights)
      ensures if old(dropped) == old(reported) then Now() == old(Now()) && Watches() == old(Watches())
              else Watches() == LS.Offered(old(Watches()), LS.LOSS.(seq_ := old(last) + 1))
    {
      var total := dropped;
      if total == reported { return; }
      reported := total;
      var r := Append(t, LS.LOSS);
    }

    // Sweeping --------------------------------------------------------------------------

    method DeleteOlder(cutoff: int)
      modifies this`table
      ensures table == map n | n in old(table) && old(table)[n].time >= cutoff :: old(table)[n]
    {
      table := map n | n in table && table[n].time >= cutoff :: table[n];
    }

    /** The row with `maxRows` newer ones, if there is one, goes with all that are older. */
    method DeleteBeyond(maxRows: nat)
      modifies this`table
      ensures table == map n | n in old(table) && |Newer(old(table).Keys, n)| < maxRows :: old(table)[n]
    {
      var found, bound := NthNewest(table.Keys, maxRows);
      ghost var rows := table.Keys;
      if found {
        forall n | n in rows ensures |Newer(rows, n)| < maxRows <==> n > bound {
          if n > bound {
            O.SmallerSet(Newer(rows, n) + {n}, Newer(rows, bound));
          } else {
            O.SmallerSet(Newer(rows, bound), Newer(rows, n));
          }
        }
        table := map n | n in table && n > bound :: table[n];
      } else {
        forall n | n in rows ensures |Newer(rows, n)| < maxRows {
          O.SmallerSet(Newer(rows, n) + {n}, rows);
        }
      }
    }

    /** Age first, then the row limit. A delete that fails leaves the rest undone. */
    method Sweep(cutoff: int, maxRows: nat) returns (ok: bool)
      modifies this`table
      ensures ok ==> Now() == LS.Swept(old(Now()), cutoff, maxRows)
      ensures !ok ==> table == old(table) || table == map n | n in old(table) && old(table)[n].time >= cutoff :: old(table)[n]
    {
      ok := *;
      if !ok { return; }
      DeleteOlder(cutoff);
      ghost var young := table;
      ok := *;
      if !ok { return; }
      DeleteBeyond(maxRows);
      SweptRows(old(Now()), young, cutoff, maxRows);
    }

    // Watching ---------------------------------------------------------------------------

    method Watch(bufferSize: int) returns (id: nat)
      requires Valid()
      modifies this`watchers, this`heard, this`nextId
      ensures Valid() && id !in old(watchers)
      ensures heard == old(heard)[id := LS.Watcher([], if bufferSize < 1 then 1 else bufferSize, |history|, [], false)]
    {
      var capacity := if bufferSize < 1 then 1 else bufferSize;
      id := nextId;
      nextId := nextId + 1;
      watchers := watchers[id := Channel([], capacity)];
      heard := heard[id := LS.Watcher([], capacity, |history|, [], false)];
    }

    method Stop(id: nat)
      requires Valid()
      modifies this`watchers, this`heard
      ensures Valid() && heard == old(heard) - {id}
    {
      watchers := watchers - {id};
      heard := heard - {id};
    }

    /** What a reader takes is the next of what was sent to it. */
    method Receive(id: nat) returns (r: Record)
      requires Valid() && id in watchers && watchers[id].buffer != [] && H.Heard(history, heard[id])
      modifies this`watchers, this`heard
      ensures Valid() && heard.Keys == old(heard).Keys && H.Heard(history, heard[id])
      ensures H.Taken(heard[id]) == H.Taken(old(heard)[id]) + [r]
      ensures heard[id].sent == old(heard)[id].sent
      ensures forall w :: w in heard && w != id ==> heard[w] == old(heard)[w]
    {
      var ch := watchers[id];
      r := ch.buffer[0];
      watchers := watchers[id := ch.(buffer := ch.buffer[1..])];
      heard := heard[id := heard[id].(buffer := heard[id].buffer[1..])];
    }
  }

  lemma SweptRows(p: LS.Pipe, young: map<nat, Record>, cutoff: int, maxRows: nat)
    requires young == map n | n in p.table && p.table[n].time >= cutoff :: p.table[n]
    ensures LS.Swept(p, cutoff, maxRows) == p.(table := map n | n in young && |Newer(young.Keys, n)| < maxRows :: young[n])
  {
    forall n | n in young ensures |Newer(young.Keys, n)| < maxRows <==> LS.Survives(p.table, n, cutoff, maxRows) {
      assert Newer(young.Keys, n) == set m | m in p.table && p.table[m].time >= cutoff && m > n;
    }
  }

  lemma FlushOfNothing(p: LS.Pipe)
    requires p.batch == []
    ensures LS.Flushed(p, true) == p
  {
    assert LS.SeqsOf([]) == {};
  }

  function Newer(rows: set<nat>, n: nat): set<nat> {
    set m | m in rows && m > n
  }

  /** `ORDER BY seq DESC LIMIT 1 OFFSET n`. */
  method NthNewest(rows: set<nat>, n: nat) returns (found: bool, bound: nat)
    ensures found <==> |rows| > n
    ensures found ==> bound in rows && |Newer(rows, bound)| == n
  {
    var left := rows;
    found, bound := |rows| > n, 0;
    if !found { return; }
    for i := 0 to n
      invariant left <= rows && |left| == |rows| - i
      invariant forall a, b :: a in left && b in rows && b !in left ==> a < b
    {
      var newest := F.Greatest(left);
      left := left - {newest};
    }
    bound := F.Greatest(left);
    assert Newer(rows, bound) == rows - left;
  }

  /** The rows an insert of fresh numbers leaves. */
  lemma {:induction false} InsertedRows(table: map<nat, Record>, batch: seq<Record>)
    ensures F.WellKept(table) ==> F.WellKept(LS.Inserted(table, batch))
    ensures LS.DistinctNumbers(batch) ==>
              forall r :: r in batch ==> r.seq_ in LS.Inserted(table, batch) && LS.Inserted(table, batch)[r.seq_] == r
  {
    if batch == [] {
    } else {
      var front, r := batch[..|batch| - 1], batch[|batch| - 1];
      InsertedRows(table, front);
      assert batch == front + [r];
    }
  }
}
