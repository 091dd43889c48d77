/**
  The log store (logs/store.go, logs/record.go) as a state machine: any number of appenders,
  one writer with its bounded queue and its batch, callers of `Flush`, and watchers. A
  channel operation, an atomic counter and a critical section are one step each.

  The SQL table is a map from sequence number to record. A transaction commits whole or not
  at all.
*/
module LogStore {

  datatype Record = Record(seq_: nat, time: int, service: string, stream: string, kind: string, run: string, text: string)

  const BATCH_SIZE: nat := 256
  const QUEUE_DEPTH: nat := 8192

  // The pipe: from a number to a row -----------------------------------------------------

  /** A record between its number, which `Append` draws first, and the queue. */
  datatype Flight = Issued(r: Record) | Delivered(r: Record)

  datatype Pipe = Pipe(
    first: nat,                    // the number the store was opened at
    last: nat,
    flights: map<nat, Flight>,     // by appending thread
    queue: seq<Record>,
    batch: seq<Record>,
    table: map<nat, Record>,
    written: set<nat>,             // every number ever committed since the store was opened
    lost: set<nat>,                // every number counted as dropped
    writtenCount: nat,
    dropped: nat,
    returned: set<nat>)            // the numbers whose Append has returned

  function SeqsOf(records: seq<Record>): set<nat> {
    set r | r in records :: r.seq_
  }

  function Drawn(p: Pipe, t: nat, draft: Record): Pipe {
    if t in p.flights then p
    else p.(last := p.last + 1, flights := p.flights[t := Issued(draft.(seq_ := p.last + 1))])
  }

  function Flown(p: Pipe, t: nat): Pipe
    requires t in p.flights
  {
    p.(flights := p.flights[t := Delivered(p.flights[t].r)])
  }

  /** The send that never blocks: a full queue costs the record, and the cost is counted. */
  function Enqueued(p: Pipe, t: nat): Pipe
    requires t in p.flights
  {
    var r := p.flights[t].r;
    if |p.queue| < QUEUE_DEPTH then
      p.(flights := p.flights - {t}, returned := p.returned + {r.seq_}, queue := p.queue + [r])
    else
      p.(flights := p.flights - {t}, returned := p.returned + {r.seq_},
         dropped := p.dropped + 1, lost := p.lost + {r.seq_})
  }

  function Moved(p: Pipe): Pipe {
    if p.queue == [] then p else p.(batch := p.batch + [p.queue[0]], queue := p.queue[1..])
  }

  function Inserted(table: map<nat, Record>, batch: seq<Record>): map<nat, Record> {
    if batch == [] then table
    else Inserted(table, batch[..|batch| - 1])[batch[|batch| - 1].seq_ := batch[|batch| - 1]]
  }

  /** One transaction for the whole batch: committed, or counted as dropped. */
  function Flushed(p: Pipe, ok: bool): Pipe {
    if ok then
      p.(table := Inserted(p.table, p.batch), written := p.written + SeqsOf(p.batch),
         writtenCount := p.writtenCount + |p.batch|, batch := [])
    else
      p.(lost := p.lost + SeqsOf(p.batch), dropped := p.dropped + |p.batch|, batch := [])
  }

  /** The row is young enough and among the newest `maxRows` of those that are. */
  ghost predicate Survives(table: map<nat, Record>, n: nat, cutoff: int, maxRows: nat) {
    && n in table && table[n].time >= cutoff
    && |set m | m in table && table[m].time >= cutoff && m > n| < maxRows
  }

  ghost function Swept(p: Pipe, cutoff: int, maxRows: nat): Pipe {
    p.(table := map n | n in p.table && Survives(p.table, n, cutoff, maxRows) :: p.table[n])
  }

  // The store ------------------------------------------------------------------------------

  datatype Watcher = Watcher(
    buffer: seq<Record>,     // the channel
    capacity: nat,
    // Where in the history of deliveries it began, what it was sent, and whether anything did not fit.
    from: nat,
    sent: seq<Record>,
    overflown: bool)

  datatype Hearing = Hearing(history: seq<Record>, watchers: map<nat, Watcher>)

  function Offer(w: Watcher, r: Record): Watcher {
    if |w.buffer| < w.capacity then w.(buffer := w.buffer + [r], sent := w.sent + [r])
    else w.(overflown := true)
  }

  function Offered(h: Hearing, r: Record): Hearing {
    Hearing(h.history + [r], map w | w in h.watchers :: Offer(h.watchers[w], r))
  }

  datatype Writer =
    | Idle
    | Full                   // the batch is flushed next
    | Draining(caller: nat)  // serving a flush: emptying the queue
    | Flushing(caller: nat)  // the queue was found empty
    | Sweeping
    | Reporting
    | Closing
    | Done

  datatype State = State(
    pipe: Pipe,
    hearing: Hearing,
    writer: Writer,
    reported: nat,
    closed: bool,
    flushes: map<nat, set<nat>>,   // callers of Flush, with what had returned when they called
    served: map<nat, set<nat>>)    // the same for those that were answered by the writer

  datatype Event =
    | Draw(t: nat, draft: Record)
    | Deliver(t: nat)
    | Enqueue(t: nat)
    | Take
    | Write(ok: bool)
    | Tick
    | BeginSweep
    | Sweep(cutoff: int, maxRows: nat)
    | Report(t: nat)
    | CallFlush(f: nat)
    | Accept(f: nat)
    | DrainOne
    | GiveUp(f: nat)
    | Close
    | Watch(w: nat, capacity: nat)
    | Unwatch(w: nat)
    | Receive(w: nat)

  const LOSS: Record := Record(0, 0, "hostd", "event", "logs.dropped", "", "")

  /** What an event does to the pipe. An event that cannot happen in a state leaves it as it is. */
  ghost function PipeNext(s: State, e: Event): Pipe {
    match e
    case Draw(t, draft) => Drawn(s.pipe, t, draft)
    case Deliver(t) => if InFlight(s, t, false) then Flown(s.pipe, t) else s.pipe
    case Enqueue(t) => if InFlight(s, t, true) then Enqueued(s.pipe, t) else s.pipe
    case Take => if s.writer.Idle? then Moved(s.pipe) else s.pipe
    case DrainOne => if s.writer.Draining? || s.writer.Closing? then Moved(s.pipe) else s.pipe
    case Write(ok) => if Writes(s) then Flushed(s.pipe, ok) else s.pipe
    case Sweep(cutoff, maxRows) =>
      if s.writer.Sweeping? && s.pipe.batch == [] then Swept(s.pipe, cutoff, maxRows) else s.pipe
    case Report(t) => if Reports(s, t) then Drawn(s.pipe, t, LOSS) else s.pipe
    case _ => s.pipe
  }

  predicate InFlight(s: State, t: nat, delivered: bool) {
    t in s.pipe.flights && s.pipe.flights[t].Delivered? == delivered
  }

  predicate Writes(s: State) {
    s.writer.Full? || s.writer.Flushing? || s.writer.Sweeping? || (s.writer.Closing? && s.pipe.queue == [])
  }

  /** What was lost since the last report becomes a record of its own. */
  predicate Reports(s: State, t: nat) {
    s.writer.Reporting? && t !in s.pipe.flights && s.pipe.dropped != s.reported
  }

  function HearingNext(s: State, e: Event): Hearing {
    var h := s.hearing;
    match e
    case Deliver(t) => if InFlight(s, t, false) then Offered(h, s.pipe.flights[t].r) else h
    case Watch(w, capacity) =>
      if w in h.watchers then h
      else h.(watchers := h.watchers[w := Watcher([], if capacity < 1 then 1 else capacity, |h.history|, [], false)])
    case Unwatch(w) => h.(watchers := h.watchers - {w})
    case Receive(w) =>
      if w in h.watchers && h.watchers[w].buffer != [] then
        h.(watchers := h.watchers[w := h.watchers[w].(buffer := h.watchers[w].buffer[1..])])
      else h
    case _ => h
  }

  function WriterNext(s: State, e: Event): Writer {
    match s.writer
    case Idle =>
      (match e
       case Take => if s.pipe.queue != [] && |s.pipe.batch| + 1 >= BATCH_SIZE then Full else Idle
       case Tick => Full
       case BeginSweep => Sweeping
       case Accept(f) => if f in s.flushes then Draining(f) else Idle
       case Close => Closing
       case _ => Idle)
    case Full => if e.Write? then Idle else Full
    case Draining(f) => if e.DrainOne? && s.pipe.queue == [] then Flushing(f) else s.writer
    case Flushing(f) => if e.Write? then Idle else s.writer
    case Sweeping => if e.Sweep? && s.pipe.batch == [] then Reporting else Sweeping
    case Reporting => if e.Report? && e.t !in s.pipe.flights then Idle else Reporting
    case Closing => if e.Write? && s.pipe.queue == [] then Done else Closing
    case Done => Done
  }

  function FlushesNext(s: State, e: Event): map<nat, set<nat>> {
    match e
    case CallFlush(f) => if f in s.flushes || f in s.served then s.flushes else s.flushes[f := s.pipe.returned]
    case Write(_) => if s.writer.Flushing? then s.flushes - {s.writer.caller} else s.flushes
    // The store was closed before the writer answered.
    case GiveUp(f) => if s.closed && s.writer != Draining(f) && s.writer != Flushing(f) then s.flushes - {f} else s.flushes
    case _ => s.flushes
  }

  function ServedNext(s: State, e: Event): map<nat, set<nat>> {
    if e.Write? && s.writer.Flushing? && s.writer.caller in s.flushes then
      s.served[s.writer.caller := s.flushes[s.writer.caller]]
    else s.served
  }

  ghost function Next(s: State, e: Event): State {
    State(PipeNext(s, e), HearingNext(s, e), WriterNext(s, e),
          if e.Report? && Reports(s, e.t) then s.pipe.dropped else s.reported,
          s.closed || e.Close?, FlushesNext(s, e), ServedNext(s, e))
  }

  ghost function Run(s: State, events: seq<Event>): State {
    if events == [] then s else Next(Run(s, events[..|events| - 1]), events[|events| - 1])
  }

  ghost predicate EmptyPipe(p: Pipe) {
    && p.first == p.last && p.flights == map[] && p.queue == [] && p.batch == []
    && p.written == {} && p.lost == {} && p.writtenCount == 0 && p.dropped == 0 && p.returned == {}
    && (forall n :: n in p.table ==> p.table[n].seq_ == n && n <= p.first)
  }

  /** A store just opened on a table: the numbers go on from the highest one stored. */
  ghost predicate Opened(s: State) {
    && EmptyPipe(s.pipe) && s.hearing == Hearing([], map[])
    && s.writer == Idle && s.reported == 0 && !s.closed && s.flushes == map[] && s.served == map[]
  }

  // Nothing is lost unsaid -------------------------------------------------------------

  /** The counts agree: as many numbers were drawn as records are in flight, waiting, written or dropped. */
  ghost predicate Conserved(p: Pipe) {
    p.last == p.first + |p.flights| + |p.queue| + |p.batch| + p.writtenCount + p.dropped
  }

  lemma MapSizes<K, V>(m: map<K, V>, k: K, v: V)
    ensures |m[k := v]| == if k in m then |m| else |m| + 1
    ensures |m - {k}| == if k in m then |m| - 1 else |m|
  {
    assert m[k := v].Keys == m.Keys + {k};
    assert (m - {k}).Keys == m.Keys - {k};
    assert |m| == |m.Keys| && |m - {k}| == |(m - {k}).Keys| && |m[k := v]| == |m[k := v].Keys|;
  }

  lemma DrawConserves(p: Pipe, t: nat, draft: Record)
    requires Conserved(p)
    ensures Conserved(Drawn(p, t, draft))
  {
    MapSizes(p.flights, t, Issued(draft.(seq_ := p.last + 1)));
  }

  lemma FlightConserves(p: Pipe, t: nat)
    requires Conserved(p) && t in p.flights
    ensures Conserved(Flown(p, t)) && Conserved(Enqueued(p, t))
  {
    MapSizes(p.flights, t, Delivered(p.flights[t].r));
  }

  lemma WriterConserves(p: Pipe, ok: bool)
    requires Conserved(p)
    ensures Conserved(Moved(p)) && Conserved(Flushed(p, ok))
  {
  }

  lemma SweepConserves(p: Pipe, cutoff: int, maxRows: nat)
    requires Conserved(p)
    ensures Conserved(Swept(p, cutoff, maxRows))
  {
  }

  lemma PipeConserves(s: State, e: Event)
    requires Conserved(s.pipe)
    ensures Conserved(PipeNext(s, e))
  {
    hide Conserved;
    match e
    case Draw(t, draft) => DrawConserves(s.pipe, t, draft);
    case Deliver(t) => if t in s.pipe.flights { FlightConserves(s.pipe, t); }
    case Enqueue(t) => if t in s.pipe.flights { FlightConserves(s.pipe, t); }
    case Report(t) => DrawConserves(s.pipe, t, LOSS);
    case Write(ok) => WriterConserves(s.pipe, ok);
    case Sweep(cutoff, maxRows) => SweepConserves(s.pipe, cutoff, maxRows);
    case _ => WriterConserves(s.pipe, true);
  }

  /** In every interleaving of appenders and the writer the counts agree. `RunPartitions` says which numbers they count. */
  lemma {:induction false} RunConserves(s: State, events: seq<Event>)
    requires Opened(s)
    ensures Conserved(Run(s, events).pipe)
  {
    if events == [] {
    } else {
      RunConserves(s, events[..|events| - 1]);
      PipeConserves(Run(s, events[..|events| - 1]), events[|events| - 1]);
    }
  }

  // A flush answered is a flush done ------------------------------------------------------

  /** What waits to be written, oldest first: the batch, then the queue. */
  function Pending(p: Pipe): seq<Record> {
    p.batch + p.queue
  }

  ghost predicate Settled(p: Pipe, numbers: set<nat>) {
    forall n :: n in numbers ==> n in p.written || n in p.lost
  }

  /** The numbers are written, counted as dropped, or among `records`. */
  ghost predicate Accounted(p: Pipe, numbers: set<nat>, records: seq<Record>) {
    forall n :: n in numbers ==> n in p.written || n in p.lost || n in SeqsOf(records)
  }

  ghost predicate Placed(s: State) {
    && Accounted(s.pipe, s.pipe.returned, Pending(s.pipe))
    && (forall f :: f in s.flushes ==> s.flushes[f] <= s.pipe.returned)
    && (forall f :: f in s.served ==> Settled(s.pipe, s.served[f]))
    && (s.writer.Draining? || s.writer.Flushing? ==> s.writer.caller in s.flushes)
    && (s.writer.Flushing? ==> Accounted(s.pipe, s.flushes[s.writer.caller], s.pipe.batch))
  }

  lemma SeqsOfConcat(a: seq<Record>, b: seq<Record>)
    ensures forall n :: n in SeqsOf(a + b) <==> n in SeqsOf(a) || n in SeqsOf(b)
  {
    forall n | n in SeqsOf(a + b) ensures n in SeqsOf(a) || n in SeqsOf(b) {
      var r :| r in a + b && r.seq_ == n;
      assert r in a || r in b;
    }
    forall n | n in SeqsOf(a) || n in SeqsOf(b) ensures n in SeqsOf(a + b) {
      var r :| (r in a || r in b) && r.seq_ == n;
      assert r in a + b;
    }
  }

  /** The pipe only ever settles more, and whoever returned stays accounted for. */
  ghost predicate Onward(p: Pipe, q: Pipe) {
    && p.written <= q.written && p.lost <= q.lost && p.returned <= q.returned
    && (Accounted(p, p.returned, Pending(p)) ==> Accounted(q, q.returned, Pending(q)))
  }

  lemma EnqueueGoesOn(p: Pipe, t: nat)
    requires t in p.flights
    ensures Onward(p, Enqueued(p, t)) && p.batch == Enqueued(p, t).batch
  {
    var r, q := p.flights[t].r, Enqueued(p, t);
    SeqsOfConcat(p.batch + p.queue, [r]);
    assert p.batch + (p.queue + [r]) == p.batch + p.queue + [r];
    assert r.seq_ in SeqsOf([r]) by { assert r in [r]; }
  }

  lemma MoveGoesOn(p: Pipe)
    ensures Onward(p, Moved(p)) && Pending(Moved(p)) == Pending(p)
  {
    assert Pending(Moved(p)) == Pending(p);
  }

  lemma FlushGoesOn(p: Pipe, ok: bool)
    ensures Onward(p, Flushed(p, ok))
    ensures forall numbers :: Accounted(p, numbers, p.batch) ==> Settled(Flushed(p, ok), numbers)
  {
    SeqsOfConcat(p.batch, p.queue);
    assert Pending(Flushed(p, ok)) == p.queue;
  }

  lemma PipeGoesOn(s: State, e: Event)
    ensures Onward(s.pipe, PipeNext(s, e))
    ensures !e.Write? && !e.Take? && !e.DrainOne? ==> PipeNext(s, e).batch == s.pipe.batch
  {
    match e
    case Enqueue(t) => if t in s.pipe.flights { EnqueueGoesOn(s.pipe, t); }
    case Take => MoveGoesOn(s.pipe);
    case DrainOne => MoveGoesOn(s.pipe);
    case Write(ok) => FlushGoesOn(s.pipe, ok);
    case _ =>
  }

  lemma NextPlaces(s: State, e: Event)
    requires Placed(s)
    ensures Placed(Next(s, e))
  {
    PipeGoesOn(s, e);
    var t := Next(s, e);
    if e.Write? && s.writer.Flushing? { FlushGoesOn(s.pipe, e.ok); }
    forall f | f in t.served ensures Settled(t.pipe, t.served[f]) {
      if f in s.served && t.served[f] == s.served[f] { assert Settled(s.pipe, s.served[f]); }
    }
    if t.writer.Flushing? {
      if s.writer.Draining? {
        assert s.pipe.queue == [] && Pending(s.pipe) == s.pipe.batch == t.pipe.batch;
      } else {
        assert s.writer == t.writer && t.pipe.batch == s.pipe.batch;
      }
    }
  }

  lemma {:induction false} RunPlaces(s: State, events: seq<Event>)
    requires Opened(s)
    ensures Placed(Run(s, events))
  {
    if events == [] {
    } else {
      RunPlaces(s, events[..|events| - 1]);
      NextPlaces(Run(s, events[..|events| - 1]), events[|events| - 1]);
    }
  }

  lemma {:induction false} RunJoins(s: State, a: seq<Event>, b: seq<Event>)
    ensures Run(s, a + b) == Run(Run(s, a), b)
  {
    if b == [] {
      assert a + b == a;
    } else {
      var front := b[..|b| - 1];
      assert (a + b)[..|a + b| - 1] == a + front && (a + b)[|a + b| - 1] == b[|b| - 1];
      RunJoins(s, a, front);
    }
  }

  /** Once a flush is called, it stands for at least what had returned by then. */
  lemma {:induction false} FlushCovers(s: State, f: nat, numbers: set<nat>, events: seq<Event>)
    requires numbers <= s.pipe.returned && f !in s.served
    requires f in s.flushes ==> numbers <= s.flushes[f]
    ensures var e := Run(s, events);
            && numbers <= e.pipe.returned
            && (f in e.flushes ==> numbers <= e.flushes[f])
            && (f in e.served ==> numbers <= e.served[f])
  {
    if events == [] {
    } else {
      FlushCovers(s, f, numbers, events[..|events| - 1]);
      PipeGoesOn(Run(s, events[..|events| - 1]), events[|events| - 1]);
    }
  }

  /**
    When a flush is answered, every record whose append had returned before the call is
    committed or counted as dropped, whatever appended, flushed or watched in between.
  */
  lemma FlushedMeansSettled(s: State, before: seq<Event>, f: nat, after: seq<Event>)
    requires Opened(s)
    requires f !in Run(s, before).flushes && f !in Run(s, before).served
    requires f in Run(s, before + [CallFlush(f)] + after).served
    ensures Settled(Run(s, before + [CallFlush(f)] + after).pipe, Run(s, before).pipe.returned)
  {
    var c, called := Run(s, before), before + [CallFlush(f)];
    assert called[..|called| - 1] == before;
    assert Run(s, called) == Next(c, CallFlush(f));
    RunJoins(s, called, after);
    FlushCovers(Next(c, CallFlush(f)), f, c.pipe.returned, after);
    RunPlaces(s, called + after);
  }

  // No number is written twice --------------------------------------------------------------

  ghost predicate DistinctNumbers(records: seq<Record>) {
    forall i, j :: 0 <= i < j < |records| ==> records[i].seq_ != records[j].seq_
  }

  /** Drawn since the store was opened, and stored nowhere. */
  ghost predicate Unstored(p: Pipe, n: nat) {
    p.first < n <= p.last && n !in p.written && n !in p.table
  }

  ghost predicate Numbered(p: Pipe) {
    && DistinctNumbers(Pending(p))
    && (forall r :: r in Pending(p) ==> Unstored(p, r.seq_))
    && (forall t :: t in p.flights ==> Unstored(p, p.flights[t].r.seq_) && p.flights[t].r.seq_ !in SeqsOf(Pending(p)))
    && (forall t, u :: t in p.flights && u in p.flights && t != u ==> p.flights[t].r.seq_ != p.flights[u].r.seq_)
    && (forall n :: n in p.table ==> p.table[n].seq_ == n && n <= p.last)
    && (forall n :: n in p.written ==> n <= p.last)
    && p.first <= p.last
  }

  lemma {:induction false} InsertedIs(table: map<nat, Record>, batch: seq<Record>)
    ensures forall n :: n in Inserted(table, batch) <==> n in table || n in SeqsOf(batch)
    ensures (forall n :: n in table ==> table[n].seq_ == n) ==>
              forall n :: n in Inserted(table, batch) ==> Inserted(table, batch)[n].seq_ == n
  {
    if batch == [] {
    } else {
      var front, r := batch[..|batch| - 1], batch[|batch| - 1];
      InsertedIs(table, front);
      assert batch == front + [r];
      SeqsOfConcat(front, [r]);
      assert SeqsOf([r]) == {r.seq_} by { assert r in [r]; }
    }
  }

  lemma DrawNumbers(p: Pipe, t: nat, draft: Record)
    requires Numbered(p)
    ensures Numbered(Drawn(p, t, draft))
  {
    if t !in p.flights {
      assert forall n :: n in SeqsOf(Pending(p)) ==> n <= p.last;
      assert Pending(Drawn(p, t, draft)) == Pending(p);
    }
  }

  lemma EnqueueNumbers(p: Pipe, t: nat)
    requires Numbered(p) && t in p.flights
    ensures Numbered(Enqueued(p, t))
  {
    var r, q := p.flights[t].r, Enqueued(p, t);
    if |p.queue| < QUEUE_DEPTH {
      assert Pending(q) == Pending(p) + [r];
      SeqsOfConcat(Pending(p), [r]);
      assert SeqsOf([r]) == {r.seq_} by { assert r in [r]; }
      forall i | 0 <= i < |Pending(p)| ensures Pending(p)[i].seq_ != r.seq_ {
        assert Pending(p)[i] in Pending(p);
        assert Pending(p)[i].seq_ in SeqsOf(Pending(p));
      }
    } else {
      assert Pending(q) == Pending(p);
    }
  }

  lemma Split(batch: seq<Record>, queue: seq<Record>)
    requires DistinctNumbers(batch + queue)
    ensures DistinctNumbers(batch) && DistinctNumbers(queue)
    ensures forall r :: r in queue ==> r.seq_ !in SeqsOf(batch)
  {
    var all := batch + queue;
    assert forall i :: 0 <= i < |batch| ==> all[i] == batch[i];
    assert forall i :: 0 <= i < |queue| ==> all[|batch| + i] == queue[i];
    forall r | r in queue ensures r.seq_ !in SeqsOf(batch) {
      var i :| 0 <= i < |queue| && queue[i] == r;
      forall x | x in batch ensures x.seq_ != r.seq_ {
        var k :| 0 <= k < |batch| && batch[k] == x;
        assert all[k].seq_ != all[|batch| + i].seq_;
      }
    }
  }

  lemma FlushNumbers(p: Pipe, ok: bool)
    requires Numbered(p)
    ensures Numbered(Flushed(p, ok))
  {
    var q := Flushed(p, ok);
    InsertedIs(p.table, p.batch);
    Split(p.batch, p.queue);
    SeqsOfConcat(p.batch, p.queue);
    assert Pending(q) == p.queue;
    forall r | r in p.queue ensures Unstored(q, r.seq_) {
      assert r in Pending(p);
    }
    forall n | n in SeqsOf(p.batch) ensures n <= p.last {
      var r :| r in p.batch && r.seq_ == n;
      assert r in Pending(p);
    }
  }

  lemma MoveNumbers(p: Pipe)
    requires Numbered(p)
    ensures Numbered(Moved(p))
  {
    MoveGoesOn(p);
  }

  lemma FlownNumbers(p: Pipe, t: nat)
    requires Numbered(p) && t in p.flights
    ensures Numbered(Flown(p, t))
  {
    assert Pending(Flown(p, t)) == Pending(p);
  }

  lemma SweepNumbers(p: Pipe, cutoff: int, maxRows: nat)
    requires Numbered(p)
    ensures Numbered(Swept(p, cutoff, maxRows))
  {
    assert Pending(Swept(p, cutoff, maxRows)) == Pending(p);
  }

  lemma PipeNumbers(s: State, e: Event)
    requires Numbered(s.pipe)
    ensures Numbered(PipeNext(s, e)) && PipeNext(s, e).first == s.pipe.first
  {
    hide Numbered;
    match e
    case Draw(t, draft) => DrawNumbers(s.pipe, t, draft);
    case Report(t) => DrawNumbers(s.pipe, t, LOSS);
    case Deliver(t) => if t in s.pipe.flights { FlownNumbers(s.pipe, t); }
    case Enqueue(t) => if t in s.pipe.flights { EnqueueNumbers(s.pipe, t); }
    case Write(ok) => FlushNumbers(s.pipe, ok);
    case Sweep(cutoff, maxRows) => SweepNumbers(s.pipe, cutoff, maxRows);
    case _ => MoveNumbers(s.pipe);
  }

  /**
    In every interleaving, what a batch is about to insert has numbers nothing stored has,
    each once: a transaction never fails for a number that is taken.
  */
  lemma NumbersAreNeverTaken(s: State, events: seq<Event>)
    requires Opened(s)
    ensures var p := Run(s, events).pipe;
            DistinctNumbers(p.batch) && forall r :: r in p.batch ==> r.seq_ !in p.table && s.pipe.first < r.seq_
  {
    RunNumbers(s, events);
    var p := Run(s, events).pipe;
    Split(p.batch, p.queue);
    forall r | r in p.batch ensures r in Pending(p) {
    }
  }

  lemma {:induction false} RunNumbers(s: State, events: seq<Event>)
    requires Opened(s)
    ensures Numbered(Run(s, events).pipe) && Run(s, events).pipe.first == s.pipe.first
  {
    if events == [] {
    } else {
      RunNumbers(s, events[..|events| - 1]);
      PipeNumbers(Run(s, events[..|events| - 1]), events[|events| - 1]);
    }
  }

  // Where each number is --------------------------------------------------------------------

  function SeqsInFlight(p: Pipe): set<nat> {
    set t | t in p.flights :: p.flights[t].r.seq_
  }

  /** The numbers that wait to be settled. */
  ghost function Open(p: Pipe): set<nat> {
    SeqsOf(Pending(p)) + SeqsInFlight(p)
  }

  /** The numbers settled so far are of this store, none both written and dropped, each counted once. */
  ghost predicate Counted(p: Pipe, open: set<nat>) {
    && p.written !! p.lost && open !! p.lost && |p.written| == p.writtenCount && |p.lost| == p.dropped
    && (forall n :: n in p.written || n in p.lost ==> p.first < n <= p.last)
    && (forall n :: p.first < n <= p.last ==> n in p.written || n in p.lost || n in open)
  }

  lemma DrawCounts(p: Pipe, t: nat, draft: Record)
    requires Counted(p, Open(p))
    ensures Counted(Drawn(p, t, draft), Open(Drawn(p, t, draft)))
  {
    var q := Drawn(p, t, draft);
    if t !in p.flights {
      assert Pending(q) == Pending(p);
      assert Open(q) == Open(p) + {p.last + 1} by {
        assert forall u :: u in p.flights ==> q.flights[u] == p.flights[u];
        assert q.flights[t].r.seq_ == p.last + 1;
        assert q.flights.Keys == p.flights.Keys + {t};
        hide SeqsOf;
      }
      hide SeqsOf, SeqsInFlight, Open;
    }
  }

  lemma FlownCounts(p: Pipe, t: nat)
    requires Counted(p, Open(p)) && t in p.flights
    ensures Counted(Flown(p, t), Open(Flown(p, t)))
  {
    var q := Flown(p, t);
    assert Pending(q) == Pending(p);
    assert q.flights.Keys == p.flights.Keys;
    assert forall u :: u in p.flights ==> q.flights[u].r == p.flights[u].r;
    assert SeqsInFlight(q) == SeqsInFlight(p);
  }

  lemma LandedIs(p: Pipe, t: nat)
    requires Numbered(p) && t in p.flights
    ensures SeqsInFlight(p) == SeqsInFlight(Enqueued(p, t)) + {p.flights[t].r.seq_}
    ensures p.flights[t].r.seq_ !in SeqsInFlight(Enqueued(p, t)) + p.written + SeqsOf(Pending(p))
    ensures p.first < p.flights[t].r.seq_ <= p.last
  {
    var q := Enqueued(p, t);
    assert forall u :: u in p.flights && u != t ==> u in q.flights && q.flights[u] == p.flights[u];
  }

  lemma QueuedIs(p: Pipe, t: nat)
    requires t in p.flights
    ensures SeqsOf(Pending(Enqueued(p, t))) ==
            SeqsOf(Pending(p)) + if |p.queue| < QUEUE_DEPTH then {p.flights[t].r.seq_} else {}
  {
    var r, q := p.flights[t].r, Enqueued(p, t);
    if |p.queue| < QUEUE_DEPTH {
      assert Pending(q) == Pending(p) + [r];
      SeqsOfConcat(Pending(p), [r]);
      assert SeqsOf([r]) == {r.seq_} by { assert r in [r]; }
    } else {
      assert Pending(q) == Pending(p);
    }
  }

  lemma EnqueueCounts(p: Pipe, t: nat)
    requires Numbered(p) && Counted(p, Open(p)) && t in p.flights
    ensures Counted(Enqueued(p, t), Open(Enqueued(p, t)))
  {
    hide Numbered, SeqsInFlight, SeqsOf, Pending;
    LandedIs(p, t);
    QueuedIs(p, t);
    if |p.queue| < QUEUE_DEPTH {
      assert Open(Enqueued(p, t)) == Open(p);
    } else {
      assert Open(p) == Open(Enqueued(p, t)) + {p.flights[t].r.seq_};
    }
  }

  lemma {:induction false} AsManyNumbers(records: seq<Record>)
    requires DistinctNumbers(records)
    ensures |SeqsOf(records)| == |records|
  {
    if records == [] {
    } else {
      var front, r := records[..|records| - 1], records[|records| - 1];
      AsManyNumbers(front);
      assert records == front + [r];
      SeqsOfConcat(front, [r]);
      assert SeqsOf([r]) == {r.seq_} by { assert r in [r]; }
      assert SeqsOf(records) == SeqsOf(front) + {r.seq_};
    }
  }

  lemma FlushCounts(p: Pipe, ok: bool)
    requires Numbered(p) && Counted(p, Open(p))
    ensures Counted(Flushed(p, ok), Open(Flushed(p, ok)))
  {
    hide Numbered, SeqsOf, Open, Counted;
    BatchIsOpen(p);
    AsManyNumbers(p.batch);
    BatchLeaves(p, ok);
    SettleAll(p, Flushed(p, ok), Open(p), Open(Flushed(p, ok)), SeqsOf(p.batch));
  }

  lemma BatchLeaves(p: Pipe, ok: bool)
    requires Numbered(p)
    ensures Open(p) == Open(Flushed(p, ok)) + SeqsOf(p.batch) && Open(Flushed(p, ok)) !! SeqsOf(p.batch)
  {
    hide Numbered, SeqsOf, SeqsInFlight, Inserted;
    BatchIsOpen(p);
    SeqsOfConcat(p.batch, p.queue);
    var q := Flushed(p, ok);
    assert Pending(q) == p.queue;
    FlightsAlone(p, q);
  }

  lemma FlightsAlone(p: Pipe, q: Pipe)
    requires p.flights == q.flights
    ensures SeqsInFlight(p) == SeqsInFlight(q)
  {
  }

  lemma SettleAll(p: Pipe, q: Pipe, before: set<nat>, after: set<nat>, gone: set<nat>)
    requires Counted(p, before) && before == after + gone && after !! gone && gone !! p.written
    requires forall n :: n in gone ==> p.first < n <= p.last
    requires q.first == p.first && q.last == p.last
    requires || (q.written == p.written + gone && q.writtenCount == p.writtenCount + |gone| && q.lost == p.lost && q.dropped == p.dropped)
             || (q.lost == p.lost + gone && q.dropped == p.dropped + |gone| && q.written == p.written && q.writtenCount == p.writtenCount)
    ensures Counted(q, after)
  {
  }

  /** The numbers of the batch are settled nowhere, and nothing else that waits has them. */
  lemma BatchIsOpen(p: Pipe)
    requires Numbered(p)
    ensures DistinctNumbers(p.batch) && DistinctNumbers(p.queue)
    ensures SeqsOf(p.batch) !! p.written && SeqsOf(p.batch) !! SeqsOf(p.queue)
    ensures forall n :: n in SeqsOf(p.batch) ==> p.first < n <= p.last
    ensures SeqsInFlight(p) !! SeqsOf(p.batch) && SeqsInFlight(p) !! SeqsOf(p.queue)
  {
    Split(p.batch, p.queue);
    SeqsOfConcat(p.batch, p.queue);
    forall r | r in p.batch ensures Unstored(p, r.seq_) {
      assert r in Pending(p);
    }
  }

  lemma PipeCounts(s: State, e: Event)
    requires Numbered(s.pipe) && Counted(s.pipe, Open(s.pipe))
    ensures Counted(PipeNext(s, e), Open(PipeNext(s, e)))
  {
    hide Numbered, Counted, Open;
    match e
    case Draw(t, draft) => DrawCounts(s.pipe, t, draft);
    case Report(t) => DrawCounts(s.pipe, t, LOSS);
    case Deliver(t) => if t in s.pipe.flights { FlownCounts(s.pipe, t); }
    case Enqueue(t) => if t in s.pipe.flights { EnqueueCounts(s.pipe, t); }
    case Write(ok) => FlushCounts(s.pipe, ok);
    case Sweep(cutoff, maxRows) => StillCounted(s.pipe, Swept(s.pipe, cutoff, maxRows));
    case _ => MoveGoesOn(s.pipe); StillCounted(s.pipe, Moved(s.pipe));
  }

  lemma StillCounted(p: Pipe, q: Pipe)
    requires Counted(p, Open(p)) && Pending(q) == Pending(p) && q.flights == p.flights
    requires q.first == p.first && q.last == p.last && q.written == p.written && q.lost == p.lost
    requires q.writtenCount == p.writtenCount && q.dropped == p.dropped
    ensures Counted(q, Open(q))
  {
  }

  /**
    In every interleaving each number drawn since the store was opened is in exactly one
    place: in flight, queued, batched, written or dropped; and no other number is in any.
  */
  lemma RunPartitions(s: State, events: seq<Event>)
    requires Opened(s)
    ensures var p := Run(s, events).pipe;
            var flying, queued, batched := SeqsInFlight(p), SeqsOf(p.queue), SeqsOf(p.batch);
            && (forall n :: s.pipe.first < n <= p.last <==> n in flying + queued + batched + p.written + p.lost)
            && flying !! queued !! batched !! p.written !! p.lost
            && DistinctNumbers(p.queue) && DistinctNumbers(p.batch)
            && |p.written| == p.writtenCount && |p.lost| == p.dropped
  {
    hide Numbered, SeqsOf, SeqsInFlight, Run, Counted;
    RunCounts(s, events);
    RunNumbers(s, events);
    EachInOnePlace(Run(s, events).pipe);
  }

  lemma EachInOnePlace(p: Pipe)
    requires Numbered(p) && Counted(p, Open(p))
    ensures var flying, queued, batched := SeqsInFlight(p), SeqsOf(p.queue), SeqsOf(p.batch);
            && (forall n :: p.first < n <= p.last <==> n in flying + queued + batched + p.written + p.lost)
            && flying !! queued !! batched !! p.written !! p.lost
            && DistinctNumbers(p.queue) && DistinctNumbers(p.batch)
            && |p.written| == p.writtenCount && |p.lost| == p.dropped
  {
    hide Numbered, SeqsOf, SeqsInFlight;
    BatchIsOpen(p);
    WaitingIsOpen(p);
    assert SeqsOf(Pending(p)) == SeqsOf(p.batch) + SeqsOf(p.queue) by {
      SeqsOfConcat(p.batch, p.queue);
    }
  }

  lemma WaitingIsOpen(p: Pipe)
    requires Numbered(p)
    ensures SeqsOf(p.queue) !! p.written && SeqsInFlight(p) !! p.written
    ensures forall n :: n in SeqsOf(p.queue) || n in SeqsInFlight(p) ==> p.first < n <= p.last
  {
    forall r | r in p.queue ensures Unstored(p, r.seq_) {
      assert r in Pending(p);
    }
  }

  lemma {:induction false} RunCounts(s: State, events: seq<Event>)
    requires Opened(s)
    ensures Counted(Run(s, events).pipe, Open(Run(s, events).pipe))
  {
    if events == [] {
    } else {
      var front := events[..|events| - 1];
      RunCounts(s, front);
      RunNumbers(s, front);
      PipeCounts(Run(s, front), events[|events| - 1]);
    }
  }
}
