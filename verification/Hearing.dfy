/**
  What a follower hears (logs/store.go, api/server.go): the watch it reads is one actor among
  appenders, the writer and the flush its search calls. The interleavings are those of
  `LogStore`; what is forwarded of a stream is `Follower.Forwarded`.
*/
module Hearing {
  import opened LogStore
  import opened Follower

  // What a watch is sent -----------------------------------------------------------------

  /** The channel holds the end of what was sent, and what was sent is the history since. */
  ghost predicate Heard(history: seq<Record>, w: Watcher) {
    && w.from <= |history| && |w.buffer| <= |w.sent|
    && w.buffer == w.sent[|w.sent| - |w.buffer|..]
    && (!w.overflown ==> w.sent == history[w.from..])
  }

  ghost predicate AllHeard(h: LogStore.Hearing) {
    forall w :: w in h.watchers ==> Heard(h.history, h.watchers[w])
  }

  lemma OfferIsHeard(history: seq<Record>, w: Watcher, r: Record)
    requires Heard(history, w)
    ensures Heard(history + [r], Offer(w, r))
  {
    assert (history + [r])[w.from..] == history[w.from..] + [r];
    assert (w.sent + [r])[|w.sent| - |w.buffer|..] == w.sent[|w.sent| - |w.buffer|..] + [r];
  }

  lemma NextIsHeard(s: State, e: Event)
    requires AllHeard(s.hearing)
    ensures AllHeard(HearingNext(s, e))
  {
    if e.Deliver? && InFlight(s, e.t, false) {
      forall w | w in s.hearing.watchers {
        OfferIsHeard(s.hearing.history, s.hearing.watchers[w], s.pipe.flights[e.t].r);
      }
    }
  }

  lemma {:induction false} RunIsHeard(s: State, events: seq<Event>)
    requires Opened(s)
    ensures AllHeard(Run(s, events).hearing)
  {
    if events == [] {
    } else {
      RunIsHeard(s, events[..|events| - 1]);
      NextIsHeard(Run(s, events[..|events| - 1]), events[|events| - 1]);
    }
  }

  /** What the follower has taken from its channel so far. */
  function Taken(w: Watcher): seq<Record>
    requires |w.buffer| <= |w.sent|
  {
    w.sent[..|w.sent| - |w.buffer|]
  }

  // The order of numbers -------------------------------------------------------------------

  /** Each number is announced once, and a record not yet announced has a number of its own. */
  ghost predicate Announced(s: State) {
    && DistinctNumbers(s.hearing.history)
    && (forall r :: r in s.hearing.history ==> r.seq_ <= s.pipe.last)
    && (forall t :: t in s.pipe.flights ==> s.pipe.flights[t].r.seq_ <= s.pipe.last)
    && (forall t :: InFlight(s, t, false) ==> s.pipe.flights[t].r.seq_ !in SeqsOf(s.hearing.history))
    && (forall t, u :: t in s.pipe.flights && u in s.pipe.flights && t != u ==>
          s.pipe.flights[t].r.seq_ != s.pipe.flights[u].r.seq_)
  }

  /** The event draws a number: an append, or the writer's report of its losses. */
  predicate Draws(s: State, e: Event) {
    (e.Draw? && e.t !in s.pipe.flights) || (e.Report? && Reports(s, e.t))
  }

  /** A draw adds one flight, with the next number, and announces nothing. */
  lemma DrawAdds(s: State, e: Event)
    requires Draws(s, e)
    ensures var n := Next(s, e);
            && n.hearing == s.hearing && n.pipe.last == s.pipe.last + 1
            && exists r: Record :: r.seq_ == n.pipe.last && n.pipe.flights == s.pipe.flights[e.t := Issued(r)]
  {
    var r := (if e.Draw? then e.draft else LOSS).(seq_ := s.pipe.last + 1);
    assert Next(s, e).pipe.flights == s.pipe.flights[e.t := Issued(r)];
  }

  lemma DrawAnnounces(s: State, e: Event)
    requires Announced(s) && Draws(s, e)
    ensures Announced(Next(s, e))
  {
    var n := Next(s, e);
    DrawAdds(s, e);
    forall u | InFlight(n, u, false) ensures n.pipe.flights[u].r.seq_ !in SeqsOf(n.hearing.history) {
      assert u == e.t || InFlight(s, u, false);
    }
  }

  lemma DeliverAnnounces(s: State, t: nat)
    requires Announced(s) && InFlight(s, t, false)
    ensures Announced(Next(s, Deliver(t)))
  {
    var r, n := s.pipe.flights[t].r, Next(s, Deliver(t));
    SeqsOfConcat(s.hearing.history, [r]);
    assert SeqsOf([r]) == {r.seq_} by { assert r in [r]; }
    forall i | 0 <= i < |s.hearing.history| ensures s.hearing.history[i].seq_ != r.seq_ {
      assert s.hearing.history[i] in s.hearing.history;
    }
    forall u | InFlight(n, u, false) ensures n.pipe.flights[u].r.seq_ !in SeqsOf(n.hearing.history) {
      assert u != t && InFlight(s, u, false);
    }
  }

  lemma EnqueueAnnounces(s: State, t: nat)
    requires Announced(s) && InFlight(s, t, true)
    ensures Announced(Next(s, Enqueue(t)))
  {
    var n := Next(s, Enqueue(t));
    assert forall u :: InFlight(n, u, false) ==> InFlight(s, u, false);
  }

  /** The other events leave both the flights and the history alone. */
  lemma OthersAreQuiet(s: State, e: Event)
    requires !Draws(s, e)
    requires e.Deliver? ==> !InFlight(s, e.t, false)
    requires e.Enqueue? ==> !InFlight(s, e.t, true)
    ensures var n := Next(s, e);
            && n.hearing.history == s.hearing.history && n.pipe.last == s.pipe.last
            && n.pipe.flights == s.pipe.flights
  {
  }

  lemma NextAnnounces(s: State, e: Event)
    requires Announced(s)
    ensures Announced(Next(s, e))
  {
    if Draws(s, e) {
      DrawAnnounces(s, e);
    } else if e.Deliver? && InFlight(s, e.t, false) {
      DeliverAnnounces(s, e.t);
    } else if e.Enqueue? && InFlight(s, e.t, true) {
      EnqueueAnnounces(s, e.t);
    } else {
      OthersAreQuiet(s, e);
      assert forall t :: InFlight(Next(s, e), t, false) <==> InFlight(s, t, false);
    }
  }

  lemma {:induction false} RunAnnounces(s: State, events: seq<Event>)
    requires Opened(s)
    ensures Announced(Run(s, events))
  {
    if events == [] {
    } else {
      RunAnnounces(s, events[..|events| - 1]);
      NextAnnounces(Run(s, events[..|events| - 1]), events[|events| - 1]);
    }
  }

  /** No two appends overlap: a number is drawn only when nothing is in flight. */
  ghost predicate Serial(s: State, events: seq<Event>) {
    events != [] ==>
      var s0 := Run(s, events[..|events| - 1]);
      Serial(s, events[..|events| - 1]) && (Draws(s0, events[|events| - 1]) ==> s0.pipe.flights == map[])
  }

  /** With serial appends the history rises, and what is in flight comes after all of it. */
  ghost predicate InOrder(s: State) {
    && Rising(s.hearing.history)
    && (forall r :: r in s.hearing.history ==> r.seq_ <= s.pipe.last)
    && (forall t, u :: t in s.pipe.flights && u in s.pipe.flights ==> t == u)
    && (forall t :: InFlight(s, t, false) ==>
          s.pipe.flights[t].r.seq_ <= s.pipe.last && forall r :: r in s.hearing.history ==> r.seq_ < s.pipe.flights[t].r.seq_)
  }

  lemma NextInOrder(s: State, e: Event)
    requires InOrder(s) && (Draws(s, e) ==> s.pipe.flights == map[])
    ensures InOrder(Next(s, e))
  {
    var n := Next(s, e);
    if Draws(s, e) {
      assert n.pipe.flights.Keys == {e.t};
    } else if e.Deliver? && InFlight(s, e.t, false) {
      assert forall u :: !InFlight(n, u, false);
    } else if e.Enqueue? && InFlight(s, e.t, true) {
      assert forall u :: InFlight(n, u, false) ==> InFlight(s, u, false);
    } else {
      OthersAreQuiet(s, e);
      assert forall t :: InFlight(n, t, false) <==> InFlight(s, t, false);
    }
  }

  lemma {:induction false} RunInOrder(s: State, events: seq<Event>)
    requires Opened(s) && Serial(s, events)
    ensures InOrder(Run(s, events))
  {
    if events == [] {
    } else {
      RunInOrder(s, events[..|events| - 1]);
      NextInOrder(Run(s, events[..|events| - 1]), events[|events| - 1]);
    }
  }

  // What a follower hears --------------------------------------------------------------------

  /** Where in the history the follower that reads this watch is. */
  function Reached(w: Watcher): nat
    requires |w.buffer| <= |w.sent|
  {
    w.from + |Taken(w)|
  }

  /**
    In every interleaving, a follower whose watch has not overflowed is sent a record
    appended since the watch began exactly when the record matches, comes after the
    backlog, and no higher number was announced before it since the watch began.
  */
  lemma HeardUnlessOvertaken(s: State, events: seq<Event>, w: nat, q: Query, last: nat, i: nat)
    requires Opened(s) && w in Run(s, events).hearing.watchers
    requires !Run(s, events).hearing.watchers[w].overflown
    ensures var h := Run(s, events).hearing;
            var me := h.watchers[w];
            && Heard(h.history, me) && Reached(me) <= |h.history|
            && (me.from <= i < Reached(me) ==>
                  (h.history[i] in Forwarded(q, last, Taken(me)) <==>
                     && Matches(q, h.history[i]) && last < h.history[i].seq_
                     && forall j :: me.from <= j < i ==> h.history[j].seq_ < h.history[i].seq_))
  {
    RunIsHeard(s, events);
    RunAnnounces(s, events);
    var h := Run(s, events).hearing;
    var me := h.watchers[w];
    TakenIs(h.history, me);
    if me.from <= i < Reached(me) {
      SliceForwarded(q, last, h.history, me.from, Reached(me), i);
    }
  }

  lemma TakenIs(history: seq<Record>, w: Watcher)
    requires Heard(history, w) && !w.overflown
    ensures Reached(w) <= |history| && Taken(w) == history[w.from..Reached(w)]
  {
  }

  lemma SliceForwarded(q: Query, last: nat, history: seq<Record>, from: nat, to: nat, i: nat)
    requires DistinctNumbers(history) && from <= i < to <= |history|
    ensures history[i] in Forwarded(q, last, history[from..to]) <==>
              Matches(q, history[i]) && last < history[i].seq_ && forall j :: from <= j < i ==> history[j].seq_ < history[i].seq_
  {
    var stream := history[from..to];
    ForwardedWhen(q, last, stream, i - from);
    if HighestYet(stream, i - from) {
      forall j | from <= j < i ensures history[j].seq_ < history[i].seq_ {
        assert stream[j - from] == history[j];
      }
    }
  }

  /**
    With serial appends and a watch that has not overflowed, a follower is sent every
    matching record appended since the watch began whose number exceeds the backlog's last,
    once each and in order, as far as it has read.
  */
  lemma FollowerHearsEverything(s: State, events: seq<Event>, w: nat, q: Query, last: nat)
    requires Opened(s) && Serial(s, events) && w in Run(s, events).hearing.watchers
    requires !Run(s, events).hearing.watchers[w].overflown
    ensures var h := Run(s, events).hearing;
            var me := h.watchers[w];
            && Heard(h.history, me) && Reached(me) <= |h.history|
            && Forwarded(q, last, Taken(me)) == Kept(q, last, h.history[me.from..Reached(me)])
  {
    RunIsHeard(s, events);
    RunInOrder(s, events);
    var h := Run(s, events).hearing;
    var me := h.watchers[w];
    TakenIs(h.history, me);
    InOrderNothingIsLost(q, last, Taken(me));
  }

  /**
    Between backlog and stream: a record announced before the flush was answered is on its
    way to the watch, or committed or counted as dropped, unless it was announced before
    the watch began and its append had not returned when the flush was called.
  */
  lemma NothingElseFallsBetween(s: State, before: seq<Event>, f: nat, after: seq<Event>, w: nat, i: nat)
    requires Opened(s)
    requires f !in Run(s, before).flushes && f !in Run(s, before).served
    requires f in Run(s, before + [CallFlush(f)] + after).served
    requires w in Run(s, before + [CallFlush(f)] + after).hearing.watchers
    requires i < |Run(s, before + [CallFlush(f)] + after).hearing.history|
    ensures var e := Run(s, before + [CallFlush(f)] + after);
            var r, me := e.hearing.history[i], e.hearing.watchers[w];
            || (i >= me.from && (r in me.sent || me.overflown))
            || r.seq_ in e.pipe.written || r.seq_ in e.pipe.lost
            || (i < me.from && r.seq_ !in Run(s, before).pipe.returned)
  {
    var events := before + [CallFlush(f)] + after;
    FlushedMeansSettled(s, before, f, after);
    RunIsHeard(s, events);
    var e := Run(s, events);
    var me := e.hearing.watchers[w];
    if i >= me.from && !me.overflown {
      assert me.sent[i - me.from] == e.hearing.history[i];
    }
  }

  // Both exceptions are real -----------------------------------------------------------------

  const ANYTHING: Query := Query("", "", "", "", 0, 0)
  const LINE: Record := Record(0, 0, "web", "stdout", "", "", "hello")
  const EMPTY: Pipe := Pipe(0, 0, map[], [], [], map[], {}, {}, 0, 0, {})
  const START: State := State(EMPTY, LogStore.Hearing([], map[]), Idle, 0, false, map[], map[])

  lemma Go(events: seq<Event>, at: State, e: Event, there: State) returns (longer: seq<Event>)
    requires Run(START, events) == at && Next(at, e) == there
    ensures Run(START, longer) == there
  {
    longer := events + [e];
    assert longer[..|longer| - 1] == events;
  }

  lemma DrawIs(s: State, t: nat)
    requires t !in s.pipe.flights
    ensures Next(s, Draw(t, LINE)) == s.(pipe := Drawn(s.pipe, t, LINE))
  {
  }

  lemma DeliverIs(s: State, t: nat)
    requires InFlight(s, t, false)
    ensures Next(s, Deliver(t)) == s.(pipe := Flown(s.pipe, t), hearing := Offered(s.hearing, s.pipe.flights[t].r))
  {
  }

  lemma WatchIs(s: State, w: nat)
    requires s.hearing.watchers == map[]
    ensures Next(s, Watch(w, 1024)) ==
            s.(hearing := s.hearing.(watchers := map[w := Watcher([], 1024, |s.hearing.history|, [], false)]))
  {
  }

  /** Appends a record up to and including its announcement. */
  lemma Announces(t: nat) returns (events: seq<Event>, there: State)
    ensures var r := LINE.(seq_ := 1);
            && Run(START, events) == there
            && there == START.(pipe := EMPTY.(last := 1, flights := map[t := Delivered(r)]), hearing := LogStore.Hearing([r], map[]))
  {
    var r := LINE.(seq_ := 1);
    DrawIs(START, t);
    var issued := START.(pipe := EMPTY.(last := 1, flights := map[t := Issued(r)]));
    events := Go([], START, Draw(t, LINE), issued);
    DeliverIs(issued, t);
    there := Next(issued, Deliver(t));
    assert there.pipe.flights == map[t := Delivered(r)];
    assert there.hearing.watchers == map[];
    events := Go(events, issued, Deliver(t), there);
  }

  lemma CallIs(s: State, f: nat)
    requires s.flushes == map[] && s.served == map[]
    ensures Next(s, CallFlush(f)) == s.(flushes := map[f := s.pipe.returned])
  {
  }

  lemma AcceptIs(s: State, f: nat)
    requires s.writer == Idle && f in s.flushes
    ensures Next(s, Accept(f)) == s.(writer := Draining(f))
  {
  }

  lemma DrainIs(s: State, f: nat)
    requires s.writer == Draining(f) && s.pipe.queue == []
    ensures Next(s, DrainOne) == s.(writer := Flushing(f))
  {
  }

  lemma WriteIs(s: State, f: nat)
    requires s.writer == Flushing(f) && s.pipe.batch == [] && f in s.flushes
    ensures Next(s, Write(true)) == s.(writer := Idle, flushes := s.flushes - {f}, served := s.served[f := s.flushes[f]])
  {
    assert SeqsOf([]) == {};
  }

  /** A flush of an empty pipe is called and answered. */
  lemma Flushes(events: seq<Event>, at: State, f: nat) returns (longer: seq<Event>, there: State)
    requires Run(START, events) == at && at.writer == Idle && at.pipe.queue == [] && at.pipe.batch == []
    requires at.flushes == map[] && at.served == map[]
    ensures Run(START, longer) == there && there == at.(served := map[f := at.pipe.returned])
  {
    var called := at.(flushes := map[f := at.pipe.returned]);
    CallIs(at, f);
    longer := Go(events, at, CallFlush(f), called);
    AcceptIs(called, f);
    longer := Go(longer, called, Accept(f), called.(writer := Draining(f)));
    DrainIs(called.(writer := Draining(f)), f);
    longer := Go(longer, called.(writer := Draining(f)), DrainOne, called.(writer := Flushing(f)));
    WriteIs(called.(writer := Flushing(f)), f);
    there := at.(served := map[f := at.pipe.returned]);
    assert called.flushes - {f} == map[];
    longer := Go(longer, called.(writer := Flushing(f)), Write(true), there);
  }

  /**
    An append that has announced its record but not yet queued it is missed by a follower
    that starts its watch, and has its flush answered, right then.
  */
  lemma RecordInTheGap() returns (events: seq<Event>, end: State)
    ensures Opened(START) && Run(START, events) == end && 0 in end.hearing.watchers && 0 in end.served
    ensures var r, me := LINE.(seq_ := 1), end.hearing.watchers[0];
            && end.hearing.history == [r] && Matches(ANYTHING, r)
            && end.pipe.table == map[] && me.sent == [] && !me.overflown
  {
    var at;
    events, at := Announces(0);
    WatchIs(at, 0);
    var watched := at.(hearing := at.hearing.(watchers := map[0 := Watcher([], 1024, 1, [], false)]));
    events := Go(events, at, Watch(0, 1024), watched);
    events, end := Flushes(events, watched, 0);
  }

  /** An append overtaken between its number and its announcement is never forwarded. */
  lemma OvertakenIsLost() returns (events: seq<Event>, end: State)
    ensures Opened(START) && Run(START, events) == end && 0 in end.hearing.watchers
    ensures var r, later, me := LINE.(seq_ := 1), LINE.(seq_ := 2), end.hearing.watchers[0];
            && me.sent == [later, r] && !me.overflown
            && Matches(ANYTHING, r) && r !in Forwarded(ANYTHING, 0, me.sent)
  {
    var r, later := LINE.(seq_ := 1), LINE.(seq_ := 2);
    var at;
    events, at := TwoAreDrawn(r, later);
    DeliverIs(at, 1);
    var told := Next(at, Deliver(1));
    events := Go(events, at, Deliver(1), told);
    DeliverIs(told, 0);
    end := Next(told, Deliver(0));
    events := Go(events, told, Deliver(0), end);
    assert Forwarded(ANYTHING, 0, [later, r]) == [later] by {
      assert [later, r][1..] == [r];
      assert Forwarded(ANYTHING, 2, [r]) == [];
    }
  }

  /** Two appends have their numbers, and neither has announced its record. */
  lemma TwoAreDrawn(r: Record, later: Record) returns (events: seq<Event>, there: State)
    requires r == LINE.(seq_ := 1) && later == LINE.(seq_ := 2)
    ensures Run(START, events) == there
    ensures there.pipe.flights == map[0 := Issued(r), 1 := Issued(later)]
    ensures there.hearing == LogStore.Hearing([], map[0 := Watcher([], 1024, 0, [], false)])
  {
    var watched := START.(hearing := LogStore.Hearing([], map[0 := Watcher([], 1024, 0, [], false)]));
    WatchIs(START, 0);
    events := Go([], START, Watch(0, 1024), watched);
    DrawIs(watched, 0);
    var one := EMPTY.(last := 1, flights := map[0 := Issued(r)]);
    assert Drawn(EMPTY, 0, LINE) == one;
    events := Go(events, watched, Draw(0, LINE), watched.(pipe := one));
    DrawIs(watched.(pipe := one), 1);
    var two := EMPTY.(last := 2, flights := map[0 := Issued(r), 1 := Issued(later)]);
    assert Drawn(one, 1, LINE) == two;
    there := watched.(pipe := two);
    events := Go(events, watched.(pipe := one), Draw(1, LINE), there);
  }
}
