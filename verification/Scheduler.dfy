/**
  The clock side of jobs (supervisor/schedule.go): which slot of which job is started at
  which tick. Instants are nanoseconds since the zero time of Go's `time` package, which is
  what `Truncate` counts from.
*/
module Scheduler {
  import opened Options
  import opened Services

  type Instant = nat

  const SECOND: nat := 1_000_000_000
  /** 1970-01-01, counted from year 1. */
  const UNIX_EPOCH: nat := 62_135_596_800 * SECOND
  /** 2025-06-11 at midnight. */
  const RECENT: nat := UNIX_EPOCH + 1_749_600_000 * SECOND

  /** Aligned to the clock: the last multiple of `every` that is not after `now`. */
  function SlotOf(now: Instant, every: nat): (slot: Instant)
    requires every > 0
    ensures slot <= now < slot + every && slot % every == 0
  {
    SlotIsAligned(now, every);
    now - now % every
  }

  lemma SlotIsAligned(now: Instant, every: nat)
    requires every > 0
    ensures (now - now % every) % every == 0
  {
    assert now - now % every == (now / every) * every;
    MultipleHasNoRest(now / every, every);
  }

  lemma AtLeastOnce(k: int, every: nat)
    requires k >= 1
    ensures k * every >= every
  {
    assert k * every == (k - 1) * every + every;
    NotNegative(k - 1, every);
  }

  lemma NotNegative(k: nat, every: nat)
    ensures k * every >= 0
  {
  }

  lemma MultipleHasNoRest(k: nat, every: nat)
    requires every > 0
    ensures (k * every) % every == 0
  {
    var x := k * every;
    var q, r := x / every, x % every;
    assert x == q * every + r;
    assert (k - q) * every == r;
    assert (q - k) * every == -((k - q) * every);
    if k > q { AtLeastOnce(k - q, every); }
    if q > k { AtLeastOnce(q - k, every); }
  }

  /** Two multiples of `every` that differ are at least that far apart. */
  lemma MultiplesAreApart(a: nat, b: nat, every: nat)
    requires every > 0 && a % every == 0 && b % every == 0 && a < b
    ensures a + every <= b
  {
    var i, j := a / every, b / every;
    assert a == i * every && b == j * every;
    assert (j - i) * every == b - a;
    assert (i - j) * every == -((j - i) * every);
    if j - i >= 1 {
      AtLeastOnce(j - i, every);
    } else {
      NotNegative(i - j, every);
    }
  }

  /** No later instant has an earlier slot. */
  lemma SlotsFollowTheClock(a: Instant, b: Instant, every: nat)
    requires every > 0 && a <= b
    ensures SlotOf(a, every) <= SlotOf(b, every)
  {
    if SlotOf(b, every) < SlotOf(a, every) {
      MultiplesAreApart(SlotOf(b, every), SlotOf(a, every), every);
    }
  }

  /** The milliseconds a run is named for. */
  function RunId(slot: Instant): int {
    (slot - UNIX_EPOCH) / 1_000_000
  }

  /** Runs of different slots have different names: a schedule is never finer than a second. */
  lemma RunIdsAreDistinct(a: Instant, b: Instant, every: nat)
    requires every >= SECOND && a % every == 0 && b % every == 0
    ensures RunId(a) == RunId(b) <==> a == b
  {
    if a < b { MultiplesAreApart(a, b, every); }
    if b < a { MultiplesAreApart(b, a, every); }
  }

  // The scheduler ---------------------------------------------------------------------

  datatype Firing = Firing(name: string, slot: Instant, at: Instant)

  /** A job that wants to run, on a schedule that parses. `interval` stands for `time.ParseDuration`. */
  predicate Scheduled(svc: Service, interval: string -> int) {
    svc.IsJob() && svc.WantRunning() && interval(svc.every) > 0
  }

  function At(fired: map<string, Instant>, name: string): Option<Instant> {
    if name in fired then Some(fired[name]) else None
  }

  /** The slot of this tick is one that was not fired yet. First sight is no reason to run. */
  predicate Due(last: Option<Instant>, svc: Service, now: Instant, interval: string -> int) {
    Scheduled(svc, interval) && last.Some? && SlotOf(now, interval(svc.every)) > last.value
  }

  /** What a tick remembers of one job. */
  function Recall(last: Option<Instant>, svc: Service, now: Instant, interval: string -> int): Option<Instant> {
    if Scheduled(svc, interval) && (last.None? || Due(last, svc, now, interval)) then
      Some(SlotOf(now, interval(svc.every)))
    else last
  }

  /** A tick that has looked at the services of `done`: each on its own, in whatever order. */
  ghost predicate Ticked(before: map<string, Instant>, after: map<string, Instant>, firings: seq<Firing>,
                         declared: map<string, Service>, done: set<string>, now: Instant, interval: string -> int)
    requires done <= declared.Keys
  {
    && (forall n :: At(after, n) == if n in done then Recall(At(before, n), declared[n], now, interval) else At(before, n))
    && (forall f :: f in firings <==>
          f.name in done && Due(At(before, f.name), declared[f.name], now, interval)
          && f.at == now && f.slot == SlotOf(now, interval(declared[f.name].every)))
    && (forall i, j :: 0 <= i < j < |firings| ==> firings[i].name != firings[j].name)
  }

  class Scheduler {
    const interval: string -> int
    var fired: map<string, Instant>

    constructor (interval: string -> int)
      ensures this.interval == interval && fired == map[]
    {
      this.interval, fired := interval, map[];
    }

    /** One look at the clock. The firings are the runs `startRun` is then asked for. */
    method FireDue(now: Instant, declared: map<string, Service>) returns (firings: seq<Firing>)
      requires forall n :: n in declared ==> declared[n].name == n
      modifies `fired
      ensures Ticked(old(fired), fired, firings, declared, declared.Keys, now, interval)
    {
      firings := [];
      var todo := declared.Keys;
      ghost var done: set<string> := {};
      while todo != {}
        invariant todo <= declared.Keys && done == declared.Keys - todo
        invariant Ticked(old(fired), fired, firings, declared, done, now, interval)
        decreases |todo|
      {
        var name :| name in todo;
        ghost var mid, said := fired, firings;
        var due := LookAt(declared[name], now);
        if due {
          firings := firings + [Firing(name, SlotOf(now, interval(declared[name].every)), now)];
        }
        TickOne(old(fired), mid, fired, said, firings, declared, done, name, now, interval);
        todo, done := todo - {name}, done + {name};
      }
      assert done == declared.Keys;
    }

    /** One job of one tick: the critical section that remembers the slot. */
    method LookAt(svc: Service, now: Instant) returns (due: bool)
      modifies `fired
      ensures due == Due(old(At(fired, svc.name)), svc, now, interval)
      ensures At(fired, svc.name) == Recall(old(At(fired, svc.name)), svc, now, interval)
      ensures forall n :: n != svc.name ==> At(fired, n) == old(At(fired, n))
    {
      due := false;
      if !Scheduled(svc, interval) { return; }
      var slot := SlotOf(now, interval(svc.every));
      if svc.name !in fired {
        fired := fired[svc.name := slot];
      } else if slot > fired[svc.name] {
        fired := fired[svc.name := slot];
        due := true;
      }
    }
  }

  lemma TickOne(before: map<string, Instant>, mid: map<string, Instant>, after: map<string, Instant>,
                said: seq<Firing>, firings: seq<Firing>, declared: map<string, Service>, done: set<string>,
                name: string, now: Instant, interval: string -> int)
    requires name in declared && name !in done && done <= declared.Keys
    requires Ticked(before, mid, said, declared, done, now, interval)
    requires forall n :: n != name ==> At(after, n) == At(mid, n)
    requires At(after, name) == Recall(At(mid, name), declared[name], now, interval)
    requires firings == said + if Due(At(mid, name), declared[name], now, interval)
                               then [Firing(name, SlotOf(now, interval(declared[name].every)), now)] else []
    ensures Ticked(before, after, firings, declared, done + {name}, now, interval)
  {
    assert At(mid, name) == At(before, name);
    forall i, j | 0 <= i < j < |firings| ensures firings[i].name != firings[j].name {
      assert firings[i] in said;
    }
  }

  // Whole runs ------------------------------------------------------------------------

  datatype Event = Tick(now: Instant, declared: map<string, Service>) | Restart

  datatype State = State(fired: map<string, Instant>, log: seq<Firing>)

  /** What one event can lead to. A daemon that restarts has forgotten every slot. */
  ghost predicate Step(s: State, e: Event, t: State, interval: string -> int) {
    match e
    case Restart => t == State(map[], s.log)
    case Tick(now, declared) =>
      && |s.log| <= |t.log| && t.log[..|s.log|] == s.log
      && Ticked(s.fired, t.fired, t.log[|s.log|..], declared, declared.Keys, now, interval)
  }

  /** A run of the scheduler: the states before and after each event. */
  ghost predicate IsRun(states: seq<State>, events: seq<Event>, interval: string -> int) {
    && |states| == |events| + 1
    && states[0] == State(map[], [])
    && forall i :: 0 <= i < |events| ==> Step(states[i], events[i], states[i + 1], interval)
  }

  /** The clock does not go back. */
  ghost predicate Forward(events: seq<Event>) {
    forall i, j :: 0 <= i < j < |events| && events[i].Tick? && events[j].Tick? ==> events[i].now <= events[j].now
  }

  /** Whenever `name` is declared its schedule is `every`. */
  ghost predicate Every(events: seq<Event>, name: string, every: nat, interval: string -> int) {
    && every > 0
    && forall i :: 0 <= i < |events| && events[i].Tick? && name in events[i].declared ==>
         Scheduled(events[i].declared[name], interval) ==> interval(events[i].declared[name].every) == every
  }

  ghost predicate NoRestart(events: seq<Event>) {
    forall i :: 0 <= i < |events| ==> !events[i].Restart?
  }

  /** The slots of one job in the log go up, so none is there twice. */
  ghost predicate Increasing(log: seq<Firing>, name: string) {
    forall i, j :: 0 <= i < j < |log| && log[i].name == name && log[j].name == name ==> log[i].slot < log[j].slot
  }

  /** What a daemon knows of a job bounds everything ever fired for it. */
  ghost predicate Bounded(s: State, name: string) {
    && Increasing(s.log, name)
    && (name in s.fired ==> forall f :: f in s.log && f.name == name ==> f.slot <= s.fired[name])
  }

  /** Every firing is a slot of the schedule, and no more than one interval old when it is fired. */
  ghost predicate OnSchedule(log: seq<Firing>, name: string, every: nat)
    requires every > 0
  {
    forall f :: f in log && f.name == name ==> f.slot == SlotOf(f.at, every)
  }

  lemma LogEntry(s: State, e: Event, t: State, interval: string -> int, i: nat)
    requires Step(s, e, t, interval) && i < |t.log|
    ensures i < |s.log| ==> t.log[i] == s.log[i] && t.log[i] in s.log
    ensures i >= |s.log| ==> e.Tick? && t.log[i] in t.log[|s.log|..] && t.log[i] == t.log[|s.log|..][i - |s.log|]
  {
    if i < |s.log| {
      assert e.Tick? ==> t.log[i] == t.log[..|s.log|][i];
    }
  }

  /** One event of a run in which the log so far is bounded by what this daemon remembers. */
  lemma StepKeepsBound(s: State, e: Event, t: State, name: string, interval: string -> int)
    requires Step(s, e, t, interval) && Bounded(s, name)
    requires e.Tick? && name !in s.fired && name in t.fired ==>
      forall f :: f in s.log && f.name == name ==> f.slot <= t.fired[name]
    ensures Bounded(t, name)
  {
    if e.Tick? {
      forall i, j | 0 <= i < j < |t.log| && t.log[i].name == name && t.log[j].name == name
        ensures t.log[i].slot < t.log[j].slot
      {
        LogEntry(s, e, t, interval, i);
        LogEntry(s, e, t, interval, j);
        if j >= |s.log| {
          assert name in s.fired && t.log[j].slot > s.fired[name];
        }
      }
      forall f | f in t.log && f.name == name ensures name in t.fired ==> f.slot <= t.fired[name] {
        var i :| 0 <= i < |t.log| && t.log[i] == f;
        LogEntry(s, e, t, interval, i);
        assert At(t.fired, name) == if name in e.declared then Recall(At(s.fired, name), e.declared[name], e.now, interval)
                                    else At(s.fired, name);
      }
    }
  }

  lemma RunFront(states: seq<State>, events: seq<Event>, interval: string -> int)
    requires IsRun(states, events, interval) && events != []
    ensures IsRun(states[..|events|], events[..|events| - 1], interval)
    ensures Step(states[|events| - 1], events[|events| - 1], states[|events|], interval)
  {
  }

  /** While the daemon lives no slot of a job is fired twice, however its schedule is edited and whatever the clock does. */
  lemma {:induction false} NoSlotTwiceInOneLife(states: seq<State>, events: seq<Event>, name: string, interval: string -> int)
    requires IsRun(states, events, interval) && NoRestart(events)
    ensures Increasing(states[|events|].log, name)
    ensures Bounded(states[|events|], name)
    ensures forall f :: f in states[|events|].log && f.name == name ==> name in states[|events|].fired
  {
    if events == [] {
    } else {
      var k := |events| - 1;
      RunFront(states, events, interval);
      NoSlotTwiceInOneLife(states[..|events|], events[..k], name, interval);
      var s, e, t := states[k], events[k], states[k + 1];
      assert !e.Restart?;
      StepKeepsBound(s, e, t, name, interval);
      forall f | f in t.log && f.name == name ensures name in t.fired {
        var i :| 0 <= i < |t.log| && t.log[i] == f;
        LogEntry(s, e, t, interval, i);
        Remembers(s, e, t, name, interval);
      }
    }
  }

  /** A tick forgets nothing. */
  lemma Remembers(s: State, e: Event, t: State, name: string, interval: string -> int)
    requires Step(s, e, t, interval) && e.Tick?
    ensures At(t.fired, name) == if name in e.declared then Recall(At(s.fired, name), e.declared[name], e.now, interval)
                                 else At(s.fired, name)
    ensures name in s.fired ==> name in t.fired && s.fired[name] <= t.fired[name]
  {
  }

  /** The last tick bounds the instants in the log. */
  ghost predicate Since(log: seq<Firing>, events: seq<Event>) {
    forall f :: f in log ==> exists i :: 0 <= i < |events| && events[i].Tick? && events[i].now == f.at
  }

  /**
    Over any ticks and daemon restarts, with a clock that does not go back and a schedule
    that stays as it is: no slot is fired twice, and every firing is the slot of its instant,
    so a multiple of the interval, not after now and less than one interval old.
  */
  lemma {:induction false} NoSlotTwice(states: seq<State>, events: seq<Event>, name: string, every: nat, interval: string -> int)
    requires IsRun(states, events, interval) && Forward(events) && Every(events, name, every, interval)
    ensures var log := states[|events|].log;
            && Increasing(log, name) && OnSchedule(log, name, every) && Since(log, events)
    ensures Bounded(states[|events|], name)
  {
    if events == [] {
    } else {
      var k := |events| - 1;
      var front := events[..k];
      RunFront(states, events, interval);
      NoSlotTwice(states[..|events|], front, name, every, interval);
      var s, e, t := states[k], events[k], states[k + 1];
      assert s == states[..|events|][k];
      LogStaysOnSchedule(s, e, t, events, name, every, interval);
      if e.Tick? && name !in s.fired && name in t.fired {
        Remembers(s, e, t, name, interval);
        forall f | f in s.log && f.name == name ensures f.slot <= t.fired[name] {
          var i :| 0 <= i < |front| && front[i].Tick? && front[i].now == f.at;
          assert events[i] == front[i] && events[k].now >= events[i].now;
          SlotsFollowTheClock(f.at, e.now, every);
        }
      }
      StepKeepsBound(s, e, t, name, interval);
    }
  }

  lemma LogStaysOnSchedule(s: State, e: Event, t: State, events: seq<Event>, name: string, every: nat, interval: string -> int)
    requires events != [] && e == events[|events| - 1] && Step(s, e, t, interval)
    requires Every(events, name, every, interval)
    requires OnSchedule(s.log, name, every) && Since(s.log, events[..|events| - 1])
    ensures OnSchedule(t.log, name, every) && Since(t.log, events)
  {
    var front := events[..|events| - 1];
    forall f | f in t.log
      ensures f.name == name ==> f.slot == SlotOf(f.at, every)
      ensures exists i :: 0 <= i < |events| && events[i].Tick? && events[i].now == f.at
    {
      var j :| 0 <= j < |t.log| && t.log[j] == f;
      LogEntry(s, e, t, interval, j);
      if j < |s.log| {
        var i :| 0 <= i < |front| && front[i].Tick? && front[i].now == f.at;
        assert events[i] == front[i];
      } else {
        assert events[|events| - 1].now == f.at;
      }
    }
  }

  /** First sight of a job in a daemon's life never fires it. */
  lemma FirstSightNeverFires(s: State, e: Event, t: State, name: string, interval: string -> int)
    requires Step(s, e, t, interval) && name !in s.fired
    ensures |s.log| <= |t.log| && forall i :: |s.log| <= i < |t.log| ==> t.log[i].name != name
  {
    forall i | |s.log| <= i < |t.log| ensures t.log[i].name != name {
      LogEntry(s, e, t, interval, i);
    }
  }

  /** In one life with the job always wanted, what is fired is every slot seen but the first. */
  ghost predicate AlwaysWanted(events: seq<Event>, name: string, every: nat, interval: string -> int) {
    && every > 0
    && forall i :: 0 <= i < |events| ==>
         events[i].Tick? && name in events[i].declared
         && Scheduled(events[i].declared[name], interval) && interval(events[i].declared[name].every) == every
  }

  ghost predicate FiredFor(log: seq<Firing>, name: string, slot: Instant) {
    exists f :: f in log && f.name == name && f.slot == slot
  }

  ghost predicate Seen(events: seq<Event>, slot: Instant, every: nat)
    requires every > 0
  {
    exists i :: 0 <= i < |events| && events[i].Tick? && slot == SlotOf(events[i].now, every)
  }

  lemma {:induction false} EverySlotSeenIsFired(states: seq<State>, events: seq<Event>, name: string, every: nat, interval: string -> int)
    requires IsRun(states, events, interval) && Forward(events) && events != []
    requires AlwaysWanted(events, name, every, interval)
    ensures At(states[|events|].fired, name) == Some(SlotOf(events[|events| - 1].now, every))
    ensures forall slot :: FiredFor(states[|events|].log, name, slot) <==>
              slot != SlotOf(events[0].now, every) && Seen(events, slot, every)
  {
    hide FiredFor, Seen, SlotOf, Step, AlwaysWanted, Forward;
    var k := |events| - 1;
    var s, e, t := states[k], events[k], states[k + 1];
    StaysWanted(events, name, every, interval);
    RunFront(states, events, interval);
    Remembers(s, e, t, name, interval);
    if k == 0 {
      FirstSightNeverFires(s, e, t, name, interval);
      FirstTick(s, t, events, name, every);
    } else {
      var front := events[..k];
      assert events[k - 1] == front[k - 1] && events[0] == front[0];
      EverySlotSeenIsFired(states[..|events|], front, name, every, interval);
      assert s == states[..|events|][k] && events[|events| - 2] == events[k - 1];
      SlotsFollowTheClock(events[k - 1].now, e.now, every);
      OneTickMore(s, e, t, events, name, every, interval);
    }
  }

  lemma StaysWanted(events: seq<Event>, name: string, every: nat, interval: string -> int)
    requires events != [] && AlwaysWanted(events, name, every, interval) && Forward(events)
    ensures var k := |events| - 1;
            && events[k].Tick? && name in events[k].declared && every > 0
            && Scheduled(events[k].declared[name], interval) && interval(events[k].declared[name].every) == every
            && events[0].Tick?
            && (k > 0 ==> AlwaysWanted(events[..k], name, every, interval) && Forward(events[..k])
                          && events[k - 1].Tick? && events[k - 1].now <= events[k].now)
  {
  }

  lemma OneTickMore(s: State, e: Event, t: State, events: seq<Event>, name: string, every: nat, interval: string -> int)
    requires |events| > 1 && e == events[|events| - 1] && Forward(events) && AlwaysWanted(events, name, every, interval)
    requires Step(s, e, t, interval) && At(s.fired, name) == Some(SlotOf(events[|events| - 2].now, every))
    requires forall slot :: FiredFor(s.log, name, slot) <==>
               slot != SlotOf(events[0].now, every) && Seen(events[..|events| - 1], slot, every)
    ensures forall slot :: FiredFor(t.log, name, slot) <==> slot != SlotOf(events[0].now, every) && Seen(events, slot, every)
  {
    hide FiredFor, Seen, SlotOf, Step;
    var k := |events| - 1;
    SlotsFollowTheClock(events[k - 1].now, e.now, every);
    SlotsFollowTheClock(events[0].now, events[k - 1].now, every);
    LastIsSeen(events[..k], every);
    forall slot
      ensures FiredFor(t.log, name, slot) <==> slot != SlotOf(events[0].now, every) && Seen(events, slot, every)
    {
      SeenOnceMore(events, slot, every);
      FiredOnceMore(s, e, t, name, slot, every, interval);
    }
  }

  lemma FirstTick(s: State, t: State, events: seq<Event>, name: string, every: nat)
    requires |events| == 1 && events[0].Tick? && every > 0 && s.log == [] && |s.log| <= |t.log|
    requires forall i :: |s.log| <= i < |t.log| ==> t.log[i].name != name
    ensures forall slot :: FiredFor(t.log, name, slot) <==> slot != SlotOf(events[0].now, every) && Seen(events, slot, every)
  {
    hide SlotOf;
  }

  lemma LastIsSeen(events: seq<Event>, every: nat)
    requires every > 0 && events != [] && events[|events| - 1].Tick?
    ensures Seen(events, SlotOf(events[|events| - 1].now, every), every)
  {
  }

  lemma SeenOnceMore(events: seq<Event>, slot: Instant, every: nat)
    requires every > 0 && events != [] && events[|events| - 1].Tick?
    ensures Seen(events, slot, every) <==>
              Seen(events[..|events| - 1], slot, every) || slot == SlotOf(events[|events| - 1].now, every)
  {
    var front := events[..|events| - 1];
    if Seen(front, slot, every) {
      var i :| 0 <= i < |front| && front[i].Tick? && slot == SlotOf(front[i].now, every);
      assert events[i] == front[i];
    }
    if Seen(events, slot, every) {
      var i :| 0 <= i < |events| && events[i].Tick? && slot == SlotOf(events[i].now, every);
      if i < |front| { assert front[i] == events[i]; }
    }
  }

  lemma FiredOnceMore(s: State, e: Event, t: State, name: string, slot: Instant, every: nat, interval: string -> int)
    requires Step(s, e, t, interval) && e.Tick? && name in e.declared && name in s.fired
    requires every > 0 && Scheduled(e.declared[name], interval) && interval(e.declared[name].every) == every
    ensures FiredFor(t.log, name, slot) <==>
              FiredFor(s.log, name, slot) || (slot == SlotOf(e.now, every) && slot > s.fired[name])
  {
    var added := t.log[|s.log|..];
    assert t.log == s.log + added;
    if slot == SlotOf(e.now, every) && slot > s.fired[name] {
      assert Firing(name, slot, e.now) in added;
    }
  }

  // When a slot can be fired again ------------------------------------------------------

  /** If this event is the first sight of the job in a life, its slot is no earlier than any fired before. */
  ghost predicate FirstSightFollows(s: State, e: Event, t: State, name: string) {
    e.Tick? && name !in s.fired && name in t.fired ==>
      forall f :: f in s.log && f.name == name ==> f.slot <= t.fired[name]
  }

  ghost predicate FirstSightsFollow(states: seq<State>, events: seq<Event>, name: string) {
    && |states| == |events| + 1
    && forall i :: 0 <= i < |events| ==> FirstSightFollows(states[i], events[i], states[i + 1], name)
  }

  /** Whatever the clock and the schedules do: while first sights follow, no slot is fired twice. */
  lemma {:induction false} SlotsRiseWhileFirstSightsFollow(states: seq<State>, events: seq<Event>, name: string, interval: string -> int)
    requires IsRun(states, events, interval) && FirstSightsFollow(states, events, name)
    ensures Bounded(states[|events|], name)
  {
    if events == [] {
    } else {
      var k := |events| - 1;
      RunFront(states, events, interval);
      assert FirstSightsFollow(states[..k + 1], events[..k], name);
      SlotsRiseWhileFirstSightsFollow(states[..k + 1], events[..k], name, interval);
      StepKeepsBound(states[k], events[k], states[k + 1], name, interval);
    }
  }

  /** The rest of a daemon's life from a state it reached at `now`. */
  ghost predicate GoesOn(t: State, now: Instant, states: seq<State>, events: seq<Event>, interval: string -> int) {
    && |states| == |events| + 1 && states[0] == t
    && forall i :: 0 <= i < |events| ==> events[i].Tick? && now <= events[i].now && Step(states[i], events[i], states[i + 1], interval)
  }

  /** It fires the slot. */
  ghost predicate Fires(t: State, states: seq<State>, name: string, slot: Instant) {
    && states != [] && |t.log| <= |states[|states| - 1].log|
    && FiredFor(states[|states| - 1].log[|t.log|..], name, slot)
  }

  /** Some way for the life to go on fires the slot. */
  ghost predicate CanFire(t: State, now: Instant, name: string, slot: Instant, interval: string -> int) {
    exists states: seq<State>, events: seq<Event> :: GoesOn(t, now, states, events, interval) && Fires(t, states, name, slot)
  }

  /** Some schedule that parses has this slot in force. */
  ghost predicate InForce(now: Instant, slot: Instant, interval: string -> int) {
    exists svc: Service :: Scheduled(svc, interval) && SlotOf(now, interval(svc.every)) == slot
  }

  ghost predicate InForceLater(now: Instant, slot: Instant, interval: string -> int) {
    exists later: Instant :: later >= now && InForce(later, slot, interval)
  }

  lemma SlotIs(now: Instant, every: nat, slot: Instant)
    requires every > 0 && slot % every == 0 && slot <= now < slot + every
    ensures SlotOf(now, every) == slot
  {
    var other := SlotOf(now, every);
    if other < slot { MultiplesAreApart(other, slot, every); }
    if slot < other { MultiplesAreApart(slot, other, every); }
  }

  /** Whatever the rest of the life fires comes after what the daemon remembers, and is in force when fired. */
  lemma {:induction false} LaterFirings(t: State, now: Instant, states: seq<State>, events: seq<Event>, name: string, interval: string -> int)
    requires GoesOn(t, now, states, events, interval) && name in t.fired
    ensures var last := states[|events|];
            && |t.log| <= |last.log| && last.log[..|t.log|] == t.log && name in last.fired && t.fired[name] <= last.fired[name]
            && forall f :: f in last.log[|t.log|..] && f.name == name ==>
                 t.fired[name] < f.slot && InForceLater(now, f.slot, interval)
  {
    hide SlotOf, InForce;
    if events == [] {
      assert t.log[|t.log|..] == [];
    } else {
      var k := |events| - 1;
      var s, e, u := states[k], events[k], states[k + 1];
      assert GoesOn(t, now, states[..k + 1], events[..k], interval);
      LaterFirings(t, now, states[..k + 1], events[..k], name, interval);
      Remembers(s, e, u, name, interval);
      assert u.log[..|s.log|] == s.log;
      forall f | f in u.log[|t.log|..] && f.name == name
        ensures t.fired[name] < f.slot && InForceLater(now, f.slot, interval)
      {
        var i :| |t.log| <= i < |u.log| && u.log[i] == f;
        if i < |s.log| {
          assert s.log[i] == f && s.log[|t.log|..][i - |t.log|] == f;
        } else {
          FreshFiring(s, e, u, f, i, interval);
        }
      }
    }
  }

  lemma FreshFiring(s: State, e: Event, u: State, f: Firing, i: nat, interval: string -> int)
    requires Step(s, e, u, interval) && e.Tick? && |s.log| <= i < |u.log| && u.log[i] == f
    ensures f.name in s.fired && s.fired[f.name] < f.slot && InForce(e.now, f.slot, interval)
  {
    hide SlotOf;
    LogEntry(s, e, u, interval, i);
    assert Scheduled(e.declared[f.name], interval);
  }

  /** One tick that fires what is in force. */
  lemma TickFires(t: State, now: Instant, name: string, svc: Service, interval: string -> int) returns (states: seq<State>, events: seq<Event>)
    requires name in t.fired && Scheduled(svc, interval) && t.fired[name] < SlotOf(now, interval(svc.every))
    ensures GoesOn(t, now, states, events, interval) && Fires(t, states, name, SlotOf(now, interval(svc.every)))
  {
    hide SlotOf;
    var slot := SlotOf(now, interval(svc.every));
    var f := Firing(name, slot, now);
    var u := State(t.fired[name := slot], t.log + [f]);
    states, events := [t, u], [Tick(now, map[name := svc])];
    assert u.log[..|t.log|] == t.log && u.log[|t.log|..] == [f];
  }

  /**
    A daemon that has just seen the job for the first time, whatever was fired before it: in
    the rest of its life, under any schedules the files may come to hold, a slot that is past
    can be fired again exactly when it is above the slot first seen and some schedule still
    has it in force. What is no higher than the slot first seen is never fired again.
  */
  lemma FiredAgainExactlyWhen(s: State, e: Event, t: State, f: Firing, interval: string -> int)
    requires Step(s, e, t, interval) && e.Tick? && f in s.log && f.slot <= e.now
    requires f.name !in s.fired && f.name in t.fired
    ensures CanFire(t, e.now, f.name, f.slot, interval) <==> t.fired[f.name] < f.slot && InForce(e.now, f.slot, interval)
  {
    if CanFire(t, e.now, f.name, f.slot, interval) {
      var states: seq<State>, events: seq<Event> :| GoesOn(t, e.now, states, events, interval) && Fires(t, states, f.name, f.slot);
      LaterFirings(t, e.now, states, events, f.name, interval);
      var later: Instant :| later >= e.now && InForce(later, f.slot, interval);
      var svc: Service :| Scheduled(svc, interval) && SlotOf(later, interval(svc.every)) == f.slot;
      SlotIs(e.now, interval(svc.every), f.slot);
    }
    if t.fired[f.name] < f.slot && InForce(e.now, f.slot, interval) {
      var svc: Service :| Scheduled(svc, interval) && SlotOf(e.now, interval(svc.every)) == f.slot;
      var states, events := TickFires(t, e.now, f.name, svc, interval);
    }
  }

  /**
    It does happen: a job every minute, first seen by the next daemon as an hourly one, then
    every minute again, within one minute.
  */
  lemma EditAcrossRestartFiresAgain(svc: Service, hourly: Service, interval: string -> int)
    returns (states: seq<State>, events: seq<Event>)
    requires svc.name == hourly.name && Scheduled(svc, interval) && Scheduled(hourly, interval)
    requires interval(svc.every) == 60 * SECOND && interval(hourly.every) == 3600 * SECOND
    ensures IsRun(states, events, interval) && Forward(events)
    ensures forall i :: 0 <= i < |events| && events[i].Tick? ==> RECENT <= events[i].now <= RECENT + 60 * SECOND
    ensures !Increasing(states[|events|].log, svc.name)
  {
    var n, m, x := svc.name, 60 * SECOND, RECENT;
    var job, job60 := map[n := svc], map[n := hourly];
    events := [Tick(x, job), Tick(x + m, job), Event.Restart, Tick(x + m, job60), Tick(x + m, job)];
    assert SlotOf(x, m) == x && SlotOf(x + m, m) == x + m && SlotOf(x + m, 60 * m) == x by {
      SlotIs(x, m, x);
      SlotIs(x + m, m, x + m);
      SlotIs(x + m, 60 * m, x);
    }
    hide SlotOf;
    var f := Firing(n, x + m, x + m);
    var s0, s1, s2 := State(map[], []), State(map[n := x], []), State(map[n := x + m], [f]);
    var s3, s4, s5 := State(map[], [f]), State(map[n := x], [f]), State(map[n := x + m], [f, f]);
    states := [s0, s1, s2, s3, s4, s5];
    assert s1.log[|s0.log|..] == [] && s2.log[|s1.log|..] == [f];
    assert s4.log[|s3.log|..] == [] && s5.log[|s4.log|..] == [f];
    assert s5.log[..1] == s4.log;
    assert Step(s0, events[0], s1, interval);
    assert Step(s1, events[1], s2, interval);
    assert Step(s3, events[3], s4, interval);
    assert Step(s4, events[4], s5, interval);
    assert s5.log[0].slot == s5.log[1].slot;
  }
}
