/**
  When a run of a job is stopped for taking too long (supervisor/schedule.go): each waiter sets
  a timer by what it was told of the run's start and by the limit declared at that moment. The
  runs of `RunLife` are told again with a clock that does not go back, the instants of the
  launches and the timers of every daemon there was.
*/
module RunDeadlines {
  import opened Options
  import opened Services
  import L = RunLife

  // A timer --------------------------------------------------------------------------------

  /** What is left of the limit, counted from the start the runtime reports. */
  function KillAfter(started: int, now: int, limit: int): int {
    var left := limit - (now - started);
    if left < 0 then 0 else left
  }

  /** The limit as it is declared at the moment; a service nobody declares has none. */
  function LimitOf(declared: map<string, Service>, name: string, duration: string -> Option<int>): int {
    if name !in declared then 0
    else match duration(declared[name].runTimeout) case None => 0 case Some(limit) => limit
  }

  /**
    A daemon taking charge of a run at `at`: what an inspection said of its start, if it was
    answered, the limit declared then, and when the timer was set. The daemon that begins a
    run inspects nothing.
  */
  datatype Pickup = Pickup(started: Option<int>, at: int, armed: int, limit: int)

  function StartOf(p: Pickup): int {
    match p.started case None => p.at case Some(started) => started
  }

  /** When the run is stopped, if it is still going then. */
  function KillAt(p: Pickup): Option<int> {
    if p.limit <= 0 then None else Some(p.armed + KillAfter(StartOf(p), p.armed, p.limit))
  }

  /** What is said of a start is true, and the timer comes last. */
  predicate Truly(began: int, p: Pickup) {
    (p.started.Some? ==> p.started.value == began) && began <= p.at <= p.armed
  }

  /**
    A run with time left is stopped at its own limit exactly when the inspection said when it
    started and the declaration still gives that limit, or when what an unanswered one counts
    from and what is declared by now happen to come to the same instant.
  */
  lemma DeadlineIsKeptExactlyWhen(began: int, limit: int, p: Pickup)
    requires Truly(began, p) && limit > 0 && p.armed < began + limit
    ensures KillAt(p) == Some(began + limit) <==>
              if p.started.Some? then p.limit == limit else p.limit > 0 && p.at + p.limit == began + limit
  {
    if p.limit > 0 {
      assert KillAt(p).value == if StartOf(p) + p.limit < p.armed then p.armed else StartOf(p) + p.limit;
    }
  }

  /** With an unchanged declaration, exactly when it was answered and the instant has not passed. */
  lemma AnswerKeepsTheDeadline(began: int, limit: int, p: Pickup)
    requires Truly(began, p) && limit > 0 && p.limit == limit && began < p.at
    ensures KillAt(p) == Some(began + limit) <==> p.started.Some? && p.armed <= began + limit
    // An unanswered inspection grants what the run has used up; a late one stops it at once.
    ensures p.started.None? && p.armed <= p.at + limit ==> KillAt(p) == Some(began + limit + (p.at - began))
    ensures p.started.Some? && p.armed > began + limit ==> KillAt(p) == Some(p.armed)
  {
    assert KillAt(p).value == if StartOf(p) + p.limit < p.armed then p.armed else StartOf(p) + p.limit;
  }

  // Runs with a clock ------------------------------------------------------------------------

  /** When a run was launched, and for which service. */
  datatype Birth = Birth(at: int, service: string)

  /**
    What a waiter knows: its run, what an inspection told it of the start, when it was spawned,
    and, once its timer is set, what by. `rang` once the timer went off.
  */
  datatype Watch = Watch(id: nat, service: string, told: Option<int>, at: int, pickup: Option<Pickup>, rang: bool)

  /** A run stopped for time: by which waiter, which run, and when. */
  datatype Stopped = Stopped(w: nat, id: nat, at: int)

  datatype State = State(life: L.State, clock: int, births: map<nat, Birth>, watches: map<nat, Watch>, stops: seq<Stopped>)

  datatype Event =
    | Life(now: int, e: L.Event)
    | Arm(now: int, w: nat, declared: map<string, Service>)
    | Overrun(now: int, w: nat, ok: bool)

  const START: State := State(L.START, 0, map[], map[], [])

  /** The run an event launches. */
  function Launched(s: L.State, e: L.Event): Option<nat> {
    if e.ProceedStart? && e.ok && e.thread in s.starting && s.starting[e.thread].Launching? && s.starting[e.thread].id in s.containers
    then Some(s.starting[e.thread].id) else None
  }

  function BirthsNext(s: State, e: L.Event, now: int): map<nat, Birth> {
    match Launched(s.life, e)
    case None => s.births
    case Some(id) => s.births[id := Birth(now, s.life.containers[id].name.service)]
  }

  /** What a round's inspection says of the start; a start asks nobody. */
  function Told(s: State, e: L.Event, id: nat): Option<int> {
    if e.ProceedRound? && e.ok && id in s.life.containers && id in s.births then Some(s.births[id].at) else None
  }

  ghost function WatchesNext(s: State, e: L.Event, now: int): map<nat, Watch> {
    var n, w := L.Next(s.life, e), s.life.nextWaiter;
    if n.nextWaiter > w && w in n.waiters then
      var id := n.waiters[w].id;
      s.watches[w := Watch(id, if id in s.births then s.births[id].service else "", Told(s, e, id), now, None, false)]
    else s.watches
  }

  predicate Waits(s: State, w: nat) {
    w in s.watches && w in s.life.waiters
  }

  /** The timer of this waiter goes off by now. */
  predicate Rings(s: State, w: nat, now: int) {
    && Waits(s, w) && !s.watches[w].rang && s.watches[w].pickup.Some?
    && match KillAt(s.watches[w].pickup.value) case None => false case Some(at) => at <= now
  }

  /** An event that cannot happen in a state, or that lies before the clock, leaves it as it is. */
  ghost function Next(s: State, e: Event, duration: string -> Option<int>): State {
    if e.now < s.clock then s
    else
      match e
      case Life(now, e) =>
        s.(clock := now, life := L.Next(s.life, e), births := BirthsNext(s, e, now), watches := WatchesNext(s, e, now))
      case Arm(now, w, declared) =>
        if Waits(s, w) && s.watches[w].pickup.None? then
          var watch := s.watches[w];
          var pickup := Pickup(watch.told, watch.at, now, LimitOf(declared, watch.service, duration));
          s.(clock := now, watches := s.watches[w := watch.(pickup := Some(pickup))])
        else s.(clock := now)
      case Overrun(now, w, ok) =>
        if Rings(s, w, now) then
          var id := s.watches[w].id;
          s.(clock := now, watches := s.watches[w := s.watches[w].(rang := true)], stops := s.stops + [Stopped(w, id, now)],
             life := if ok then L.Next(s.life, L.Ends(id)) else s.life)
        else s.(clock := now)
  }

  ghost function Run(events: seq<Event>, duration: string -> Option<int>): State {
    if events == [] then START else Next(Run(events[..|events| - 1], duration), events[|events| - 1], duration)
  }

  /** A clock and timers add nothing: what becomes of the runs is a run of `RunLife`. */
  lemma {:induction false} LifeIsARun(events: seq<Event>, duration: string -> Option<int>) returns (plain: seq<L.Event>)
    ensures L.Run(L.START, plain) == Run(events, duration).life
  {
    if events == [] {
      plain := [];
    } else {
      hide L.Next, L.Run;
      var s, e := Run(events[..|events| - 1], duration), events[|events| - 1];
      plain := LifeIsARun(events[..|events| - 1], duration);
      if e.now >= s.clock && (e.Life? || (e.Overrun? && e.ok && Rings(s, e.w, e.now))) {
        var last := if e.Life? then e.e else L.Ends(s.watches[e.w].id);
        L.RunOneMore(plain, last);
        plain := plain + [last];
      }
    }
  }

  // What every timer knows -------------------------------------------------------------------

  /** The watch is of a run that was launched, told the truth about it, and armed after it was spawned. */
  ghost predicate WatchTrue(s: State, watch: Watch) {
    && watch.id in s.births && watch.service == s.births[watch.id].service
    && s.births[watch.id].at <= watch.at <= s.clock
    && (watch.told.Some? ==> watch.told.value == s.births[watch.id].at)
    && (watch.pickup.Some? ==>
          var p := watch.pickup.value;
          p.started == watch.told && p.at == watch.at && p.at <= p.armed <= s.clock)
  }

  ghost predicate StopTrue(s: State, stop: Stopped) {
    && stop.w in s.watches && s.watches[stop.w].id == stop.id && s.watches[stop.w].pickup.Some?
    && match KillAt(s.watches[stop.w].pickup.value) case None => false case Some(at) => at <= stop.at
  }

  ghost predicate BirthsTrue(s: State) {
    s.births.Keys == s.life.book.began && forall id :: id in s.births ==> s.births[id].at <= s.clock
  }

  ghost predicate WaitersWatch(s: State) {
    && (forall w :: w in s.life.waiters ==> w in s.watches && s.watches[w].id == s.life.waiters[w].id)
    && (forall w :: w in s.watches ==> w < s.life.nextWaiter)
  }

  ghost predicate Timed(s: State) {
    && L.Founded(s.life) && BirthsTrue(s) && WaitersWatch(s)
    && (forall w :: w in s.watches ==> WatchTrue(s, s.watches[w]))
    && (forall stop :: stop in s.stops ==> StopTrue(s, stop))
  }

  /** What an event of `RunLife` does to what a watch looks at. */
  lemma LifeMoves(s: L.State, e: L.Event)
    requires L.Founded(s)
    ensures var n := L.Next(s, e);
            && n.book.began == s.book.began + (if Launched(s, e).Some? then {Launched(s, e).value} else {})
            && s.nextWaiter <= n.nextWaiter <= s.nextWaiter + 1
            && (n.nextWaiter > s.nextWaiter ==> s.nextWaiter in n.waiters && n.waiters[s.nextWaiter].id in s.book.began)
            && (forall w :: w in n.waiters && w != s.nextWaiter ==> w in s.waiters && n.waiters[w].id == s.waiters[w].id)
            && (n.nextWaiter == s.nextWaiter ==> s.nextWaiter in n.waiters ==> s.nextWaiter in s.waiters)
    ensures Launched(s, e).Some? ==> Launched(s, e).value !in s.book.began && L.Next(s, e).nextWaiter == s.nextWaiter
  {
    hide L.Founded, L.ProceedStarting, L.ProceedRounding, L.ProceedWaiting;
    match e
    case ProceedStart(t, ok) => if t in s.starting { StartMoves(s, t, ok); }
    case ProceedRound(ok) => if s.round.Some? { RoundMoves(s, ok); }
    case ProceedWaiter(w, ok) => if w in s.waiters { WaiterMoves(s, w, ok); }
    case _ =>
  }

  lemma WaiterMoves(s: L.State, w: nat, ok: bool)
    requires w in s.waiters
    ensures var n := L.ProceedWaiting(s, w, ok);
            && n.book.began == s.book.began && n.nextWaiter == s.nextWaiter
            && forall u :: u in n.waiters ==> u in s.waiters && n.waiters[u].id == s.waiters[u].id
  {
  }

  lemma StartMoves(s: L.State, t: nat, ok: bool)
    requires L.Founded(s) && t in s.starting
    ensures var n := L.ProceedStarting(s, t, ok);
            && n.book.began == s.book.began + (if Launched(s, L.ProceedStart(t, ok)).Some? then {s.starting[t].id} else {})
            && (if s.starting[t].Registering?
                then n.nextWaiter == s.nextWaiter + 1 && n.waiters == s.waiters[s.nextWaiter := L.Waiter(s.starting[t].id, L.Waiting)]
                else n.nextWaiter == s.nextWaiter && n.waiters == s.waiters)
    ensures Launched(s, L.ProceedStart(t, ok)).Some? ==> s.starting[t].id !in s.book.began
    ensures s.starting[t].Registering? ==> s.starting[t].id in s.book.began
  {
  }

  lemma RoundMoves(s: L.State, ok: bool)
    requires L.Founded(s) && s.round.Some?
    ensures var n, doing := L.ProceedRounding(s, ok), s.round.value.doing;
            && n.book.began == s.book.began
            && (if doing.Spawning?
                then n.nextWaiter == s.nextWaiter + 1 && n.waiters == s.waiters[s.nextWaiter := L.Waiter(doing.id, L.Waiting)]
                else n.nextWaiter == s.nextWaiter && n.waiters == s.waiters)
    ensures s.round.value.doing.Spawning? ==> s.round.value.doing.id in s.book.began
  {
  }

  lemma LifeKeepsTimed(s: State, e: L.Event, now: int)
    requires Timed(s) && s.clock <= now
    ensures Timed(s.(clock := now, life := L.Next(s.life, e), births := BirthsNext(s, e, now), watches := WatchesNext(s, e, now)))
  {
    hide L.Founded, L.Next, Launched;
    L.NextIsFounded(s.life, e);
    LifeMoves(s.life, e);
    var n := s.(clock := now, life := L.Next(s.life, e), births := BirthsNext(s, e, now), watches := WatchesNext(s, e, now));
    assert forall id :: id in s.births ==> id in n.births && n.births[id] == s.births[id];
    forall w | w in n.watches ensures WatchTrue(n, n.watches[w]) {
      if w in s.watches && w != s.life.nextWaiter { assert WatchTrue(s, s.watches[w]); }
    }
    forall stop | stop in n.stops ensures StopTrue(n, stop) {
      assert StopTrue(s, stop) && stop.w < s.life.nextWaiter;
    }
  }

  lemma EndsMovesNothing(s: L.State, id: nat)
    requires L.Founded(s)
    ensures var n := L.Next(s, L.Ends(id));
            L.Founded(n) && n.book.began == s.book.began && n.waiters == s.waiters && n.nextWaiter == s.nextWaiter
  {
    L.NextIsFounded(s, L.Ends(id));
  }

  lemma NextKeepsTimed(s: State, e: Event, duration: string -> Option<int>)
    requires Timed(s)
    ensures Timed(Next(s, e, duration))
  {
    hide L.Founded, L.Next, LimitOf, KillAt;
    if e.now >= s.clock {
      match e
      case Life(now, life) => LifeKeepsTimed(s, life, now);
      case Arm(now, w, declared) => ArmKeepsTimed(s, e, duration);
      case Overrun(now, w, ok) => OverrunKeepsTimed(s, e, duration);
    }
  }

  lemma ArmKeepsTimed(s: State, e: Event, duration: string -> Option<int>)
    requires Timed(s) && e.Arm? && e.now >= s.clock
    ensures Timed(Next(s, e, duration))
  {
    hide L.Founded, L.Next, LimitOf, KillAt;
    var n := Next(s, e, duration);
    forall w | w in n.watches ensures WatchTrue(n, n.watches[w]) {
      assert WatchTrue(s, s.watches[w]);
    }
    forall stop | stop in n.stops ensures StopTrue(n, stop) {
      assert StopTrue(s, stop);
    }
  }

  lemma OverrunKeepsTimed(s: State, e: Event, duration: string -> Option<int>)
    requires Timed(s) && e.Overrun? && e.now >= s.clock
    ensures Timed(Next(s, e, duration))
  {
    hide L.Founded, L.Next, LimitOf, KillAt;
    var n := Next(s, e, duration);
    if Rings(s, e.w, e.now) { EndsMovesNothing(s.life, s.watches[e.w].id); }
    forall w | w in n.watches ensures WatchTrue(n, n.watches[w]) {
      assert WatchTrue(s, s.watches[w]);
    }
    forall stop | stop in n.stops ensures StopTrue(n, stop) {
      if stop in s.stops { assert StopTrue(s, stop); }
    }
  }

  lemma {:induction false} RunIsTimed(events: seq<Event>, duration: string -> Option<int>)
    ensures Timed(Run(events, duration))
  {
    if events == [] {
    } else {
      RunIsTimed(events[..|events| - 1], duration);
      NextKeepsTimed(Run(events[..|events| - 1], duration), events[|events| - 1], duration);
    }
  }

  // One deadline for every daemon ---------------------------------------------------------------

  /** Whenever a timer is set, the service's declaration gives this limit. */
  ghost predicate Unchanged(events: seq<Event>, service: string, limit: int, duration: string -> Option<int>) {
    forall e :: e in events && e.Arm? ==> LimitOf(e.declared, service, duration) == limit
  }

  ghost predicate HasLimit(s: State, service: string, limit: int) {
    forall w :: w in s.watches && s.watches[w].service == service && s.watches[w].pickup.Some? ==>
      s.watches[w].pickup.value.limit == limit
  }

  lemma NextKeepsLimit(s: State, e: Event, service: string, limit: int, duration: string -> Option<int>)
    requires HasLimit(s, service, limit)
    requires e.Arm? ==> LimitOf(e.declared, service, duration) == limit
    ensures HasLimit(Next(s, e, duration), service, limit)
  {
    hide L.Next, LimitOf, KillAt;
  }

  lemma {:induction false} LimitsAreTheDeclared(events: seq<Event>, service: string, limit: int, duration: string -> Option<int>)
    requires Unchanged(events, service, limit, duration)
    ensures HasLimit(Run(events, duration), service, limit)
  {
    hide Next, LimitOf, HasLimit;
    if events == [] {
      NothingIsArmed(service, limit);
    } else {
      var front, e := events[..|events| - 1], events[|events| - 1];
      assert e in events && forall x :: x in front ==> x in events;
      LimitsAreTheDeclared(front, service, limit, duration);
      NextKeepsLimit(Run(front, duration), e, service, limit, duration);
    }
  }

  lemma NothingIsArmed(service: string, limit: int)
    ensures HasLimit(START, service, limit)
  {
  }

  /**
    Over any starts, rounds, ends, hands and replaced daemons, while the declaration gives one
    limit: a timer, whichever daemon set it, stands at the launch plus the limit exactly when
    its waiter was told of the start, or was spawned at that very instant, and the timer was
    set before that.
  */
  lemma EveryDaemonKeepsTheDeadline(events: seq<Event>, w: nat, limit: int, duration: string -> Option<int>)
    requires var s := Run(events, duration);
             && w in s.watches && s.watches[w].pickup.Some?
             && limit > 0 && Unchanged(events, s.watches[w].service, limit, duration)
    ensures var s := Run(events, duration);
            var watch := s.watches[w];
            && watch.id in s.births
            && var due := s.births[watch.id].at + limit;
               KillAt(watch.pickup.value) == Some(due)
               <==> (watch.told.Some? || watch.at == s.births[watch.id].at) && watch.pickup.value.armed <= due
  {
    hide Run, KillAt, LimitOf;
    RunIsTimed(events, duration);
    var s := Run(events, duration);
    var watch := s.watches[w];
    LimitsAreTheDeclared(events, watch.service, limit, duration);
    assert WatchTrue(s, watch);
    var began, p := s.births[watch.id].at, watch.pickup.value;
    if began < p.at {
      AnswerKeepsTheDeadline(began, limit, p);
    } else {
      AtOnce(began, limit, p);
    }
  }

  /**
    Under any declarations: a timer set in time stands at the launch plus a given limit exactly
    when its waiter was told and that limit was then declared, or when what an untold one counts
    from and what was declared happen to come to the same instant.
  */
  lemma AnEditMovesTheDeadline(events: seq<Event>, w: nat, limit: int, duration: string -> Option<int>)
    requires var s := Run(events, duration);
             && w in s.watches && s.watches[w].pickup.Some? && s.watches[w].id in s.births
             && limit > 0 && s.watches[w].pickup.value.armed < s.births[s.watches[w].id].at + limit
    ensures var watch := Run(events, duration).watches[w];
            var due, p := Run(events, duration).births[watch.id].at + limit, watch.pickup.value;
            KillAt(p) == Some(due) <==> if watch.told.Some? then p.limit == limit else p.limit > 0 && watch.at + p.limit == due
  {
    hide Run, KillAt, LimitOf;
    RunIsTimed(events, duration);
    var s := Run(events, duration);
    var watch := s.watches[w];
    assert WatchTrue(s, watch);
    DeadlineIsKeptExactlyWhen(s.births[watch.id].at, limit, watch.pickup.value);
  }

  lemma AtOnce(began: int, limit: int, p: Pickup)
    requires Truly(began, p) && limit > 0 && p.limit == limit && p.at == began
    ensures KillAt(p) == Some(began + limit) <==> p.armed <= began + limit
  {
  }

  /**
    Whatever is answered and whatever becomes of the declarations, no run is stopped for time
    before it has gone on for the limit that was declared when the timer was set.
  */
  lemma NoneIsStoppedEarly(events: seq<Event>, stop: Stopped, duration: string -> Option<int>)
    requires stop in Run(events, duration).stops
    ensures var s := Run(events, duration);
            && stop.w in s.watches && s.watches[stop.w].pickup.Some? && stop.id in s.births
            && var limit := s.watches[stop.w].pickup.value.limit;
               limit > 0 && s.births[stop.id].at + limit <= stop.at
  {
    hide Run;
    RunIsTimed(events, duration);
    var s := Run(events, duration);
    assert StopTrue(s, stop) && WatchTrue(s, s.watches[stop.w]);
  }

  // A run no daemon stops -----------------------------------------------------------------------

  lemma Go(events: seq<Event>, at: State, e: Event, duration: string -> Option<int>) returns (longer: seq<Event>, there: State)
    requires Run(events, duration) == at
    ensures longer == events + [e] && there == Next(at, e, duration) && Run(longer, duration) == there
  {
    longer, there := events + [e], Next(at, e, duration);
    assert longer[..|longer| - 1] == events;
  }

  /** A daemon that took charge of run 0 half an hour after the one before it, told nothing. */
  ghost predicate TookCharge(s: State, name: L.Name, k: nat) {
    && s.clock == 1800 * k && s.stops == [] && s.births == map[0 := Birth(0, name.service)]
    && s.life.containers == map[0 := L.Container(name, true)] && s.life.nextWaiter == k + 1
    && k in s.watches && s.watches[k].pickup == Some(Pickup(None, 1800 * k, 1800 * k, 3600))
  }

  /** Launched at 0, and the daemon replaced before it did anything about it. */
  lemma LaunchedAndLeft(name: L.Name, duration: string -> Option<int>) returns (events: seq<Event>, there: State)
    ensures Run(events, duration) == there
    ensures forall e :: e in events ==> !e.Arm?
    ensures there == START.(births := map[0 := Birth(0, name.service)],
                            life := L.START.(containers := map[0 := L.Container(name, true)], nextId := 1,
                                             starting := map[0 := L.Registering(0)], book := L.START.book.(began := {0})))
  {
    hide Run;
    assert Run([], duration) == START by { NothingHappens(duration); }
    events, there := Go([], START, Life(0, L.Begin(0, name)), duration);
    events, there := Go(events, there, Life(0, L.ProceedStart(0, true)), duration);
    assert there.life == L.START.(starting := map[0 := L.Creating(name)]);
    events, there := Go(events, there, Life(0, L.ProceedStart(0, true)), duration);
    assert there.life == L.START.(containers := map[0 := L.Container(name, false)], nextId := 1, starting := map[0 := L.Launching(0)]);
    events, there := Go(events, there, Life(0, L.ProceedStart(0, true)), duration);
  }

  lemma NothingHappens(duration: string -> Option<int>)
    ensures Run([], duration) == START
  {
  }

  /** A new daemon whose round has seen run 0 going and is about to ask when it began. */
  ghost predicate AboutToAsk(s: State, name: L.Name, k: nat) {
    && s.clock == 1800 * k && s.stops == [] && s.births == map[0 := Birth(0, name.service)]
    && s.life.containers == map[0 := L.Container(name, true)] && s.life.nextWaiter == k
    && s.life.round.Some? && s.life.round.value.doing == L.Spawning(0)
  }

  lemma NewDaemonLooks(events: seq<Event>, at: State, name: L.Name, k: nat, duration: string -> Option<int>)
    returns (longer: seq<Event>, there: State)
    requires Run(events, duration) == at
    requires at.clock <= 1800 * k && at.stops == [] && at.births == map[0 := Birth(0, name.service)]
    requires at.life.containers == map[0 := L.Container(name, true)] && at.life.nextWaiter == k
    ensures Run(longer, duration) == there && AboutToAsk(there, name, k)
    ensures forall e :: e in longer ==> e in events || !e.Arm?
  {
    hide Run;
    var now, list := 1800 * k, [L.Listed(0, true)];
    longer, there := Go(events, at, Life(now, L.Replaced), duration);
    assert L.IsList(list, there.life);
    longer, there := Go(longer, there, Life(now, L.BeginRound(list)), duration);
    longer, there := Go(longer, there, Life(now, L.ProceedRound(true)), duration);
  }

  /** It asks in vain, and sets its timer. */
  lemma NewDaemonArms(events: seq<Event>, at: State, name: L.Name, k: nat, declared: map<string, Service>, duration: string -> Option<int>)
    returns (longer: seq<Event>, there: State)
    requires Run(events, duration) == at && AboutToAsk(at, name, k) && LimitOf(declared, name.service, duration) == 3600
    ensures Run(longer, duration) == there && TookCharge(there, name, k)
    ensures forall e :: e in longer ==> e in events || (e.Arm? ==> e.declared == declared)
  {
    hide Run, LimitOf;
    longer, there := Go(events, at, Life(1800 * k, L.ProceedRound(false)), duration);
    longer, there := Go(longer, there, Arm(1800 * k, k, declared), duration);
  }

  lemma OneDaemon(events: seq<Event>, at: State, name: L.Name, k: nat, declared: map<string, Service>, duration: string -> Option<int>)
    returns (longer: seq<Event>, there: State)
    requires Run(events, duration) == at && LimitOf(declared, name.service, duration) == 3600
    requires at.clock <= 1800 * k && at.stops == [] && at.births == map[0 := Birth(0, name.service)]
    requires at.life.containers == map[0 := L.Container(name, true)] && at.life.nextWaiter == k
    ensures Run(longer, duration) == there && TookCharge(there, name, k)
    ensures forall e :: e in longer ==> e in events || (e.Arm? ==> e.declared == declared)
  {
    hide Run, LimitOf, AboutToAsk, TookCharge;
    longer, there := NewDaemonLooks(events, at, name, k, duration);
    longer, there := NewDaemonArms(longer, there, name, k, declared, duration);
  }

  /**
    An hour's limit that never comes: a daemon every half hour, none of them told when the run
    began, each sets its timer an hour ahead, and the run goes on for as long as that goes on.
  */
  lemma {:induction false} HungRunOutlivesDaemons(n: nat, name: L.Name, declared: map<string, Service>, duration: string -> Option<int>)
    returns (events: seq<Event>)
    requires LimitOf(declared, name.service, duration) == 3600
    ensures Unchanged(events, name.service, 3600, duration)
    ensures TookCharge(Run(events, duration), name, n)
  {
    hide Run, LimitOf, TookCharge;
    var at;
    if n == 0 {
      events, at := LaunchedAndLeft(name, duration);
      events, at := OneDaemon(events, at, name, 0, declared, duration);
    } else {
      var before := HungRunOutlivesDaemons(n - 1, name, declared, duration);
      ChargeIsTaken(Run(before, duration), name, n - 1);
      events, at := OneDaemon(before, Run(before, duration), name, n, declared, duration);
    }
  }

  lemma ChargeIsTaken(s: State, name: L.Name, k: nat)
    requires TookCharge(s, name, k)
    ensures s.clock == 1800 * k && s.stops == [] && s.births == map[0 := Birth(0, name.service)]
    ensures s.life.containers == map[0 := L.Container(name, true)] && s.life.nextWaiter == k + 1
  {
  }
}
