/**
  The life of a job's runs (supervisor/schedule.go): starting one, waiting for it, adopting
  it after the daemon was replaced, recording how it ended and taking its container away.
  Critical sections and runtime calls are single steps; the daemon may be replaced between
  any two of them, which empties its memory and leaves the containers.
*/
module RunLife {
  import opened Options

  /** The name of a run's container: its service and the milliseconds of its slot. */
  datatype Name = Name(service: string, slot: int)
  datatype Container = Container(name: Name, running: bool)

  /** `startRun`, after it decided that the run may begin. */
  datatype Starting =
    | Clearing(name: Name)           // the name is made free
    | Creating(name: Name)
    | Launching(id: nat)
    | Dropping(id: nat)              // created and not started
    | Registering(id: nat)

  /** `awaitRun`: waiting, then recorded, then done with the container. */
  datatype Waiter = Waiter(id: nat, phase: Phase)
  datatype Phase = Waiting | Recorded | Leaving

  datatype Listed = Listed(id: nat, running: bool)

  /** A drift round at work on the runs it listed. */
  datatype Round = Round(listed: set<nat>, todo: seq<Listed>, doing: Doing)
  datatype Doing = Looking | Spawning(id: nat) | Inspecting(id: nat) | Removing(id: nat)

  /** What happened to the runs, for the proofs to look at. */
  datatype Ledger = Ledger(
    began: set<nat>,      // runs that were launched
    over: set<nat>,       // runs that ended, or that somebody ended
    recorded: set<nat>,   // runs with a finished record written once they were over
    mistaken: set<nat>,   // containers with a finished record while no run of theirs was over
    lost: set<nat>,       // containers hostd took away with no such record
    killed: set<nat>)     // runs hostd took away while they were going

  datatype State = State(
    containers: map<nat, Container>,
    nextId: nat,
    // What the daemon remembers, and what of it is under way.
    awaiting: set<nat>,
    waiters: map<nat, Waiter>,
    nextWaiter: nat,
    starting: map<nat, Starting>,
    round: Option<Round>,
    book: Ledger)

  datatype Event =
    | Begin(thread: nat, name: Name)
    | ProceedStart(thread: nat, ok: bool)
    | Ends(id: nat)
    | HandRemoves(id: nat)
    | ProceedWaiter(w: nat, ok: bool)
    | BeginRound(order: seq<Listed>)
    | ProceedRound(ok: bool)
    | Replaced

  function Going(containers: map<nat, Container>): set<nat> {
    set id | id in containers && containers[id].running
  }

  /** hostd takes containers away, by force: a run that is going is ended by it. */
  function TakeAway(s: State, ids: set<nat>): State {
    var b := s.book;
    s.(containers := s.containers - ids,
       book := b.(lost := b.lost + (s.containers.Keys * ids - b.recorded),
                  killed := b.killed + Going(s.containers) * ids, over := b.over + Going(s.containers) * ids))
  }

  /** A finished record: a true one if the run is over. */
  function Record(b: Ledger, id: nat): Ledger {
    if id in b.over then b.(recorded := b.recorded + {id}) else b.(mistaken := b.mistaken + {id})
  }

  /** The container stops going, however that comes. */
  function Over(s: State, id: nat): Ledger {
    if id in Going(s.containers) then s.book.(over := s.book.over + {id}) else s.book
  }

  function Spawn(s: State, id: nat): State {
    s.(waiters := s.waiters[s.nextWaiter := Waiter(id, Waiting)], nextWaiter := s.nextWaiter + 1)
  }

  function Holders(s: State, name: Name): set<nat> {
    set id | id in s.containers && s.containers[id].name == name
  }

  function ProceedStarting(s: State, t: nat, ok: bool): State
    requires t in s.starting
  {
    var over := s.starting - {t};
    match s.starting[t]
    case Clearing(name) =>
      if ok then TakeAway(s, Holders(s, name)).(starting := s.starting[t := Creating(name)])
      else s.(starting := over)
    case Creating(name) =>
      if ok && Holders(s, name) == {} then
        s.(containers := s.containers[s.nextId := Container(name, false)], nextId := s.nextId + 1,
           starting := s.starting[t := Launching(s.nextId)])
      else s.(starting := over)
    case Launching(id) =>
      if ok && id in s.containers then
        s.(containers := s.containers[id := s.containers[id].(running := true)],
           book := s.book.(began := s.book.began + {id}), starting := s.starting[t := Registering(id)])
      else s.(starting := s.starting[t := Dropping(id)])
    case Dropping(id) =>
      (if ok then TakeAway(s, {id}) else s).(starting := over)
    case Registering(id) => Spawn(s.(awaiting := s.awaiting + {id}, starting := over), id)
  }

  function ProceedWaiting(s: State, w: nat, ok: bool): State
    requires w in s.waiters
  {
    var id := s.waiters[w].id;
    match s.waiters[w].phase
    case Waiting =>
      if id !in s.containers || !ok then
        // The wait could not be read: that is recorded, and the container is left alone.
        s.(book := Record(s.book, id), waiters := s.waiters[w := Waiter(id, Leaving)])
      else if s.containers[id].running then s
      else s.(book := Record(s.book, id), waiters := s.waiters[w := Waiter(id, Recorded)])
    case Recorded =>
      (if ok then TakeAway(s, {id}) else s).(waiters := s.waiters[w := Waiter(id, Leaving)])
    case Leaving => s.(awaiting := s.awaiting - {id}, waiters := s.waiters - {w})
  }

  function ProceedRounding(s: State, ok: bool): State
    requires s.round.Some?
  {
    var r := s.round.value;
    match r.doing
    case Looking =>
      if r.todo == [] then s.(round := None)
      else
        var c := r.todo[0];
        var awaited := c.id in s.awaiting;
        s.(awaiting := if c.running then s.awaiting + {c.id} else s.awaiting,
           round := Some(r.(todo := r.todo[1..],
                            doing := if awaited then Looking else if c.running then Spawning(c.id) else Inspecting(c.id))))
    case Spawning(id) => Spawn(s.(round := Some(r.(doing := Looking))), id)
    case Inspecting(id) =>
      s.(book := if ok && id in s.containers then Record(s.book, id) else s.book,
         round := Some(r.(doing := Removing(id))))
    case Removing(id) =>
      (if ok then TakeAway(s, {id}) else s).(round := Some(r.(doing := Looking)))
  }

  /** The list of a round: every run container there is, as it is, once. */
  ghost predicate IsList(order: seq<Listed>, s: State) {
    && (forall c :: c in order ==> c.id in s.containers && c.running == s.containers[c.id].running)
    && (forall id :: id in s.containers ==> Listed(id, s.containers[id].running) in order)
    && (forall i, j :: 0 <= i < j < |order| ==> order[i] != order[j])
  }

  /** An event that cannot happen in a state leaves it as it is. */
  ghost function Next(s: State, e: Event): State {
    match e
    case Begin(t, name) => if t in s.starting then s else s.(starting := s.starting[t := Clearing(name)])
    case ProceedStart(t, ok) => if t in s.starting then ProceedStarting(s, t, ok) else s
    case Ends(id) =>
      if id in s.containers then s.(containers := s.containers[id := s.containers[id].(running := false)], book := Over(s, id)) else s
    case HandRemoves(id) => s.(containers := s.containers - {id}, book := Over(s, id))
    case ProceedWaiter(w, ok) => if w in s.waiters then ProceedWaiting(s, w, ok) else s
    case BeginRound(order) =>
      if s.round.None? && IsList(order, s) then s.(round := Some(Round(set c | c in order :: c.id, order, Looking))) else s
    case ProceedRound(ok) => if s.round.Some? then ProceedRounding(s, ok) else s
    case Replaced => s.(awaiting := {}, waiters := map[], starting := map[], round := None)
  }

  ghost function Run(s: State, events: seq<Event>): State {
    if events == [] then s else Next(Run(s, events[..|events| - 1]), events[|events| - 1])
  }

  const START: State := State(map[], 0, {}, map[], 0, map[], None, Ledger({}, {}, {}, {}, {}, {}))

  // What always holds -------------------------------------------------------------------

  predicate Unborn(starting: Starting) {
    starting.Launching? || starting.Dropping?
  }

  /** A run is going from its launch until it is over, and a container that is gone went with its run over. */
  ghost predicate Booked(s: State) {
    var b := s.book;
    && (forall id :: id in s.containers || id in b.lost || id in b.began ==> id < s.nextId)
    && (forall id :: id in s.containers ==> (s.containers[id].running <==> id in b.began && id !in b.over))
    && (forall id :: id in b.began && id !in s.containers ==> id in b.over)
    && b.lost !! s.containers.Keys && b.recorded <= b.over <= b.began && b.killed <= b.began
  }

  /** A container no start has finished with did not begin, and is nobody else's to start. */
  ghost predicate StartsApart(s: State) {
    && (forall t :: t in s.starting && Unborn(s.starting[t]) ==>
          s.starting[t].id !in s.book.began && s.starting[t].id < s.nextId)
    && (forall t, u :: t in s.starting && u in s.starting && t != u && Unborn(s.starting[t]) && Unborn(s.starting[u]) ==>
          s.starting[t].id != s.starting[u].id)
    && (forall t :: t in s.starting && s.starting[t].Registering? ==> s.starting[t].id in s.book.began)
  }

  /** Whoever waits, waits for a run that began; whoever is to take one away has recorded it. */
  ghost predicate WaitersTrue(s: State) {
    && (forall w :: w in s.waiters ==> s.waiters[w].id in s.book.began)
    && (forall w :: w in s.waiters && s.waiters[w].phase.Recorded? ==> s.waiters[w].id in s.book.recorded)
    && s.awaiting <= s.book.began
  }

  ghost predicate RoundTrue(s: State) {
    s.round.Some? ==>
      var r := s.round.value;
      && (forall c :: c in r.todo ==> c.id < s.nextId && (c.running ==> c.id in s.book.began))
      && (!r.doing.Looking? ==> r.doing.id < s.nextId)
      && (r.doing.Spawning? ==> r.doing.id in s.book.began)
  }

  ghost predicate Founded(s: State) {
    Booked(s) && StartsApart(s) && WaitersTrue(s) && RoundTrue(s)
  }

  lemma TakeAwayIsFounded(s: State, ids: set<nat>)
    requires Founded(s)
    ensures Founded(TakeAway(s, ids))
  {
  }

  lemma RecordIsFounded(s: State, id: nat)
    requires Founded(s)
    ensures Founded(s.(book := Record(s.book, id)))
  {
  }

  /** What a start, a waiter or a round does next is no part of what it just did to the containers. */
  lemma StartMovesOn(s: State, t: nat, next: Starting)
    requires Founded(s) && t in s.starting && s.starting[t] != next
    requires next.Clearing? || next.Creating? || (Unborn(s.starting[t]) && next == Dropping(s.starting[t].id))
    ensures Founded(s.(starting := s.starting[t := next])) && Founded(s.(starting := s.starting - {t}))
  {
  }

  lemma StartIsFounded(s: State, t: nat, ok: bool)
    requires Founded(s) && t in s.starting
    ensures Founded(ProceedStarting(s, t, ok))
  {
    match s.starting[t]
    case Clearing(name) =>
      hide Founded, Holders, TakeAway;
      TakeAwayIsFounded(s, Holders(s, name));
      SameStarts(s, Holders(s, name));
      StartMovesOn(s, t, Creating(name));
      StartMovesOn(TakeAway(s, Holders(s, name)), t, Creating(name));
    case Dropping(id) =>
      hide Founded, TakeAway;
      TakeAwayIsFounded(s, {id});
      SameStarts(s, {id});
      StartMovesOn(s, t, Creating(Name("", 0)));
      StartMovesOn(TakeAway(s, {id}), t, Creating(Name("", 0)));
    case Creating(name) => CreateIsFounded(s, t, ok);
    case Launching(id) => LaunchIsFounded(s, t, ok);
    case Registering(id) => RegisterIsFounded(s, t, ok);
  }

  lemma SameStarts(s: State, ids: set<nat>)
    ensures var n := TakeAway(s, ids); n.starting == s.starting && n.waiters == s.waiters && n.round == s.round
  {
  }

  lemma CreateIsFounded(s: State, t: nat, ok: bool)
    requires Founded(s) && t in s.starting && s.starting[t].Creating?
    ensures Founded(ProceedStarting(s, t, ok))
  {
    hide Holders;
  }

  lemma LaunchIsFounded(s: State, t: nat, ok: bool)
    requires Founded(s) && t in s.starting && s.starting[t].Launching?
    ensures Founded(ProceedStarting(s, t, ok))
  {
  }

  lemma RegisterIsFounded(s: State, t: nat, ok: bool)
    requires Founded(s) && t in s.starting && s.starting[t].Registering?
    ensures Founded(ProceedStarting(s, t, ok))
  {
  }

  lemma WaiterIsFounded(s: State, w: nat, ok: bool)
    requires Founded(s) && w in s.waiters
    ensures Founded(ProceedWaiting(s, w, ok))
  {
    hide Founded, TakeAway, Record;
    var id := s.waiters[w].id;
    match s.waiters[w].phase
    case Waiting =>
      RecordIsFounded(s, id);
      WaiterMovesOn(s.(book := Record(s.book, id)), w, Leaving);
      WaiterRecords(s, w);
    case Recorded =>
      TakeAwayIsFounded(s, {id});
      SameStarts(s, {id});
      WaiterMovesOn(s, w, Leaving);
      WaiterMovesOn(TakeAway(s, {id}), w, Leaving);
    case Leaving => WaiterLeaves(s, w);
  }

  lemma WaiterMovesOn(s: State, w: nat, phase: Phase)
    requires Founded(s) && w in s.waiters && phase.Leaving?
    ensures Founded(s.(waiters := s.waiters[w := Waiter(s.waiters[w].id, phase)]))
  {
  }

  lemma WaiterRecords(s: State, w: nat)
    requires Founded(s) && w in s.waiters
    ensures var id := s.waiters[w].id;
            id in s.containers && !s.containers[id].running ==>
              Founded(s.(book := Record(s.book, id), waiters := s.waiters[w := Waiter(id, Recorded)]))
  {
  }

  lemma WaiterLeaves(s: State, w: nat)
    requires Founded(s) && w in s.waiters
    ensures Founded(s.(awaiting := s.awaiting - {s.waiters[w].id}, waiters := s.waiters - {w}))
  {
  }

  lemma RoundMovesOn(s: State, doing: Doing)
    requires Founded(s) && s.round.Some? && (doing.Looking? || (s.round.value.doing.Inspecting? && doing == Removing(s.round.value.doing.id)))
    ensures Founded(s.(round := Some(s.round.value.(doing := doing))))
  {
  }

  lemma LookIsFounded(s: State, ok: bool)
    requires Founded(s) && s.round.Some? && (s.round.value.doing.Looking? || s.round.value.doing.Spawning?)
    ensures Founded(ProceedRounding(s, ok))
  {
  }

  lemma RoundIsFounded(s: State, ok: bool)
    requires Founded(s) && s.round.Some?
    ensures Founded(ProceedRounding(s, ok))
  {
    hide Founded, TakeAway, Record, Spawn;
    match s.round.value.doing
    case Inspecting(id) =>
      RecordIsFounded(s, id);
      RoundMovesOn(s, Removing(id));
      RoundMovesOn(s.(book := Record(s.book, id)), Removing(id));
    case Removing(id) =>
      TakeAwayIsFounded(s, {id});
      SameStarts(s, {id});
      RoundMovesOn(s, Looking);
      RoundMovesOn(TakeAway(s, {id}), Looking);
    case _ => LookIsFounded(s, ok);
  }

  lemma OthersAreFounded(s: State, e: Event)
    requires Founded(s) && !e.ProceedStart? && !e.ProceedWaiter? && !e.ProceedRound?
    ensures Founded(Next(s, e))
  {
    hide Booked, StartsApart, WaitersTrue, RoundTrue, IsList, Over;
    match e
    case Begin(t, name) => BeginIsFounded(s, t, name);
    case Ends(id) => EndIsFounded(s, id);
    case HandRemoves(id) => HandIsFounded(s, id);
    case BeginRound(order) => ListIsFounded(s, order);
    case Replaced => ReplacedIsFounded(s);
  }

  lemma ReplacedIsFounded(s: State)
    requires Founded(s)
    ensures Founded(Next(s, Replaced))
  {
  }

  lemma BeginIsFounded(s: State, t: nat, name: Name)
    requires Founded(s)
    ensures Founded(Next(s, Begin(t, name)))
  {
  }

  lemma EndIsFounded(s: State, id: nat)
    requires Founded(s)
    ensures Founded(Next(s, Ends(id)))
  {
  }

  lemma HandIsFounded(s: State, id: nat)
    requires Founded(s)
    ensures Founded(Next(s, HandRemoves(id)))
  {
  }

  lemma ListIsFounded(s: State, order: seq<Listed>)
    requires Founded(s)
    ensures Founded(Next(s, BeginRound(order)))
  {
  }

  lemma NextIsFounded(s: State, e: Event)
    requires Founded(s)
    ensures Founded(Next(s, e))
  {
    hide Founded, ProceedStarting, ProceedWaiting, ProceedRounding;
    match e
    case ProceedStart(t, ok) => if t in s.starting { StartIsFounded(s, t, ok); }
    case ProceedWaiter(w, ok) => if w in s.waiters { WaiterIsFounded(s, w, ok); }
    case ProceedRound(ok) => if s.round.Some? { RoundIsFounded(s, ok); }
    case _ => OthersAreFounded(s, e);
  }

  lemma {:induction false} RunIsFounded(events: seq<Event>)
    ensures Founded(Run(START, events))
  {
    if events == [] {
    } else {
      RunIsFounded(events[..|events| - 1]);
      NextIsFounded(Run(START, events[..|events| - 1]), events[|events| - 1]);
    }
  }

  // What goes wrong, step by step -----------------------------------------------------------

  /** The step takes away the container that is `id`: a round that found it ended, or a start that wants its name. */
  ghost predicate Takes(s: State, e: Event, id: nat) {
    && id in s.containers
    && (|| (e == ProceedRound(true) && s.round.Some? && s.round.value.doing == Removing(id))
        || (e.ProceedStart? && e.ok && e.thread in s.starting && s.starting[e.thread] == Clearing(s.containers[id].name)))
  }

  /** The step writes a finished record for `id` while it is not over. */
  ghost predicate Misreports(s: State, e: Event, id: nat) {
    && id in s.containers && id !in s.book.over
    && (|| (e.ProceedWaiter? && !e.ok && e.w in s.waiters && s.waiters[e.w] == Waiter(id, Waiting))
        || (e == ProceedRound(true) && s.round.Some? && s.round.value.doing == Inspecting(id)))
  }

  /** What one step does to the ledger of a run that began. */
  ghost predicate StepIsExact(s: State, e: Event, id: nat) {
    var n := Next(s, e).book;
    && (id in s.book.began && id !in s.book.lost ==> (id in n.lost <==> Takes(s, e, id) && id !in s.book.recorded))
    && (id !in s.book.killed ==> (id in n.killed <==> Takes(s, e, id) && s.containers[id].running))
    && (id !in s.book.mistaken ==> (id in n.mistaken <==> Misreports(s, e, id)))
    && s.book.lost <= n.lost && s.book.killed <= n.killed && s.book.mistaken <= n.mistaken && s.book.began <= n.began
    && (id in n.began && id !in s.book.began ==> id in s.containers && id !in n.lost)
  }

  lemma StartIsExact(s: State, t: nat, ok: bool, id: nat)
    requires Founded(s) && t in s.starting
    ensures StepIsExact(s, ProceedStart(t, ok), id)
  {
  }

  lemma WaiterIsExact(s: State, w: nat, ok: bool, id: nat)
    requires Founded(s) && w in s.waiters
    ensures StepIsExact(s, ProceedWaiter(w, ok), id)
  {
  }

  lemma RoundIsExact(s: State, ok: bool, id: nat)
    requires Founded(s) && s.round.Some?
    ensures StepIsExact(s, ProceedRound(ok), id)
  {
  }

  /** What any step of any run does to the ledger, exactly. */
  lemma NextIsExact(s: State, e: Event, id: nat)
    requires Founded(s)
    ensures StepIsExact(s, e, id)
  {
    match e
    case ProceedStart(t, ok) => if t in s.starting { StartIsExact(s, t, ok, id); }
    case ProceedWaiter(w, ok) => if w in s.waiters { WaiterIsExact(s, w, ok, id); }
    case ProceedRound(ok) => if s.round.Some? { RoundIsExact(s, ok, id); }
    case _ =>
  }

  /** Somewhere in the run, a step takes away a run that has no finished record. */
  ghost predicate TakesUnrecorded(events: seq<Event>, id: nat) {
    exists i :: 0 <= i < |events| && TakesUnrecordedAt(events, i, id)
  }

  ghost predicate TakesUnrecordedAt(events: seq<Event>, i: nat, id: nat)
    requires i < |events|
  {
    var s := Run(START, events[..i]);
    id in s.book.began && id !in s.book.recorded && Takes(s, events[i], id)
  }

  ghost predicate TakesGoing(events: seq<Event>, id: nat) {
    exists i :: 0 <= i < |events| && TakesGoingAt(events, i, id)
  }

  ghost predicate TakesGoingAt(events: seq<Event>, i: nat, id: nat)
    requires i < |events|
  {
    var s := Run(START, events[..i]);
    Takes(s, events[i], id) && s.containers[id].running
  }

  ghost predicate MisreportsSome(events: seq<Event>, id: nat) {
    exists i :: 0 <= i < |events| && MisreportsAt(events, i, id)
  }

  ghost predicate MisreportsAt(events: seq<Event>, i: nat, id: nat)
    requires i < |events|
  {
    Misreports(Run(START, events[..i]), events[i], id)
  }

  lemma LongerRun(events: seq<Event>, id: nat)
    requires events != []
    ensures var k := |events| - 1;
            && (TakesUnrecorded(events, id) <==> TakesUnrecorded(events[..k], id) || TakesUnrecordedAt(events, k, id))
            && (TakesGoing(events, id) <==> TakesGoing(events[..k], id) || TakesGoingAt(events, k, id))
            && (MisreportsSome(events, id) <==> MisreportsSome(events[..k], id) || MisreportsAt(events, k, id))
  {
    hide Run, Takes, Misreports;
    var k := |events| - 1;
    var front := events[..k];
    assert forall i :: 0 <= i < k ==> front[..i] == events[..i] && front[i] == events[i];
    assert forall i :: 0 <= i < k ==> (TakesUnrecordedAt(front, i, id) <==> TakesUnrecordedAt(events, i, id));
    assert forall i :: 0 <= i < k ==> (TakesGoingAt(front, i, id) <==> TakesGoingAt(events, i, id));
    assert forall i :: 0 <= i < k ==> (MisreportsAt(front, i, id) <==> MisreportsAt(events, i, id));
  }

  /**
    Over any run whatever: a run that began is lost exactly when a round's removal or a
    start's clearing takes it with no finished record, is killed exactly when one of these
    takes it while it is going, and is reported finished too early exactly when a wait fails
    or a round inspects it while it is not over.
  */
  lemma {:induction false} LossIsExactly(events: seq<Event>, id: nat)
    ensures var b := Run(START, events).book;
            && (id in b.lost && id in b.began <==> TakesUnrecorded(events, id))
            && (id in b.killed <==> TakesGoing(events, id))
            && (id in b.mistaken <==> MisreportsSome(events, id))
  {
    if events == [] {
    } else {
      hide Founded, Takes, Misreports, Next;
      var k := |events| - 1;
      LossIsExactly(events[..k], id);
      RunIsFounded(events[..k]);
      NextIsExact(Run(START, events[..k]), events[k], id);
      LongerRun(events, id);
      LostStaysLost(events[..k], id);
    }
  }

  /** What was lost before it began never begins. */
  lemma LostStaysLost(events: seq<Event>, id: nat)
    ensures var s := Run(START, events); id in s.book.lost ==> id !in s.containers
  {
    RunIsFounded(events);
  }

  // When nothing goes wrong -------------------------------------------------------------------

  /** No two starts were for the same instant of the same service. */
  ghost predicate DistinctStarts(events: seq<Event>) {
    forall i, j :: 0 <= i < j < |events| && events[i].Begin? && events[j].Begin? ==> events[i].name != events[j].name
  }

  /** The container was created and its start has yet to launch it. */
  ghost predicate AboutToLaunch(s: State, id: nat) {
    id in s.containers && exists t :: t in s.starting && s.starting[t] == Launching(id)
  }

  /**
    The runtime answers what is asked about a run that is there, and a round does not take its
    list while a start is between its create and its launch. Strictly, it takes none while any
    container was never launched.
  */
  ghost predicate Fair(s: State, e: Event, strict: bool) {
    match e
    case ProceedWaiter(w, ok) =>
      w in s.waiters && s.waiters[w].phase.Waiting? && s.waiters[w].id in s.containers ==> ok
    case ProceedRound(ok) =>
      s.round.Some? && s.round.value.doing.Inspecting? && s.round.value.doing.id in s.containers ==> ok
    case BeginRound(order) =>
      s.round.None? && IsList(order, s) ==> if strict then s.containers.Keys <= s.book.began else forall id :: !AboutToLaunch(s, id)
    case _ => true
  }

  ghost predicate AlwaysFair(s: State, events: seq<Event>, strict: bool) {
    forall i :: 0 <= i < |events| ==> Fair(Run(s, events[..i]), events[i], strict)
  }

  ghost predicate Asked(events: seq<Event>, name: Name) {
    exists i :: 0 <= i < |events| && events[i].Begin? && events[i].name == name
  }

  predicate Naming(starting: Starting) {
    starting.Clearing? || starting.Creating?
  }

  /** Names in use were asked for, and nothing stands under a name that a start is about to clear. */
  ghost predicate NamesAreFresh(s: State, events: seq<Event>) {
    && (forall id :: id in s.containers ==> Asked(events, s.containers[id].name))
    && (forall t :: t in s.starting && Naming(s.starting[t]) ==>
          Asked(events, s.starting[t].name) && Holders(s, s.starting[t].name) == {})
    && (forall t, u :: t in s.starting && u in s.starting && t != u && Naming(s.starting[t]) && Naming(s.starting[u]) ==>
          s.starting[t].name != s.starting[u].name)
  }

  lemma AskedLater(events: seq<Event>, e: Event, name: Name)
    ensures Asked(events + [e], name) <==> Asked(events, name) || (e.Begin? && e.name == name)
  {
    var all := events + [e];
    if Asked(events, name) {
      var i :| 0 <= i < |events| && events[i].Begin? && events[i].name == name;
      assert all[i] == events[i];
    }
    if e.Begin? && e.name == name { assert all[|events|] == e; }
  }

  /** Taking containers away leaves the names that are left as they were. */
  lemma FewerNames(s: State, t: State, events: seq<Event>, e: Event)
    requires NamesAreFresh(s, events) && !e.Begin?
    requires forall id :: id in t.containers ==> id in s.containers && t.containers[id].name == s.containers[id].name
    requires forall u :: u in t.starting && Naming(t.starting[u]) ==>
               u in s.starting && Naming(s.starting[u]) && t.starting[u].name == s.starting[u].name
    ensures NamesAreFresh(t, events + [e])
  {
    forall id | id in t.containers ensures Asked(events + [e], t.containers[id].name) {
      AskedLater(events, e, t.containers[id].name);
    }
    forall u | u in t.starting && Naming(t.starting[u])
      ensures Asked(events + [e], t.starting[u].name) && Holders(t, t.starting[u].name) == {}
    {
      AskedLater(events, e, t.starting[u].name);
      var name := t.starting[u].name;
      assert Holders(s, name) == {};
      forall id ensures id !in Holders(t, name) {
        assert id !in Holders(s, name);
      }
    }
  }

  lemma BeginKeepsNames(s: State, events: seq<Event>, t: nat, name: Name)
    requires NamesAreFresh(s, events) && !Asked(events, name)
    ensures NamesAreFresh(Next(s, Begin(t, name)), events + [Begin(t, name)])
  {
    var e := Begin(t, name);
    var after := Next(s, e);
    forall id | id in after.containers ensures Asked(events + [e], after.containers[id].name) {
      AskedLater(events, e, after.containers[id].name);
    }
    forall u | u in after.starting && Naming(after.starting[u])
      ensures Asked(events + [e], after.starting[u].name) && Holders(after, after.starting[u].name) == {}
    {
      AskedLater(events, e, after.starting[u].name);
      var n := after.starting[u].name;
      assert Holders(after, n) == Holders(s, n);
    }
  }

  lemma CreateKeepsNames(s: State, events: seq<Event>, t: nat, ok: bool)
    requires NamesAreFresh(s, events) && t in s.starting && s.starting[t].Creating?
    ensures NamesAreFresh(Next(s, ProceedStart(t, ok)), events + [ProceedStart(t, ok)])
  {
    var e := ProceedStart(t, ok);
    var after := Next(s, e);
    var name := s.starting[t].name;
    forall id | id in after.containers ensures Asked(events + [e], after.containers[id].name) {
      AskedLater(events, e, after.containers[id].name);
    }
    forall u | u in after.starting && Naming(after.starting[u])
      ensures Asked(events + [e], after.starting[u].name) && Holders(after, after.starting[u].name) == {}
    {
      var n := after.starting[u].name;
      AskedLater(events, e, n);
      assert u != t && n != name && Holders(s, n) == {};
      forall id ensures id !in Holders(after, n) {
        assert id !in Holders(s, n);
      }
    }
  }

  lemma WaiterKeepsNames(s: State, events: seq<Event>, w: nat, ok: bool)
    requires NamesAreFresh(s, events)
    ensures NamesAreFresh(Next(s, ProceedWaiter(w, ok)), events + [ProceedWaiter(w, ok)])
  {
    hide NamesAreFresh, Asked, Holders, ProceedStarting, ProceedRounding, IsList;
    FewerNames(s, Next(s, ProceedWaiter(w, ok)), events, ProceedWaiter(w, ok));
  }

  lemma RoundKeepsNames(s: State, events: seq<Event>, ok: bool)
    requires NamesAreFresh(s, events)
    ensures NamesAreFresh(Next(s, ProceedRound(ok)), events + [ProceedRound(ok)])
  {
    hide NamesAreFresh, Asked, Holders, ProceedStarting, ProceedWaiting, IsList;
    FewerNames(s, Next(s, ProceedRound(ok)), events, ProceedRound(ok));
  }

  lemma NextKeepsNames(s: State, events: seq<Event>, e: Event)
    requires NamesAreFresh(s, events)
    requires e.Begin? ==> !Asked(events, e.name)
    ensures NamesAreFresh(Next(s, e), events + [e])
  {
    hide NamesAreFresh, Asked, Holders, ProceedStarting, ProceedWaiting, ProceedRounding, IsList;
    match e
    case Begin(t, name) => BeginKeepsNames(s, events, t, name);
    case ProceedStart(t, ok) =>
      if t in s.starting && s.starting[t].Creating? {
        CreateKeepsNames(s, events, t, ok);
      } else {
        StartKeepsNames(s, events, t, ok);
      }
    case ProceedWaiter(w, ok) => WaiterKeepsNames(s, events, w, ok);
    case ProceedRound(ok) => RoundKeepsNames(s, events, ok);
    case _ => FewerNames(s, Next(s, e), events, e);
  }

  lemma StartKeepsNames(s: State, events: seq<Event>, t: nat, ok: bool)
    requires NamesAreFresh(s, events) && (t in s.starting ==> !s.starting[t].Creating?)
    ensures NamesAreFresh(Next(s, ProceedStart(t, ok)), events + [ProceedStart(t, ok)])
  {
    hide NamesAreFresh, Asked, Holders;
    FewerNames(s, Next(s, ProceedStart(t, ok)), events, ProceedStart(t, ok));
  }

  /** Nobody is going to launch it any more. */
  ghost predicate Dead(s: State, id: nat) {
    id < s.nextId && id !in s.book.began && forall t :: t in s.starting ==> s.starting[t] != Launching(id)
  }

  ghost predicate Settled(s: State, id: nat, strict: bool) {
    id in s.book.over || (!strict && Dead(s, id))
  }

  ghost predicate CleanBook(b: Ledger, strict: bool) {
    b.killed == {} && b.lost !! b.began && (strict ==> b.mistaken == {})
  }

  /** What a round takes for ended is over, or will never begin; what it is to take away is recorded. */
  ghost predicate CleanRound(s: State, strict: bool) {
    s.round.Some? ==>
      var r := s.round.value;
      && (forall c :: c in r.todo && !c.running ==> Settled(s, c.id, strict))
      && (r.doing.Inspecting? || r.doing.Removing? ==> Settled(s, r.doing.id, strict))
      && (r.doing.Removing? && r.doing.id in s.containers && r.doing.id in s.book.over ==> r.doing.id in s.book.recorded)
  }

  lemma DeadStays(s: State, e: Event, id: nat)
    requires Founded(s) && Dead(s, id)
    ensures Dead(Next(s, e), id)
  {
    hide Next, Founded;
    if e.ProceedStart? {
      StartLeavesDead(s, e.thread, e.ok, id);
    } else {
      OthersLaunchNothing(s, e);
    }
  }

  lemma StartLeavesDead(s: State, t: nat, ok: bool, id: nat)
    requires Founded(s) && Dead(s, id)
    ensures Dead(Next(s, ProceedStart(t, ok)), id)
  {
    hide Holders, TakeAway;
    TakingLaunchesNothing(s, ProceedStart(t, ok));
  }

  lemma OthersLaunchNothing(s: State, e: Event)
    requires !e.ProceedStart?
    ensures var n := Next(s, e); n.nextId == s.nextId && n.book.began == s.book.began
    ensures forall t :: t in Next(s, e).starting ==> Next(s, e).starting[t].Clearing? || (t in s.starting && Next(s, e).starting[t] == s.starting[t])
  {
    hide IsList, TakeAway, Record, Over;
    TakingLaunchesNothing(s, e);
  }

  /** Taking away and recording let nothing begin and give no number out. */
  lemma TakingLaunchesNothing(s: State, e: Event)
    ensures forall ids :: var n := TakeAway(s, ids); n.nextId == s.nextId && n.book.began == s.book.began && n.starting == s.starting
    ensures forall id :: Record(s.book, id).began == s.book.began && Over(s, id).began == s.book.began
    ensures forall ids :: s.book.over <= TakeAway(s, ids).book.over
    ensures forall id :: s.book.over <= Record(s.book, id).over && s.book.over <= Over(s, id).over
  {
  }

  lemma SettledStays(s: State, e: Event, id: nat, strict: bool)
    requires Founded(s) && Settled(s, id, strict)
    ensures Settled(Next(s, e), id, strict)
  {
    hide Holders, IsList, TakeAway, Record, Over, Dead, Founded;
    TakingLaunchesNothing(s, e);
    if Dead(s, id) { DeadStays(s, e, id); }
  }

  lemma NothingBadHappens(s: State, events: seq<Event>, e: Event, strict: bool, id: nat)
    requires Founded(s) && NamesAreFresh(s, events) && CleanRound(s, strict) && Fair(s, e, strict)
    ensures !(Takes(s, e, id) && s.containers[id].running)
    ensures !(Takes(s, e, id) && id in s.book.began && id !in s.book.recorded)
    ensures strict ==> !Misreports(s, e, id)
  {
    if e.ProceedStart? && e.thread in s.starting && s.starting[e.thread].Clearing? {
      NobodyHolds(s, s.starting[e.thread].name);
    }
  }

  lemma NobodyHolds(s: State, name: Name)
    ensures Holders(s, name) == {} ==> forall id :: id in s.containers ==> s.containers[id].name != name
  {
    forall id | id in s.containers && s.containers[id].name == name ensures id in Holders(s, name) {
    }
  }

  lemma BookStaysClean(s: State, events: seq<Event>, e: Event, strict: bool)
    requires Founded(s) && NamesAreFresh(s, events) && CleanRound(s, strict) && Fair(s, e, strict) && CleanBook(s.book, strict)
    ensures CleanBook(Next(s, e).book, strict)
  {
    hide Next, Founded, NamesAreFresh, CleanRound, Fair, Takes, Misreports;
    var n := Next(s, e).book;
    NothingLostYet(s);
    forall id ensures id !in n.killed && !(id in n.lost && id in n.began) && (strict ==> id !in n.mistaken) {
      NextIsExact(s, e, id);
      NothingBadHappens(s, events, e, strict, id);
    }
  }

  lemma NothingLostYet(s: State)
    requires Founded(s)
    ensures forall id :: id in s.book.lost ==> id !in s.containers
  {
  }

  lemma RoundStaysClean(s: State, ok: bool, strict: bool)
    requires Founded(s) && CleanRound(s, strict) && s.round.Some? && Fair(s, ProceedRound(ok), strict)
    ensures CleanRound(ProceedRounding(s, ok), strict)
  {
    hide Settled, Founded, IsList, ProceedStarting, ProceedWaiting, Over;
    var r, n := s.round.value, ProceedRounding(s, ok);
    assert Next(s, ProceedRound(ok)) == n;
    forall id | Settled(s, id, strict) ensures Settled(n, id, strict) {
      SettledStays(s, ProceedRound(ok), id, strict);
    }
  }

  /** Outside a round's own steps, what it is to take away stays recorded. */
  lemma RemovingStays(s: State, e: Event, id: nat, strict: bool)
    requires Founded(s) && Settled(s, id, strict) && !e.ProceedRound? && !e.BeginRound?
    requires id in s.containers && id in s.book.over ==> id in s.book.recorded
    requires id < s.nextId
    ensures var n := Next(s, e); id in n.containers && id in n.book.over ==> id in n.book.recorded
  {
    hide Founded, Next;
    NextIsFounded(s, e);
    OldNumbers(s, e, id);
    if id !in s.book.over {
      DeadStays(s, e, id);
      OverBegan(Next(s, e));
    }
  }

  lemma OverBegan(s: State)
    requires Founded(s)
    ensures s.book.over <= s.book.began
  {
  }

  lemma OldNumbers(s: State, e: Event, id: nat)
    requires id < s.nextId
    ensures id in Next(s, e).containers ==> id in s.containers
    ensures s.book.recorded <= Next(s, e).book.recorded
  {
    hide Holders, IsList;
  }

  lemma OthersKeepTheRound(s: State, e: Event)
    requires !e.ProceedRound? && !e.BeginRound?
    ensures Next(s, e).round == s.round || Next(s, e).round.None?
  {
  }

  lemma OthersLeaveTheRoundClean(s: State, e: Event, strict: bool)
    requires Founded(s) && CleanRound(s, strict) && !e.ProceedRound? && !e.BeginRound?
    ensures CleanRound(Next(s, e), strict)
  {
    hide Settled, Next, Booked, StartsApart, WaitersTrue;
    var n := Next(s, e);
    forall id | Settled(s, id, strict) ensures Settled(n, id, strict) {
      SettledStays(s, e, id, strict);
    }
    OthersKeepTheRound(s, e);
    if s.round.Some? && s.round.value.doing.Removing? { RemovingStays(s, e, s.round.value.doing.id, strict); }
  }

  lemma ListIsClean(s: State, order: seq<Listed>, strict: bool)
    requires Founded(s) && s.round.None? && IsList(order, s) && Fair(s, BeginRound(order), strict)
    ensures CleanRound(Next(s, BeginRound(order)), strict)
  {
    forall c | c in order && !c.running ensures Settled(s, c.id, strict) {
      if c.id !in s.book.began {
        assert !AboutToLaunch(s, c.id);
      }
    }
  }

  lemma NextIsClean(s: State, e: Event, strict: bool)
    requires Founded(s) && CleanRound(s, strict) && Fair(s, e, strict)
    ensures CleanRound(Next(s, e), strict)
  {
    hide Founded, CleanRound, Fair;
    match e
    case ProceedRound(ok) => if s.round.Some? { RoundStaysClean(s, ok, strict); }
    case BeginRound(order) => if s.round.None? && IsList(order, s) { ListIsClean(s, order, strict); }
    case _ => OthersLeaveTheRoundClean(s, e, strict);
  }

  lemma FairFront(events: seq<Event>, strict: bool)
    requires events != [] && AlwaysFair(START, events, strict) && DistinctStarts(events)
    ensures var k := |events| - 1;
            && AlwaysFair(START, events[..k], strict) && DistinctStarts(events[..k])
            && Fair(Run(START, events[..k]), events[k], strict)
            && (events[k].Begin? ==> !Asked(events[..k], events[k].name))
  {
    hide Fair, Run;
    var k := |events| - 1;
    var front := events[..k];
    forall i | 0 <= i < k ensures Fair(Run(START, front[..i]), front[i], strict) {
      assert front[..i] == events[..i];
      assert Fair(Run(START, events[..i]), events[i], strict);
    }
    assert Fair(Run(START, events[..k]), events[k], strict);
  }

  lemma {:induction false} RunIsClean(events: seq<Event>, strict: bool)
    requires DistinctStarts(events) && AlwaysFair(START, events, strict)
    ensures var s := Run(START, events);
            NamesAreFresh(s, events) && CleanRound(s, strict) && CleanBook(s.book, strict)
  {
    if events == [] {
    } else {
      hide Founded, NamesAreFresh, CleanRound, CleanBook, Fair, Next, AlwaysFair, DistinctStarts, Asked;
      var k := |events| - 1;
      var front, e := events[..k], events[k];
      FairFront(events, strict);
      RunIsClean(front, strict);
      RunIsFounded(front);
      var s := Run(START, front);
      NextIsClean(s, e, strict);
      BookStaysClean(s, front, e, strict);
      assert events == front + [e];
      NextKeepsNames(s, front, e);
    }
  }

  /**
    Over any starts of distinct instants, ends, hands, waiters, rounds and replaced daemons
    that are fair: hostd takes no run away while it is going, and takes one away only after a
    finished record was written once it was over. Strictly fair, no finished record is written
    for anything that is not over.
  */
  lemma NoRunIsLost(events: seq<Event>, strict: bool)
    requires DistinctStarts(events) && AlwaysFair(START, events, strict)
    ensures var b := Run(START, events).book;
            b.killed == {} && b.lost !! b.began && (strict ==> b.mistaken == {})
  {
    RunIsClean(events, strict);
  }

  // What a list can lead to -----------------------------------------------------------------

  /** What follows a list taken now: fair, with starts of instants of their own and no further list. */
  ghost predicate Follows(events: seq<Event>, order: seq<Listed>, more: seq<Event>) {
    var s := Run(START, events);
    && IsList(order, s) && DistinctStarts(events + [BeginRound(order)] + more)
    && (forall e :: e in more ==> !e.BeginRound?)
    && AlwaysFair(Next(s, BeginRound(order)), more, true)
  }

  lemma {:induction false} RunJoins(s: State, a: seq<Event>, b: seq<Event>)
    ensures Run(s, a + b) == Run(Run(s, a), b)
  {
    if b == [] {
      assert a + b == a;
    } else {
      var front := b[..|b| - 1];
      assert (a + b)[..|a + b| - 1] == a + front && (a + b)[|a + b| - 1] == b[|b| - 1];
      RunJoins(s, a, front);
    }
  }

  lemma RunOneMore(events: seq<Event>, e: Event)
    ensures Run(START, events + [e]) == Next(Run(START, events), e)
  {
    assert (events + [e])[..|events|] == events;
  }

  /** Fair all along, the list included. */
  lemma ThroughIsFair(events: seq<Event>, order: seq<Listed>, more: seq<Event>, strict: bool)
    requires AlwaysFair(START, events, strict) && Follows(events, order, more)
    requires Fair(Run(START, events), BeginRound(order), strict)
    ensures AlwaysFair(START, events + [BeginRound(order)] + more, strict)
  {
    hide Run, Fair, IsList, DistinctStarts;
    var all, list := events + [BeginRound(order)] + more, events + [BeginRound(order)];
    RunOneMore(events, BeginRound(order));
    forall i | 0 <= i < |all| ensures Fair(Run(START, all[..i]), all[i], strict) {
      if i < |events| {
        assert all[..i] == events[..i] && all[i] == events[i];
      } else if i == |events| {
        assert all[..i] == events;
      } else {
        var k := i - |events| - 1;
        assert all[..i] == list + more[..k] && all[i] == more[k];
        RunJoins(START, list, more[..k]);
        var at := Run(Run(START, list), more[..k]);
        assert Fair(at, more[k], true) && more[k] in more;
        StrictIsNoLess(at, more[k], strict);
      }
    }
  }

  lemma StrictIsNoLess(s: State, e: Event, strict: bool)
    requires Fair(s, e, true) && !e.BeginRound?
    ensures Fair(s, e, strict)
  {
  }

  /** The list with this container first. */
  lemma PutFirst(order: seq<Listed>, s: State, x: Listed) returns (first: seq<Listed>)
    requires IsList(order, s) && x in order
    ensures IsList(first, s) && first != [] && first[0] == x
  {
    var k :| 0 <= k < |order| && order[k] == x;
    first := order[0 := x][k := order[0]];
    forall c ensures c in first <==> c in order {
      if c in order {
        var i :| 0 <= i < |order| && order[i] == c;
        assert first[if i == k then 0 else if i == 0 then k else i] == c;
      }
    }
  }

  /** A list there is. */
  lemma {:induction false} ThereIsAList(containers: map<nat, Container>) returns (order: seq<Listed>)
    ensures forall c :: c in order <==> c.id in containers && c.running == containers[c.id].running
    ensures forall i, j :: 0 <= i < j < |order| ==> order[i] != order[j]
    decreases |containers.Keys|
  {
    order := [];
    if containers.Keys == {} {
    } else {
      var id :| id in containers;
      var rest := containers - {id};
      assert rest.Keys == containers.Keys - {id};
      order := ThereIsAList(rest);
      order := order + [Listed(id, containers[id].running)];
    }
  }

  /** The round's first two turns with a container that was never launched: it inspects and reports it. */
  lemma RoundMisreports(s: State, order: seq<Listed>, id: nat)
    requires Founded(s) && s.round.None? && IsList(order, s) && order != [] && order[0] == Listed(id, false)
    requires id in s.containers && id !in s.book.began
    ensures var listed := Next(s, BeginRound(order));
            var more := [ProceedRound(true), ProceedRound(true)];
            && AlwaysFair(listed, more, true)
            && var t := Run(listed, more);
               id in t.book.mistaken && t.round.Some? && t.round.value.doing == Removing(id)
               && t.containers == s.containers && t.starting == s.starting && t.book.began == s.book.began
  {
    var listed := Next(s, BeginRound(order));
    var one := Next(listed, ProceedRound(true));
    assert one.round.value.doing == Inspecting(id);
    var more := [ProceedRound(true), ProceedRound(true)];
    assert more[..0] == [] && more[..1] == [ProceedRound(true)] && more[..1][..0] == [];
    assert Run(listed, more[..1]) == one;
    assert Run(listed, more) == Next(one, ProceedRound(true));
  }

  lemma NeverLaunched(s: State, id: nat)
    requires Founded(s) && id in s.containers
    ensures id !in s.book.began ==> !s.containers[id].running
    ensures AboutToLaunch(s, id) ==> id !in s.book.began
  {
  }

  lemma ListIsFair(s: State, order: seq<Listed>)
    ensures s.containers.Keys <= s.book.began ==> Fair(s, BeginRound(order), true)
    ensures (forall id :: !AboutToLaunch(s, id)) ==> Fair(s, BeginRound(order), false)
  {
  }

  /**
    Exactly when a list can lead to a false report: some container it lists was never
    launched. Then the round inspects that container and records a run as finished.
  */
  lemma ListMisleadsExactlyWhen(events: seq<Event>)
    requires DistinctStarts(events) && AlwaysFair(START, events, true) && Run(START, events).round.None?
    ensures (exists order, more :: Follows(events, order, more) && Run(START, events + [BeginRound(order)] + more).book.mistaken != {})
            <==> !(Run(START, events).containers.Keys <= Run(START, events).book.began)
  {
    hide Founded, Next, Run, Fair, AlwaysFair, DistinctStarts;
    var s := Run(START, events);
    RunIsFounded(events);
    if order, more :| Follows(events, order, more) && Run(START, events + [BeginRound(order)] + more).book.mistaken != {} {
      if s.containers.Keys <= s.book.began {
        ListIsFair(s, order);
        ThroughIsFair(events, order, more, true);
        NoRunIsLost(events + [BeginRound(order)] + more, true);
      }
    }
    if !(s.containers.Keys <= s.book.began) {
      var id :| id in s.containers && id !in s.book.began;
      NeverLaunched(s, id);
      var list := ThereIsAList(s.containers);
      assert Listed(id, false) in list;
      var order := PutFirst(list, s, Listed(id, false));
      var more := [ProceedRound(true), ProceedRound(true)];
      RoundMisreports(s, order, id);
      RunOneMore(events, BeginRound(order));
      RunJoins(START, events + [BeginRound(order)], more);
      NoMoreStarts(events, [BeginRound(order)] + more);
      assert events + [BeginRound(order)] + more == events + ([BeginRound(order)] + more);
      assert Follows(events, order, more);
    }
  }

  lemma NoMoreStarts(events: seq<Event>, more: seq<Event>)
    requires DistinctStarts(events) && forall i :: 0 <= i < |more| ==> !more[i].Begin?
    ensures DistinctStarts(events + more)
  {
  }

  /** The start launches what the round is about to take away. */
  lemma LaunchedAndTaken(events: seq<Event>, order: seq<Listed>, id: nat, t: nat)
    requires DistinctStarts(events)
    requires var s := Run(START, events);
             && s.round.None? && IsList(order, s) && order != [] && order[0] == Listed(id, false)
             && id in s.containers && t in s.starting && s.starting[t] == Launching(id)
    ensures var more := [ProceedRound(true), ProceedRound(true)] + [ProceedStart(t, true), ProceedRound(true)];
            Follows(events, order, more) && id in Run(START, events + [BeginRound(order)] + more).book.killed
  {
    hide Founded, Next, Run, Fair, IsList, AlwaysFair, DistinctStarts;
    var s := Run(START, events);
    RunIsFounded(events);
    var a, b := [ProceedRound(true), ProceedRound(true)], [ProceedStart(t, true), ProceedRound(true)];
    var listed := Next(s, BeginRound(order));
    assert AboutToLaunch(s, id);
    NeverLaunched(s, id);
    RoundMisreports(s, order, id);
    var reported := Run(listed, a);
    TakesWhatWasLaunched(reported, id, t);
    RunOneMore(events, BeginRound(order));
    RunJoins(listed, a, b);
    RunJoins(START, events + [BeginRound(order)], a + b);
    FairJoins(listed, a, b);
    NoMoreStarts(events, [BeginRound(order)] + (a + b));
    assert events + [BeginRound(order)] + (a + b) == events + ([BeginRound(order)] + (a + b));
  }

  lemma TakesWhatWasLaunched(s: State, id: nat, t: nat)
    requires id in s.containers && t in s.starting && s.starting[t] == Launching(id)
    requires s.round.Some? && s.round.value.doing == Removing(id)
    ensures var b := [ProceedStart(t, true), ProceedRound(true)];
            AlwaysFair(s, b, true) && id in Run(s, b).book.killed
  {
    var b := [ProceedStart(t, true), ProceedRound(true)];
    var one := Next(s, ProceedStart(t, true));
    assert b[..0] == [] && b[..1] == [ProceedStart(t, true)] && b[..1][..0] == [];
    assert Run(s, b[..1]) == one;
    assert Run(s, b) == Next(one, ProceedRound(true));
    assert id in Going(one.containers);
  }

  lemma FairJoins(s: State, a: seq<Event>, b: seq<Event>)
    requires AlwaysFair(s, a, true) && AlwaysFair(Run(s, a), b, true)
    ensures AlwaysFair(s, a + b, true)
  {
    hide Fair, Run;
    forall i | 0 <= i < |a + b| ensures Fair(Run(s, (a + b)[..i]), (a + b)[i], true) {
      if i < |a| {
        assert (a + b)[..i] == a[..i];
      } else {
        assert (a + b)[..i] == a + b[..i - |a|];
        RunJoins(s, a, b[..i - |a|]);
      }
    }
  }

  /** Some way to go on from the list ends a run that is going. */
  ghost predicate CanKill(events: seq<Event>, order: seq<Listed>, more: seq<Event>) {
    Follows(events, order, more) && Run(START, events + [BeginRound(order)] + more).book.killed != {}
  }

  lemma NothingIsKilled(events: seq<Event>, order: seq<Listed>, more: seq<Event>)
    requires DistinctStarts(events) && AlwaysFair(START, events, false) && CanKill(events, order, more)
    ensures exists id :: AboutToLaunch(Run(START, events), id)
  {
    hide Run, Fair, IsList, AboutToLaunch, DistinctStarts, AlwaysFair;
    if forall id :: !AboutToLaunch(Run(START, events), id) {
      ListIsFair(Run(START, events), order);
      ThroughIsFair(events, order, more, false);
      NoRunIsLost(events + [BeginRound(order)] + more, false);
    }
  }

  lemma LaunchIsKilled(events: seq<Event>, id: nat) returns (order: seq<Listed>, more: seq<Event>)
    requires DistinctStarts(events) && Run(START, events).round.None? && AboutToLaunch(Run(START, events), id)
    ensures CanKill(events, order, more)
  {
    var s := Run(START, events);
    var t :| t in s.starting && s.starting[t] == Launching(id);
    RunIsFounded(events);
    var list := ThereIsAList(s.containers);
    NeverLaunched(s, id);
    order := PutFirst(list, s, Listed(id, false));
    LaunchedAndTaken(events, order, id, t);
    more := [ProceedRound(true), ProceedRound(true)] + [ProceedStart(t, true), ProceedRound(true)];
  }

  /**
    Exactly when a list can lead to the end of a run that is going: it lists a container
    whose start is between its create and its launch. The round takes the container for an
    ended run, the start launches it, and the round removes it by force.
  */
  lemma ListKillsExactlyWhen(events: seq<Event>)
    requires DistinctStarts(events) && AlwaysFair(START, events, false) && Run(START, events).round.None?
    ensures (exists order, more :: CanKill(events, order, more)) <==> exists id :: AboutToLaunch(Run(START, events), id)
  {
    hide Run, CanKill, AboutToLaunch, DistinctStarts, AlwaysFair;
    if order, more :| CanKill(events, order, more) {
      NothingIsKilled(events, order, more);
    }
    if id :| AboutToLaunch(Run(START, events), id) {
      var order, more := LaunchIsKilled(events, id);
    }
  }

  // Each condition is needed ----------------------------------------------------------------

  lemma Go(events: seq<Event>, at: State, e: Event) returns (longer: seq<Event>, there: State)
    requires Run(START, events) == at
    ensures longer == events + [e] && there == Next(at, e) && Run(START, longer) == there
  {
    longer, there := events + [e], Next(at, e);
    RunOneMore(events, e);
  }

  lemma NothingRuns()
    ensures Run(START, []) == START
  {
  }

  /** A container that was created for a run and not yet launched. */
  lemma CreateRuns(name: Name) returns (events: seq<Event>, there: State)
    ensures Run(START, events) == there && |events| == 3 && events[0] == Begin(0, name)
    ensures forall i :: 1 <= i < 3 ==> events[i].ProceedStart?
    ensures there == START.(containers := map[0 := Container(name, false)], nextId := 1, starting := map[0 := Launching(0)])
  {
    hide Run;
    NothingRuns();
    events, there := Go([], START, Begin(0, name));
    events, there := Go(events, there, ProceedStart(0, true));
    assert there == START.(starting := map[0 := Creating(name)]);
    events, there := Go(events, there, ProceedStart(0, true));
  }

  /** A run that was started and is registered, with nothing else going on. */
  lemma StartRuns(name: Name) returns (events: seq<Event>, there: State)
    ensures Run(START, events) == there && |events| == 5 && events[0] == Begin(0, name) && forall i :: 1 <= i < 5 ==> events[i].ProceedStart?
    ensures there == START.(containers := map[0 := Container(name, true)], nextId := 1, awaiting := {0},
                            waiters := map[0 := Waiter(0, Waiting)], nextWaiter := 1, book := START.book.(began := {0}))
  {
    hide Run;
    events, there := CreateRuns(name);
    events, there := Go(events, there, ProceedStart(0, true));
    assert there == START.(containers := map[0 := Container(name, true)], nextId := 1,
                           starting := map[0 := Registering(0)], book := START.book.(began := {0}));
    events, there := Go(events, there, ProceedStart(0, true));
  }

  /** A list between a create and its launch, everything answered and one start only: the run is killed. */
  lemma ListOvertakesALaunch(name: Name) returns (order: seq<Listed>, events: seq<Event>, more: seq<Event>)
    ensures DistinctStarts(events) && AlwaysFair(START, events, true) && Follows(events, order, more)
    ensures Run(START, events + [BeginRound(order)] + more).book.killed != {}
  {
    hide Run, Fair, Follows;
    var s;
    events, s := CreateRuns(name);
    assert AboutToLaunch(s, 0) by { assert 0 in s.starting && s.starting[0] == Launching(0); }
    NothingToAnswer(events);
    order := [Listed(0, false)];
    assert IsList(order, s);
    more := [ProceedRound(true), ProceedRound(true)] + [ProceedStart(0, true), ProceedRound(true)];
    LaunchedAndTaken(events, order, 0, 0);
  }

  /** A second start for the same instant takes the first one's run away, going and unrecorded. */
  lemma SecondStartTakesALiveRun(name: Name) returns (events: seq<Event>)
    ensures AlwaysFair(START, events, true) && !DistinctStarts(events)
    ensures var b := Run(START, events).book; 0 in b.began && 0 in b.killed && 0 in b.lost
  {
    hide Run, Fair, DistinctStarts;
    var first, at;
    first, at := StartRuns(name);
    events := first + [Begin(1, name)];
    var again := at.(starting := map[1 := Clearing(name)]);
    RunOneMore(first, Begin(1, name));
    assert Next(at, Begin(1, name)) == again;
    events := events + [ProceedStart(1, true)];
    RunOneMore(first + [Begin(1, name)], ProceedStart(1, true));
    assert 0 in Holders(again, name) && 0 in Going(again.containers);
    StartsTwice(events, name);
    NothingToAnswer(events);
  }

  lemma StartsTwice(events: seq<Event>, name: Name)
    requires |events| == 7 && events[0] == Begin(0, name) && events[5] == Begin(1, name)
    ensures !DistinctStarts(events)
  {
  }

  lemma NothingToAnswer(events: seq<Event>)
    requires forall e :: e in events ==> e.Begin? || e.ProceedStart?
    ensures AlwaysFair(START, events, true)
  {
    hide Run;
    forall i | 0 <= i < |events| ensures Fair(Run(START, events[..i]), events[i], true) {
      assert events[i] in events;
    }
  }

  /** The next daemon's round has listed the run, ended meanwhile, and is about to inspect it. */
  lemma RoundFindsIt(name: Name) returns (events: seq<Event>, at: State)
    ensures Run(START, events) == at && DistinctStarts(events)
    ensures at.containers == map[0 := Container(name, false)] && at.book == START.book.(began := {0}, over := {0})
    ensures at.round == Some(Round({0}, [], Inspecting(0)))
  {
    hide Run;
    events, at := StartRuns(name);
    events, at := Go(events, at, Replaced);
    events, at := Go(events, at, Ends(0));
    assert at.containers == map[0 := Container(name, false)];
    var list := [Listed(0, false)];
    assert IsList(list, at);
    events, at := Go(events, at, BeginRound(list));
    assert (set c | c in list :: c.id) == {0};
    assert at.round == Some(Round({0}, list, Looking));
    assert list[1..] == [];
    events, at := Go(events, at, ProceedRound(true));
  }

  /**
    A run whose daemon was replaced, which ended meanwhile and whose one inspection is not
    answered, has its container taken away without a record.
  */
  lemma UnansweredInspectionLosesARun(name: Name) returns (events: seq<Event>)
    ensures DistinctStarts(events) && 0 in Run(START, events).book.began && 0 in Run(START, events).book.lost
  {
    hide Run;
    var at;
    events, at := RoundFindsIt(name);
    events, at := Go(events, at, ProceedRound(false));
    events, at := Go(events, at, ProceedRound(true));
  }

  /** A wait that fails is put down as the end of a run that goes on. */
  lemma FailedWaitIsMistaken(name: Name) returns (events: seq<Event>)
    ensures DistinctStarts(events)
    ensures var s := Run(START, events); 0 in s.book.mistaken && 0 in Going(s.containers)
  {
    hide Run;
    var at;
    events, at := StartRuns(name);
    events, at := Go(events, at, ProceedWaiter(0, false));
  }


  // Nothing a round listed is left unwatched ------------------------------------------------

  ghost predicate Watched(s: State, id: nat) {
    exists w :: w in s.waiters && s.waiters[w].id == id
  }

  /** The round has yet to deal with the run, or is dealing with it. */
  predicate Pending(r: Round, id: nat) {
    || (exists c :: c in r.todo && c.id == id)
    || (!r.doing.Looking? && r.doing.id == id)
  }

  ghost predicate Watching(s: State) {
    && (forall id :: id in s.containers ==> id < s.nextId)
    && (forall w :: w in s.waiters ==> w < s.nextWaiter)
    && (forall w :: w in s.waiters && s.waiters[w].phase.Leaving? ==>
          s.waiters[w].id !in s.containers && s.waiters[w].id < s.nextId)
    && (forall w :: w in s.waiters ==> s.waiters[w].id < s.nextId)
    && (forall t :: t in s.starting && !Naming(s.starting[t]) ==> s.starting[t].id < s.nextId)
    && (forall id :: id in s.awaiting ==>
          Watched(s, id) || (s.round.Some? && s.round.value.doing == Spawning(id)))
    && (s.round.Some? ==> WatchingRound(s, s.round.value))
  }

  ghost predicate WatchingRound(s: State, r: Round) {
    && (forall c :: c in r.todo ==> c.id < s.nextId)
    && (!r.doing.Looking? ==> r.doing.id < s.nextId)
    && (forall id :: id in r.listed ==> id < s.nextId)
    && (forall id :: id in r.listed && id in s.containers ==> Watched(s, id) || Pending(r, id))
  }

  predicate GoesThrough(e: Event) {
    (e.ProceedWaiter? || e.ProceedRound?) ==> e.ok
  }

  /** Waiters that stay, stay watching; a new one only adds to them. */
  lemma StillWatched(s: State, t: State, id: nat)
    requires Watched(s, id)
    requires forall w :: w in s.waiters && s.waiters[w].id == id ==> w in t.waiters && t.waiters[w].id == id
    ensures Watched(t, id)
  {
    var w :| w in s.waiters && s.waiters[w].id == id;
    assert w in t.waiters;
  }

  lemma SpawnWatches(s: State, id: nat)
    requires forall w :: w in s.waiters ==> w < s.nextWaiter
    ensures Watched(Spawn(s, id), id)
    ensures forall other :: Watched(s, other) ==> Watched(Spawn(s, id), other)
  {
    assert s.nextWaiter in Spawn(s, id).waiters;
    forall other | Watched(s, other) ensures Watched(Spawn(s, id), other) {
      StillWatched(s, Spawn(s, id), other);
    }
  }

  lemma RegisterKeepsWatching(s: State, t: nat, ok: bool)
    requires Watching(s) && t in s.starting && s.starting[t].Registering?
    ensures Watching(ProceedStarting(s, t, ok))
  {
    hide Watched;
    var before := s.(awaiting := s.awaiting + {s.starting[t].id}, starting := s.starting - {t});
    SpawnWatches(before, s.starting[t].id);
    forall id | Watched(s, id) ensures Watched(before, id) {
      StillWatched(s, before, id);
    }
  }

  lemma StartKeepsWatching(s: State, t: nat, ok: bool)
    requires Watching(s) && t in s.starting
    ensures Watching(ProceedStarting(s, t, ok))
  {
    if s.starting[t].Registering? {
      hide Watched;
      RegisterKeepsWatching(s, t, ok);
    } else {
      hide Watched, Watching, Holders;
      StartIsSmall(s, t, ok);
      SmallKeepsWatching(s, ProceedStarting(s, t, ok));
    }
  }

  /** A start that is not registering makes one container at the most, and leaves the watching alone. */
  ghost predicate Small(s: State, n: State) {
    && n.waiters == s.waiters && n.nextWaiter == s.nextWaiter && n.awaiting == s.awaiting && n.round == s.round
    && s.nextId <= n.nextId
    && (forall id :: id in n.containers ==> id in s.containers || s.nextId == id < n.nextId)
    && (forall u :: u in n.starting && !Naming(n.starting[u]) ==>
          || n.starting[u].id < n.nextId
          || exists v :: v in s.starting && !Naming(s.starting[v]) && s.starting[v].id == n.starting[u].id)
  }

  lemma StartIsSmall(s: State, t: nat, ok: bool)
    requires t in s.starting && !s.starting[t].Registering?
    requires Watching(s)
    ensures Small(s, ProceedStarting(s, t, ok))
  {
    hide Watched, WatchingRound, Holders;
  }

  lemma SmallKeepsWatching(s: State, n: State)
    requires Watching(s) && Small(s, n)
    ensures Watching(n)
  {
    hide Watched;
    forall id | Watched(s, id) ensures Watched(n, id) {
      StillWatched(s, n, id);
    }
  }

  lemma WaiterKeepsWatching(s: State, w: nat)
    requires Watching(s) && w in s.waiters
    ensures Watching(ProceedWaiting(s, w, true))
  {
    var after := ProceedWaiting(s, w, true);
    var gone := s.waiters[w].id;
    forall id | Watched(s, id) && (id != gone || !s.waiters[w].phase.Leaving?) ensures Watched(after, id) {
      StillWatched(s, after, id);
    }
  }

  lemma SameWaiters(s: State, t: State)
    requires t.waiters == s.waiters
    ensures forall id :: Watched(t, id) <==> Watched(s, id)
  {
  }

  /** A round that has a waiter to start for what it found running. */
  lemma SpawnKeepsWatching(s: State)
    requires Watching(s) && s.round.Some? && s.round.value.doing.Spawning?
    ensures Watching(ProceedRounding(s, true))
  {
    hide Watched;
    var r := s.round.value;
    var before := s.(round := Some(r.(doing := Looking)));
    SameWaiters(s, before);
    SpawnWatches(before, r.doing.id);
  }

  lemma LookKeepsWatching(s: State)
    requires Watching(s) && s.round.Some? && s.round.value.doing.Looking?
    ensures Watching(ProceedRounding(s, true))
  {
    hide Watched;
    var r, after := s.round.value, ProceedRounding(s, true);
    SameWaiters(s, after);
    if r.todo != [] {
      var c := r.todo[0];
      forall id | id in r.listed && id in s.containers ensures Watched(after, id) || Pending(after.round.value, id) {
        if !Watched(s, id) {
          var d :| d in r.todo && d.id == id;
          if d != c { assert d in r.todo[1..]; }
        }
      }
    }
  }

  lemma RoundKeepsWatching(s: State)
    requires Watching(s) && s.round.Some?
    ensures Watching(ProceedRounding(s, true))
  {
    hide Watched;
    match s.round.value.doing
    case Looking => LookKeepsWatching(s);
    case Spawning(_) => SpawnKeepsWatching(s);
    case _ => SameWaiters(s, ProceedRounding(s, true));
  }

  lemma OthersKeepWatching(s: State, e: Event)
    requires Watching(s) && !e.ProceedStart? && !e.ProceedWaiter? && !e.ProceedRound? && !e.Replaced?
    ensures Watching(Next(s, e))
  {
    hide Watched;
    SameWaiters(s, Next(s, e));
  }

  lemma NextKeepsWatching(s: State, e: Event)
    requires Watching(s) && GoesThrough(e)
    ensures Watching(Next(s, e))
  {
    hide Watched, ProceedStarting, ProceedWaiting, ProceedRounding;
    match e
    case ProceedStart(t, ok) =>
      if t in s.starting { StartKeepsWatching(s, t, ok); }
    case ProceedWaiter(w, ok) =>
      if w in s.waiters { WaiterKeepsWatching(s, w); }
    case ProceedRound(ok) =>
      if s.round.Some? { RoundKeepsWatching(s); }
    case Replaced =>
    case _ => OthersKeepWatching(s, e);
  }

  lemma {:induction false} RunKeepsWatching(events: seq<Event>)
    requires forall e :: e in events ==> GoesThrough(e)
    ensures Watching(Run(START, events))
  {
    if events == [] {
    } else {
      var front := events[..|events| - 1];
      assert forall e :: e in front ==> e in events;
      RunKeepsWatching(front);
      NextKeepsWatching(Run(START, front), events[|events| - 1]);
    }
  }

  /**
    As long as what waiters and rounds ask of the runtime goes through, and whatever starts,
    ends, hands and replaced daemons do, a round that has dealt with all it listed leaves each
    of those runs with somebody waiting for it, or gone.
  */
  lemma EveryListedRunIsWatched(events: seq<Event>)
    requires forall e :: e in events ==> GoesThrough(e)
    ensures var s := Run(START, events);
            s.round.Some? && s.round.value.todo == [] && s.round.value.doing == Looking ==>
              forall id :: id in s.round.value.listed && id in s.containers ==> Watched(s, id)
  {
    RunKeepsWatching(events);
  }
}
