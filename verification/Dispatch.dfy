/**
  The runs of jobs beside the services (supervisor/schedule.go). The scheduler, and whoever
  asks for a run by hand, reads the declarations once and builds from what it read, without
  the lock: any number of them among the rounds, applies, deploys, removals and starts of
  `Interleaving`. They change no declaration and no service's container.
*/
module Dispatch {
  import opened Options
  import opened Services
  import opened Plan
  import I = Interleaving
  import P = Provenance

  /** The declarations as somebody read them, and how long the journal was then. */
  datatype Copy = Copy(declared: Declarations, since: nat)

  /** A run built, with the declarations of that moment, and who read what when. */
  datatype Built = Built(creation: I.Creation, maker: P.Maker)

  datatype State = State(told: P.Told, copies: map<nat, Copy>, ran: seq<Built>)

  datatype Event =
    | Besides(e: I.Event)                    // anything the supervisor does
    | Reads(thread: nat)
    | BuildsRun(thread: nat, name: string)

  predicate CanBuild(s: State, t: nat, name: string) {
    t in s.copies && name in s.copies[t].declared && s.copies[t].declared[name].IsJob()
  }

  function Next(s: State, e: Event): State {
    match e
    case Besides(e) => s.(told := P.TellNext(s.told, e))
    case Reads(t) => s.(copies := s.copies[t := Copy(s.told.now.declared, |s.told.journal|)])
    case BuildsRun(t, name) =>
      if CanBuild(s, t, name) then
        var creation := I.Creation(s.copies[t].declared[name], s.told.now.declared);
        s.(ran := s.ran + [Built(creation, P.Maker(true, s.copies[t].since, |s.told.journal|))])
      else s
  }

  function Run(start: I.State, events: seq<Event>): State {
    if events == [] then State(P.Tell(start, []), map[], []) else Next(Run(start, events[..|events| - 1]), events[|events| - 1])
  }

  /** What everybody else did. */
  function Others(events: seq<Event>): seq<I.Event> {
    if events == [] then []
    else
      var front, e := Others(events[..|events| - 1]), events[|events| - 1];
      if e.Besides? then front + [e.e] else front
  }

  /** Runs of jobs change nothing for the services: the supervisor's part is a run of its own. */
  lemma {:induction false} JobsDisturbNothing(start: I.State, events: seq<Event>)
    ensures Run(start, events).told == P.Tell(start, Others(events))
  {
    if events == [] {
    } else {
      hide P.TellNext;
      var front, e := events[..|events| - 1], events[|events| - 1];
      JobsDisturbNothing(start, front);
      if e.Besides? {
        assert (Others(front) + [e.e])[..|Others(front)|] == Others(front);
      }
    }
  }

  // What a copy still says ---------------------------------------------------------------------

  ghost predicate CopyTrue(s: State, copy: Copy) {
    && copy.since <= |s.told.journal|
    && forall n :: n in copy.declared ==>
         copy.declared[n].name == n && P.Follows(copy.declared[n], s.told.journal[copy.since..], s.told.now.declared)
  }

  ghost predicate DispatchTrue(s: State) {
    && P.TellsTrue(s.told)
    && (forall t :: t in s.copies ==> CopyTrue(s, s.copies[t]))
    && (forall b :: b in s.ran ==> b.maker.starter && P.MadeAs(b.creation, b.maker, s.told.journal))
  }

  lemma JournalGrows(t: P.Told, e: I.Event)
    ensures P.TellNext(t, e).journal == t.journal + P.NotesAt(t.now, e)
    ensures P.TellNext(t, e).now == I.Next(t.now, e)
  {
  }

  lemma CopySeesAStep(s: State, e: I.Event, copy: Copy)
    requires DispatchTrue(s) && CopyTrue(s, copy)
    ensures CopyTrue(Next(s, Besides(e)), copy)
  {
    hide P.Follows, P.TellNext, P.NotesAt, P.TellsTrue, I.Next, P.Says, P.LastNote;
    JournalGrows(s.told, e);
    var notes, more := s.told.journal[copy.since..], P.NotesAt(s.told.now, e);
    assert (s.told.journal + more)[copy.since..] == notes + more;
    forall n | n in copy.declared
      ensures P.Follows(copy.declared[n], notes + more, I.Next(s.told.now, e).declared)
    {
      P.StepIsTold(s.told.now, e, n);
      P.FollowsOn(copy.declared[n], notes, more, s.told.now.declared, I.Next(s.told.now, e).declared);
    }
  }

  lemma BuiltSeesAStep(s: State, e: I.Event, b: Built)
    requires P.MadeAs(b.creation, b.maker, s.told.journal) && b.maker.starter
    ensures P.MadeAs(b.creation, b.maker, Next(s, Besides(e)).told.journal)
  {
    hide P.Follows, P.TellNext, P.NotesAt, I.Next;
    JournalGrows(s.told, e);
    var m, more := b.maker, P.NotesAt(s.told.now, e);
    assert (s.told.journal + more)[m.since..m.at] == s.told.journal[m.since..m.at];
  }

  lemma FreshCopy(s: State, copy: Copy)
    requires P.TellsTrue(s.told) && copy == Copy(s.told.now.declared, |s.told.journal|)
    ensures CopyTrue(s, copy)
  {
    assert s.told.journal[|s.told.journal|..] == [];
  }

  lemma NextDispatches(s: State, e: Event)
    requires DispatchTrue(s)
    ensures DispatchTrue(Next(s, e))
  {
    hide P.TellsTrue, P.TellNext, P.MadeAs, CopyTrue;
    match e
    case Besides(e) =>
      P.NextTellsTrue(s.told, e);
      forall t | t in s.copies ensures CopyTrue(Next(s, Besides(e)), s.copies[t]) {
        CopySeesAStep(s, e, s.copies[t]);
      }
      forall b | b in s.ran ensures P.MadeAs(b.creation, b.maker, Next(s, Besides(e)).told.journal) {
        BuiltSeesAStep(s, e, b);
      }
    case Reads(t) =>
      FreshCopy(s, Copy(s.told.now.declared, |s.told.journal|));
      SameTold(s, Next(s, e));
    case BuildsRun(t, name) =>
      if CanBuild(s, t, name) { RunIsMade(s, t, name); }
      SameTold(s, Next(s, e));
  }

  lemma SameTold(s: State, n: State)
    requires s.told == n.told
    ensures forall copy :: CopyTrue(s, copy) <==> CopyTrue(n, copy)
  {
  }

  lemma RunIsMade(s: State, t: nat, name: string)
    requires DispatchTrue(s) && CanBuild(s, t, name)
    ensures var b := Next(s, BuildsRun(t, name)).ran[|s.ran|]; b.maker.starter && P.MadeAs(b.creation, b.maker, s.told.journal)
  {
    hide P.Follows, P.TellsTrue;
    assert CopyTrue(s, s.copies[t]);
    var since := s.copies[t].since;
    assert s.told.journal[since..|s.told.journal|] == s.told.journal[since..];
  }

  lemma {:induction false} RunDispatches(start: I.State, events: seq<Event>)
    requires I.Quiet(start)
    ensures DispatchTrue(Run(start, events))
  {
    if events == [] {
      P.RunTellsTrue(start, []);
    } else {
      hide DispatchTrue, Next;
      RunDispatches(start, events[..|events| - 1]);
      NextDispatches(Run(start, events[..|events| - 1]), events[|events| - 1]);
    }
  }

  /**
    In every interleaving: a run is built from an outdated declaration exactly when the last
    thing that happened to its job between the reading and the building was to be declared
    otherwise, and for a job nothing declares exactly when that was to be taken away.
  */
  lemma RunsAreOutdatedExactlyWhen(start: I.State, events: seq<Event>, b: Built)
    requires I.Quiet(start) && b in Run(start, events).ran
    ensures var last := P.LastNote(P.Between(Run(start, events).told, b.maker), b.creation.svc.name);
            && (P.Outdated(b.creation) <==> last.Some? && last.value.now.Some? && last.value.now.value != b.creation.svc)
            && (P.Undeclared(b.creation) <==> last.Some? && last.value.now.None?)
  {
    hide Run, P.TellsTrue;
    RunDispatches(start, events);
    assert P.MadeAs(b.creation, b.maker, Run(start, events).told.journal);
  }

  lemma Go(start: I.State, events: seq<Event>, at: State, e: Event) returns (longer: seq<Event>, there: State)
    requires Run(start, events) == at
    ensures longer == events + [e] && there == Next(at, e) && Run(start, longer) == there
  {
    longer, there := events + [e], Next(at, e);
    assert longer[..|longer| - 1] == events;
  }

  lemma NothingRuns(start: I.State)
    ensures Run(start, []) == State(P.Tell(start, []), map[], []) && P.Tell(start, []) == P.Told(start, [], 0, map[], [])
  {
  }

  /** It does happen: read, removed, and run all the same. */
  lemma RemovedJobRuns(svc: Service) returns (events: seq<Event>)
    requires svc.IsJob()
    ensures var start := I.State(map[svc.name := svc], map[], 0, None, map[], []);
            && I.Quiet(start) && |Run(start, events).ran| == 1 && P.Undeclared(Run(start, events).ran[0].creation)
  {
    hide Run;
    var n := svc.name;
    var start := I.State(map[n := svc], map[], 0, None, map[], []);
    var at;
    NothingRuns(start);
    events, at := Go(start, [], Run(start, []), Reads(0));
    events, at := Go(start, events, at, Besides(I.BeginRemove(0, n)));
    assert at.told.now.free == map[0 := I.Undeclaring(svc, I.RETIRE)];
    events, at := Go(start, events, at, Besides(I.ProceedFree(0, I.Choice(true, []))));
    assert at.copies == map[0 := Copy(map[n := svc], 0)] && n !in at.told.now.declared;
    events, at := Go(start, events, at, BuildsRun(0, n));
  }
}
