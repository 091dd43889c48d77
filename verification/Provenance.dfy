/**
  Who built each container, and what became of its declaration between reading and building.
  A run of `Interleaving` is told again with a journal of every change to the declarations,
  how long the journal was when each builder read, and a line for each build.
*/
module Provenance {
  import opened Options
  import opened Services
  import opened Plan
  import opened Runtime
  import opened Interleaving

  /** A name is declared anew or taken away; `removal` if it was `Remove` that did. */
  datatype Note = Note(name: string, now: Option<Service>, removal: bool)

  /** Whether a start built it or a holder of the lock, and the journal at its reading and its building. */
  datatype Maker = Maker(starter: bool, since: nat, at: nat)

  datatype Told = Told(now: State, journal: seq<Note>, holder: nat, read: map<nat, nat>, makers: seq<Maker>)

  function NotesOfFiles(files: seq<Service>): seq<Note> {
    seq(|files|, i requires 0 <= i < |files| => Note(files[i].name, Some(files[i]), false))
  }

  /** What one step of a task does to the declarations, change by change. */
  function NotesOf(task: Task): seq<Note> {
    match task
    case Declaring(svc, _) => [Note(svc.name, Some(svc), false)]
    case TakingAway(svc, steps) => if steps == [] then [Note(svc.name, None, false)] else []
    case Undeclaring(svc, _) => [Note(svc.name, None, true)]
    case DeclaringAll(files) => NotesOfFiles(files)
    case _ => []
  }

  /** The task an event carries on. */
  function Doing(s: State, e: Event): Option<Task> {
    match e
    case Proceed(_) => if s.locked.Some? && s.locked.value != [] then Some(s.locked.value[0]) else None
    case ProceedFree(t, _) => if t in s.free then Some(s.free[t]) else None
    case _ => None
  }

  function NotesAt(s: State, e: Event): seq<Note> {
    match Doing(s, e) case None => [] case Some(task) => NotesOf(task)
  }

  function HolderNext(t: Told, e: Event, journal: seq<Note>): nat {
    match Doing(t.now, e)
    case None => t.holder
    case Some(task) => if e.Proceed? && (task.ReadDeclarations? || task.Declaring?) then |journal| else t.holder
  }

  function ReadNext(t: Told, e: Event, journal: seq<Note>): map<nat, nat> {
    if e.ProceedFree? && e.thread in t.now.free && t.now.free[e.thread].ReadForStart? then t.read[e.thread := |journal|] else t.read
  }

  function MakersNext(t: Told, e: Event): seq<Maker> {
    if |Next(t.now, e).built| <= |t.now.built| then t.makers
    else if e.ProceedFree? && e.thread in t.read then t.makers + [Maker(true, t.read[e.thread], |t.journal|)]
    else t.makers + [Maker(false, t.holder, |t.journal|)]
  }

  function TellNext(t: Told, e: Event): Told {
    var journal := t.journal + NotesAt(t.now, e);
    Told(Next(t.now, e), journal, HolderNext(t, e, journal), ReadNext(t, e, journal), MakersNext(t, e))
  }

  function Tell(s: State, events: seq<Event>): Told {
    if events == [] then Told(s, [], 0, map[], []) else TellNext(Tell(s, events[..|events| - 1]), events[|events| - 1])
  }

  /** The telling adds nothing to the run. */
  lemma {:induction false} TellingIsTheRun(s: State, events: seq<Event>)
    ensures Tell(s, events).now == Run(s, events)
  {
    if events == [] {
    } else {
      TellingIsTheRun(s, events[..|events| - 1]);
    }
  }

  // What the journal says ------------------------------------------------------------------

  function LastNote(notes: seq<Note>, name: string): Option<Note> {
    if notes == [] then None
    else if notes[|notes| - 1].name == name then Some(notes[|notes| - 1])
    else LastNote(notes[..|notes| - 1], name)
  }

  /** The last note about a name gives its declaration; without one it is as it was. */
  predicate Says(last: Option<Note>, before: Declarations, after: Declarations, name: string) {
    match last
    case None => (name in after <==> name in before) && (name in before ==> after[name] == before[name])
    case Some(note) =>
      (match note.now
       case None => name !in after
       case Some(svc) => name in after && after[name] == svc)
  }

  lemma {:induction false} FilesSay(files: seq<Service>, before: Declarations, name: string)
    ensures Says(LastNote(NotesOfFiles(files), name), before, before + ByName(files), name)
  {
    if files == [] {
    } else {
      var k := |files| - 1;
      FilesSay(files[..k], before, name);
      assert NotesOfFiles(files)[..k] == NotesOfFiles(files[..k]);
      assert NotesOfFiles(files)[k] == Note(files[k].name, Some(files[k]), false);
    }
  }

  /** Every change of the declarations is in the journal. */
  lemma NotesTell(task: Task, s: State, c: Choice, name: string)
    ensures Says(LastNote(NotesOf(task), name), s.declared, Advance(task, s, c).0.declared, name)
  {
    match task
    case DeclaringAll(files) => FilesSay(files, s.declared, name);
    case Declaring(svc, _) => assert [Note(svc.name, Some(svc), false)][..0] == [];
    case Undeclaring(svc, _) => assert [Note(svc.name, None, true)][..0] == [];
    case TakingAway(svc, _) => assert [Note(svc.name, None, false)][..0] == [];
    case _ =>
  }

  lemma {:induction false} LastOfBoth(a: seq<Note>, b: seq<Note>, name: string)
    ensures LastNote(a + b, name) == if LastNote(b, name).Some? then LastNote(b, name) else LastNote(a, name)
  {
    if b == [] {
      assert a + b == a;
    } else {
      var k := |b| - 1;
      assert (a + b)[..|a + b| - 1] == a + b[..k] && (a + b)[|a + b| - 1] == b[k];
      LastOfBoth(a, b[..k], name);
    }
  }

  /** What was read, brought up to date by the notes since. */
  predicate Follows(svc: Service, notes: seq<Note>, declared: Declarations) {
    Says(LastNote(notes, svc.name), map[svc.name := svc], declared, svc.name)
  }

  lemma FollowsOn(svc: Service, notes: seq<Note>, more: seq<Note>, declared: Declarations, after: Declarations)
    requires Follows(svc, notes, declared) && Says(LastNote(more, svc.name), declared, after, svc.name)
    ensures Follows(svc, notes + more, after)
  {
    LastOfBoth(notes, more, svc.name);
  }

  predicate Removed(notes: seq<Note>, name: string) {
    exists i :: 0 <= i < |notes| && notes[i].removal && notes[i].name == name
  }

  lemma RemovedOnce(notes: seq<Note>, more: seq<Note>, name: string)
    ensures Removed(notes + more, name) <==> Removed(notes, name) || Removed(more, name)
  {
    var all := notes + more;
    if Removed(notes, name) {
      var i :| 0 <= i < |notes| && notes[i].removal && notes[i].name == name;
      assert all[i] == notes[i];
    }
    if Removed(more, name) {
      var i :| 0 <= i < |more| && more[i].removal && more[i].name == name;
      assert all[|notes| + i] == more[i];
    }
    if Removed(all, name) {
      var i :| 0 <= i < |all| && all[i].removal && all[i].name == name;
      assert i < |notes| ==> notes[i] == all[i];
      assert i >= |notes| ==> more[i - |notes|] == all[i];
    }
  }

  // Who may build ------------------------------------------------------------------------------

  /** A holder's build to come: what it read is declared still, unless a removal took the name since. */
  predicate HolderReads(svc: Service, notes: seq<Note>, declared: Declarations) {
    if svc.name in declared then declared[svc.name] == svc && !Removed(notes, svc.name) else Removed(notes, svc.name)
  }

  predicate ReadsTrue(task: Task, notes: seq<Note>, declared: Declarations) {
    Builds(task) ==> HolderReads(task.svc, notes, declared)
  }

  predicate Reading(task: Task) {
    task.ListForRound? || task.ReadDeclarations?
  }

  ghost predicate HolderTrue(t: Told) {
    && t.holder <= |t.journal|
    && (t.now.locked.Some? ==>
          var tasks := t.now.locked.value;
          && Sane(tasks, t.now.declared, false)
          && (forall x :: x in tasks ==> ReadsTrue(x, t.journal[t.holder..], t.now.declared))
          && (forall x :: x in tasks && Reading(x) ==> |tasks| == 1))
  }

  /** A start that has read and may still build. */
  predicate Starts(task: Task) {
    task.InspectForStart? || Builds(task)
  }

  predicate Unlocked(task: Task) {
    || task.ReadForStart? || task.InspectForStart? || task.LookForOrphan? || task.Work?
    || (task.Undeclaring? && NoBuild(task.steps))
  }

  predicate StarterTrue(t: Told, u: nat)
    requires u in t.now.free
  {
    var task := t.now.free[u];
    Unlocked(task)
    && (Starts(task) ==> u in t.read && t.read[u] <= |t.journal| && Follows(task.svc, t.journal[t.read[u]..], t.now.declared))
  }

  ghost predicate StartersTrue(t: Told) {
    forall u :: u in t.now.free ==> StarterTrue(t, u)
  }

  /** The line of a build agrees with the journal between its reading and its building. */
  predicate MadeAs(c: Creation, m: Maker, journal: seq<Note>) {
    && m.since <= m.at <= |journal|
    && if m.starter then Follows(c.svc, journal[m.since..m.at], c.declared)
       else HolderReads(c.svc, journal[m.since..m.at], c.declared)
  }

  ghost predicate MakersTrue(t: Told) {
    |t.makers| == |t.now.built| && forall k :: 0 <= k < |t.makers| ==> MadeAs(t.now.built[k], t.makers[k], t.journal)
  }

  ghost predicate TellsTrue(t: Told) {
    Keyed(t.now.declared) && HolderTrue(t) && StartersTrue(t) && MakersTrue(t)
  }

  lemma NothingSaid(declared: Declarations, name: string)
    ensures Says(LastNote([], name), declared, declared, name) && !Removed([], name)
  {
  }

  /** The builds that a holder's step leaves to do, and where they come from. */
  lemma NewBuilders(task: Task, s: State, c: Choice, x: Task)
    requires Keyed(s.declared) && SaneTask(task, s.declared, false) && x in Advance(task, s, c).1 && Builds(x)
    ensures || (task.ReadDeclarations? && x.svc.name in s.declared && s.declared[x.svc.name] == x.svc)
            || (task.Declaring? && x.svc == task.svc)
            || (task.Work? && x.svc == task.svc && Builds(task))
  {
    match task
    case ReadDeclarations(present) =>
      if Arranges(c.order, s.declared.Keys) {
        assert forall n :: n in c.order ==> n in (set m | m in c.order);
        RoundReadsWhatIsDeclared(c.order, s.declared, present, x);
      }
    case LookUp(files, known, todo, added) =>
      if todo == {} && Arranges(c.order, known.Keys + ByName(files).Keys) {
        ApplyIsSane(c.order, known, ByName(files), added, s.declared, false);
        var tasks := ApplyTasks(c.order, known, ByName(files), added);
        assert Advance(task, s, c).1 == tasks + [DeclaringAll(files)];
        forall y | y in tasks ensures !Builds(y) {
          var i :| 0 <= i < |tasks| && tasks[i] == y;
        }
      }
    case Work(svc, steps) =>
      if steps != [] { PerformKeepsBuilds(steps[0], svc, steps[1..], c.ok, s); }
    case TakingAway(svc, steps) =>
    case _ =>
  }

  lemma {:induction false} RoundReadsWhatIsDeclared(order: seq<string>, declared: Declarations, present: map<string, nat>, x: Task)
    requires Keyed(declared) && (forall n :: n in order ==> n in declared) && x in RoundTasks(order, declared, present) && Builds(x)
    ensures x.svc.name in declared && declared[x.svc.name] == x.svc
  {
    if order == [] {
    } else if x == RoundTask(declared[order[0]], present) {
    } else {
      RoundReadsWhatIsDeclared(order[1..], declared, present, x);
    }
  }

  lemma PerformKeepsBuilds(step: Step, svc: Service, rest: seq<Step>, ok: bool, s: State)
    ensures var (after, then_) := Perform(step, svc, rest, ok, s);
            && (then_.Then? ==> forall x :: x in then_.steps && x.Build? ==> x in rest)
            && (after.built == s.built || (step.Build? && after.built == s.built + [Creation(svc, s.declared)]))
  {
  }

  // The telling stays true ------------------------------------------------------------------

  /** A holder's build to come, after a step of somebody else or of a task that declares nothing. */
  lemma HolderReadsOn(svc: Service, notes: seq<Note>, declared: Declarations, more: seq<Note>, after: Declarations)
    requires HolderReads(svc, notes, declared) && Says(LastNote(more, svc.name), declared, after, svc.name)
    requires more == [] || (|more| == 1 && more[0].removal && more[0].now == None)
    ensures HolderReads(svc, notes + more, after)
  {
    RemovedOnce(notes, more, svc.name);
    if more == [] {
    } else {
      assert more[..0] == [];
      assert more[0].name == svc.name ==> Removed(more, svc.name);
    }
  }

  lemma JournalGrows(journal: seq<Note>, more: seq<Note>, from: nat)
    requires from <= |journal|
    ensures (journal + more)[from..] == journal[from..] + more
  {
  }

  /** A step without the lock, as the holder sees it. */
  lemma HolderSeesAFreeStep(t: Told, e: Event)
    requires TellsTrue(t) && e.ProceedFree? && e.thread in t.now.free
    ensures HolderTrue(TellNext(t, e))
  {
    hide Follows, MadeAs, HolderReads, Says, Sane, SaneTask;
    var s, task := t.now, t.now.free[e.thread];
    var n, more := TellNext(t, e), NotesOf(t.now.free[e.thread]);
    FreeStepIsSmall(s, e);
    if s.locked.Some? {
      var tasks := s.locked.value;
      if task.Undeclaring? { UndeclareKeepsSane(tasks, s.declared, task.svc.name); }
      JournalGrows(t.journal, more, t.holder);
      forall x | x in tasks ensures ReadsTrue(x, n.journal[n.holder..], n.now.declared) {
        if Builds(x) {
          NotesTell(task, s, e.choice, x.svc.name);
          HolderReadsOn(x.svc, t.journal[t.holder..], s.declared, more, n.now.declared);
        }
      }
    }
  }

  lemma FreeStepIsSmall(s: State, e: Event)
    requires e.ProceedFree? && e.thread in s.free && Unlocked(s.free[e.thread])
    ensures var task, n := s.free[e.thread], Next(s, e);
            && n.locked == s.locked && n.declared == Advance(task, s, e.choice).0.declared
            && n.declared == (if task.Undeclaring? then s.declared - {task.svc.name} else s.declared)
            && (NotesOf(task) == [] || (|NotesOf(task)| == 1 && NotesOf(task)[0].removal && NotesOf(task)[0].now == None))
  {
  }

  /** A step of the holder itself. */
  lemma HolderSeesItsOwnStep(t: Told, e: Event)
    requires TellsTrue(t) && e.Proceed? && t.now.locked.Some? && t.now.locked.value != []
    ensures HolderTrue(TellNext(t, e)) && Keyed(TellNext(t, e).now.declared)
  {
    hide Follows, MadeAs, Says, Sane, SaneTask, LastNote, Removed, Builds, Declares, ReadsTrue, HolderReads, Orderly, AllSane;
    var s, all, n := t.now, t.now.locked.value, TellNext(t, e);
    var task, rest := all[0], all[1..];
    assert all == [task] + rest;
    HeadIsSane(all, s.declared);
    AdvanceOne(task, s, e.choice, false);
    var (after, tasks) := Advance(task, s, e.choice);
    Splice(task, tasks, rest, s.declared, after.declared, false);
    assert n.now.locked == Some(tasks + rest) && n.now.declared == after.declared;
    HeadLeaves(t, task, rest, e.choice);
    ReadersAreAlone(task, s, e.choice);
    assert task in all && forall x :: x in rest ==> x in all;
    assert rest != [] ==> forall x :: x in all ==> !Reading(x);
    assert forall x :: x in tasks + rest ==> x in tasks || x in rest;
  }

  /** What the step leaves to do, and what waits behind it, reads true afterwards. */
  lemma HeadLeaves(t: Told, task: Task, rest: seq<Task>, c: Choice)
    requires TellsTrue(t) && t.now.locked == Some([task] + rest)
    ensures var n := TellNext(t, Proceed(c));
            forall x :: x in Advance(task, t.now, c).1 + rest ==> ReadsTrue(x, n.journal[n.holder..], n.now.declared)
  {
    hide MadeAs, Follows, Says, HolderReads, LastNote, Removed;
    var all, n := [task] + rest, TellNext(t, Proceed(c));
    assert all[0] == task && all[1..] == rest;
    HeadIsSane(all, t.now.declared);
    forall x | x in Advance(task, t.now, c).1 + rest ensures ReadsTrue(x, n.journal[n.holder..], n.now.declared) {
      if Builds(x) {
        if x in Advance(task, t.now, c).1 {
          NewBuilders(task, t.now, c, x);
          NewBuildReads(t, task, c, x.svc);
        } else {
          var i :| 0 <= i < |rest| && rest[i] == x;
          assert all[i + 1] == x && x in all;
          BuildersWaitForNoDeclaring(all, t.now.declared, i + 1);
          assert ReadsTrue(x, t.journal[t.holder..], t.now.declared);
          OldBuildReads(t, task, c, x.svc);
        }
      }
    }
  }

  lemma HeadIsSane(tasks: seq<Task>, declared: Declarations)
    requires Sane(tasks, declared, false) && tasks != []
    ensures SaneTask(tasks[0], declared, false)
  {
  }

  /** What builds later has nothing before it that declares, and reads nothing. */
  lemma BuildersWaitForNoDeclaring(tasks: seq<Task>, declared: Declarations, i: nat)
    requires Sane(tasks, declared, false) && 0 < i < |tasks| && Builds(tasks[i])
    ensures !Declares(tasks[0]) && !tasks[0].Declaring? && !tasks[0].Undeclaring?
  {
    assert !Declares(tasks[0]);
  }

  lemma ReadersAreAlone(task: Task, s: State, c: Choice)
    ensures forall x :: x in Advance(task, s, c).1 && Reading(x) ==> Reading(task) && |Advance(task, s, c).1| == 1
  {
    match task
    case ReadDeclarations(present) =>
      if Arranges(c.order, s.declared.Keys) {
        assert forall n :: n in c.order ==> n in (set m | m in c.order);
        RoundsOnlyWork(c.order, s.declared, present);
      }
    case LookUp(files, known, todo, added) =>
      if todo == {} && Arranges(c.order, known.Keys + ByName(files).Keys) {
        AppliesReadNothing(c.order, known, ByName(files), added);
        assert Advance(task, s, c).1 == ApplyTasks(c.order, known, ByName(files), added) + [DeclaringAll(files)];
      }
    case _ =>
  }

  lemma {:induction false} RoundsOnlyWork(order: seq<string>, declared: Declarations, present: map<string, nat>)
    requires forall n :: n in order ==> n in declared
    ensures forall x :: x in RoundTasks(order, declared, present) ==> x.Work?
  {
    if order == [] {
    } else {
      RoundsOnlyWork(order[1..], declared, present);
    }
  }

  lemma {:induction false} AppliesReadNothing(order: seq<string>, known: Declarations, wanted: Declarations, added: set<string>)
    ensures forall x :: x in ApplyTasks(order, known, wanted, added) ==> !Reading(x)
  {
    if order == [] {
    } else {
      AppliesReadNothing(order[1..], known, wanted, added);
    }
  }

  /** A build the step leaves to do: read just now, or read before and still to be done. */
  lemma NewBuildReads(t: Told, task: Task, c: Choice, svc: Service)
    requires TellsTrue(t) && t.now.locked.Some? && t.now.locked.value != [] && task == t.now.locked.value[0]
    requires || (task.ReadDeclarations? && svc.name in t.now.declared && t.now.declared[svc.name] == svc)
             || (task.Declaring? && svc == task.svc)
             || (task.Work? && svc == task.svc && Builds(task))
    ensures var n := TellNext(t, Proceed(c)); HolderReads(svc, n.journal[n.holder..], n.now.declared)
  {
    hide MadeAs, Follows, Sane;
    var n := TellNext(t, Proceed(c));
    assert task in t.now.locked.value;
    if task.Work? {
      assert ReadsTrue(task, t.journal[t.holder..], t.now.declared);
      assert n.journal == t.journal && n.holder == t.holder && n.now.declared == t.now.declared by { WorkDeclaresNothing(t, c); }
    } else {
      assert n.journal[n.holder..] == [];
    }
  }

  lemma WorkDeclaresNothing(t: Told, c: Choice)
    requires t.now.locked.Some? && t.now.locked.value != [] && t.now.locked.value[0].Work?
    ensures var n := TellNext(t, Proceed(c)); n.journal == t.journal && n.holder == t.holder && n.now.declared == t.now.declared
  {
    assert t.journal + [] == t.journal;
  }

  lemma OldBuildReads(t: Told, task: Task, c: Choice, svc: Service)
    requires t.now.locked.Some? && t.now.locked.value != [] && task == t.now.locked.value[0] && t.holder <= |t.journal|
    requires HolderReads(svc, t.journal[t.holder..], t.now.declared) && !Declares(task) && !Reading(task) && !task.Undeclaring?
    ensures var n := TellNext(t, Proceed(c)); HolderReads(svc, n.journal[n.holder..], n.now.declared)
  {
    hide HolderReads;
    var n := TellNext(t, Proceed(c));
    assert t.journal + [] == t.journal;
    assert NotesOf(task) == [] && n.now.declared == t.now.declared;
  }

  /** Somebody else's step leaves a thread and what it read alone. */
  lemma OtherThreads(t: Told, e: Event, u: nat)
    requires u in TellNext(t, e).now.free && !(e.ProceedFree? && e.thread == u)
    ensures var n := TellNext(t, e);
            if u in t.now.free then n.now.free[u] == t.now.free[u] && (u in t.read ==> u in n.read && n.read[u] == t.read[u])
            else Unlocked(n.now.free[u]) && !Starts(n.now.free[u])
  {
    OnlyTheLockMoves(t.now, e);
  }

  lemma OnlyTheLockMoves(s: State, e: Event)
    ensures e.Proceed? ==> Next(s, e).free == s.free
  {
    if e.Proceed? && s.locked.Some? && s.locked.value != [] {
      StepsLeaveThreads(s.locked.value[0], s, e.choice);
    }
  }

  lemma StepsLeaveThreads(task: Task, s: State, c: Choice)
    ensures Advance(task, s, c).0.free == s.free && Advance(task, s, c).0.locked == s.locked
  {
  }

  /** A thread's own step: it may have just read, or go on with what it read. */
  lemma OwnStep(t: Told, e: Event)
    requires TellsTrue(t) && e.ProceedFree? && e.thread in t.now.free && e.thread in TellNext(t, e).now.free
    ensures var was, n := t.now.free[e.thread], TellNext(t, e);
            var task := n.now.free[e.thread];
            && Unlocked(task)
            && (Starts(task) ==>
                  || (was.ReadForStart? && e.thread in n.read && n.read[e.thread] == |n.journal|
                      && task.svc.name in n.now.declared && n.now.declared[task.svc.name] == task.svc)
                  || (Starts(was) && was.svc == task.svc && n.read == t.read))
  {
    hide Follows, MadeAs, HolderTrue, MakersTrue;
    var was := t.now.free[e.thread];
    StepsLeaveThreads(was, t.now, e.choice);
    match was
    case Work(svc, steps) =>
      if steps != [] { PerformKeepsBuilds(steps[0], svc, steps[1..], e.choice.ok, t.now); }
    case _ =>
  }

  /** A start under way, after a step of anybody. */
  lemma StarterSeesAStep(t: Told, e: Event, u: nat)
    requires TellsTrue(t) && u in TellNext(t, e).now.free
    ensures StarterTrue(TellNext(t, e), u)
  {
    hide Says, LastNote, MadeAs, HolderTrue, MakersTrue, Advance, NotesOf, Next, TellNext;
    var n := TellNext(t, e);
    if e.ProceedFree? && e.thread == u {
      ThreadsCarryOn(t, e);
      assert StarterTrue(t, u);
      OwnStep(t, e);
      if Starts(n.now.free[u]) {
        if n.read == t.read && Starts(t.now.free[u]) && t.now.free[u].svc == n.now.free[u].svc {
          StarterReadsOn(t, e, n.now.free[u].svc, t.read[u]);
        } else {
          assert n.journal[n.read[u]..] == [];
          JustRead(n.now.free[u].svc, n.now.declared);
        }
      }
    } else {
      OtherThreads(t, e, u);
      if u in t.now.free && Starts(t.now.free[u]) {
        assert StarterTrue(t, u);
        StarterReadsOn(t, e, t.now.free[u].svc, t.read[u]);
      } else if u in t.now.free {
        assert StarterTrue(t, u);
      }
    }
  }

  lemma ThreadsCarryOn(t: Told, e: Event)
    requires e.ProceedFree? && e.thread in TellNext(t, e).now.free
    ensures e.thread in t.now.free
  {
  }

  lemma JustRead(svc: Service, declared: Declarations)
    requires svc.name in declared && declared[svc.name] == svc
    ensures Follows(svc, [], declared)
  {
  }

  /** What a start read, brought up to date by whatever the step did to the declarations. */
  lemma StarterReadsOn(t: Told, e: Event, svc: Service, since: nat)
    requires since <= |t.journal| && Follows(svc, t.journal[since..], t.now.declared)
    ensures var n := TellNext(t, e); since <= |n.journal| && Follows(svc, n.journal[since..], n.now.declared)
  {
    hide Says, LastNote;
    var n, more := TellNext(t, e), NotesAt(t.now, e);
    JournalGrows(t.journal, more, since);
    StepIsTold(t.now, e, svc.name);
    FollowsOn(svc, t.journal[since..], more, t.now.declared, n.now.declared);
  }

  /** The notes of an event say what it does to the declarations. */
  lemma StepIsTold(s: State, e: Event, name: string)
    ensures Says(LastNote(NotesAt(s, e), name), s.declared, Next(s, e).declared, name)
  {
    hide LastNote, NotesOf, Advance;
    match e
    case Proceed(c) =>
      if s.locked.Some? && s.locked.value != [] { NotesTell(s.locked.value[0], s, c, name); } else { NothingSaid(s.declared, name); }
    case ProceedFree(u, c) =>
      if u in s.free { NotesTell(s.free[u], s, c, name); } else { NothingSaid(s.declared, name); }
    case _ => NothingSaid(s.declared, name);
  }

  /** The line of a build, and that it is the only news of the step. */
  lemma BuildIsTold(t: Told, e: Event)
    requires TellsTrue(t)
    ensures var s, n := t.now, Next(t.now, e);
            || n.built == s.built
            || (&& Doing(s, e).Some? && Builds(Doing(s, e).value) && n.built == s.built + [Creation(Doing(s, e).value.svc, s.declared)]
                && (e.Proceed? || e.ProceedFree?))
  {
    hide Follows, MadeAs, MakersTrue, Says, ReadsTrue, Sane;
    match e
    case Proceed(c) =>
      if t.now.locked.Some? && t.now.locked.value != [] {
        HeadIsSane(t.now.locked.value, t.now.declared);
        OnlyWorkBuilds(t.now.locked.value[0], t.now, c);
      }
    case ProceedFree(u, c) =>
      if u in t.now.free {
        assert StarterTrue(t, u);
        OnlyWorkBuilds(t.now.free[u], t.now, c);
      }
    case _ =>
  }

  lemma OnlyWorkBuilds(task: Task, s: State, c: Choice)
    requires task.TakingAway? ==> NoBuild(task.steps)
    ensures var after := Advance(task, s, c).0;
            after.built == s.built || (Builds(task) && after.built == s.built + [Creation(task.svc, s.declared)])
  {
    if (task.Work? || task.TakingAway?) && task.steps != [] {
      PerformKeepsBuilds(task.steps[0], task.svc, task.steps[1..], c.ok, s);
      assert task.steps[0] in task.steps;
    }
  }

  lemma MadeLater(c: Creation, m: Maker, journal: seq<Note>, more: seq<Note>)
    requires MadeAs(c, m, journal)
    ensures MadeAs(c, m, journal + more)
  {
    assert (journal + more)[m.since..m.at] == journal[m.since..m.at];
  }

  /** Every build so far is told as it was, and the one of this step, if any. */
  lemma MakersSeeAStep(t: Told, e: Event)
    requires TellsTrue(t)
    ensures MakersTrue(TellNext(t, e))
  {
    hide Says, Next, NotesAt, Follows, Advance, MadeAs, HolderReads;
    var n := TellNext(t, e);
    BuildIsTold(t, e);
    forall k | 0 <= k < |t.makers| ensures MadeAs(t.now.built[k], t.makers[k], n.journal) {
      MadeLater(t.now.built[k], t.makers[k], t.journal, NotesAt(t.now, e));
    }
    if n.now.built != t.now.built {
      NewBuildIsTold(t, e);
      MadeLater(n.now.built[|t.makers|], n.makers[|t.makers|], t.journal, NotesAt(t.now, e));
    }
  }

  lemma NewBuildIsTold(t: Told, e: Event)
    requires TellsTrue(t) && Next(t.now, e).built != t.now.built
    ensures var n := TellNext(t, e);
            && |n.makers| == |t.makers| + 1 == |n.now.built| && n.makers[..|t.makers|] == t.makers
            && MadeAs(n.now.built[|t.makers|], n.makers[|t.makers|], t.journal)
  {
    hide Says, Next, NotesAt, Advance, LastNote, Removed, Sane;
    BuildIsTold(t, e);
    var task := Doing(t.now, e).value;
    if e.ProceedFree? {
      assert StarterTrue(t, e.thread);
      assert t.journal[t.read[e.thread]..|t.journal|] == t.journal[t.read[e.thread]..];
    } else {
      assert task in t.now.locked.value && ReadsTrue(task, t.journal[t.holder..], t.now.declared);
      assert t.journal[t.holder..|t.journal|] == t.journal[t.holder..];
    }
  }

  lemma OthersLeaveTheHolder(t: Told, e: Event)
    requires TellsTrue(t) && Doing(t.now, e).None?
    ensures HolderTrue(TellNext(t, e)) && Keyed(TellNext(t, e).now.declared)
  {
    hide Follows, MadeAs, MakersTrue, StartersTrue, HolderReads;
    assert t.journal + [] == t.journal;
  }

  lemma FreeStepsKeepNames(t: Told, e: Event)
    requires TellsTrue(t) && e.ProceedFree? && e.thread in t.now.free
    ensures Keyed(TellNext(t, e).now.declared)
  {
    hide HolderTrue, MakersTrue, Follows;
    assert StarterTrue(t, e.thread);
    FreeStepIsSmall(t.now, e);
  }

  lemma NextTellsTrue(t: Told, e: Event)
    requires TellsTrue(t)
    ensures TellsTrue(TellNext(t, e))
  {
    hide HolderTrue, StarterTrue, MakersTrue, Keyed, Next, Advance;
    if Doing(t.now, e).None? {
      OthersLeaveTheHolder(t, e);
    } else if e.Proceed? {
      HolderSeesItsOwnStep(t, e);
    } else {
      HolderSeesAFreeStep(t, e);
      FreeStepsKeepNames(t, e);
    }
    forall u | u in TellNext(t, e).now.free ensures StarterTrue(TellNext(t, e), u) {
      StarterSeesAStep(t, e, u);
    }
    MakersSeeAStep(t, e);
  }

  lemma {:induction false} RunTellsTrue(s: State, events: seq<Event>)
    requires Quiet(s)
    ensures TellsTrue(Tell(s, events))
  {
    if events == [] {
    } else {
      hide TellsTrue, TellNext;
      RunTellsTrue(s, events[..|events| - 1]);
      NextTellsTrue(Tell(s, events[..|events| - 1]), events[|events| - 1]);
    }
  }

  // Outdated, undeclared, and why ---------------------------------------------------------------

  /** Built from another definition than the one its name had at that moment. */
  predicate Outdated(c: Creation) {
    c.svc.name in c.declared && c.declared[c.svc.name] != c.svc
  }

  predicate Undeclared(c: Creation) {
    c.svc.name !in c.declared
  }

  /** What happened to the declarations between a builder's reading and its building. */
  function Between(t: Told, m: Maker): seq<Note> {
    if m.since <= m.at <= |t.journal| then t.journal[m.since..m.at] else []
  }

  /** Every container built has its line, and every change to a declaration is in the journal. */
  lemma {:induction false} EverythingIsTold(s: State, events: seq<Event>, name: string)
    requires Quiet(s)
    ensures var t := Tell(s, events);
            && t.now == Run(s, events) && |t.makers| == |t.now.built|
            && (forall k :: 0 <= k < |t.makers| ==> t.makers[k].since <= t.makers[k].at <= |t.journal|)
            && Says(LastNote(t.journal, name), s.declared, t.now.declared, name)
  {
    TellingIsTheRun(s, events);
    RunTellsTrue(s, events);
    var t := Tell(s, events);
    assert forall k :: 0 <= k < |t.makers| ==> MadeAs(t.now.built[k], t.makers[k], t.journal);
    if events == [] {
    } else {
      hide Says, LastNote, NotesAt, Next, TellsTrue;
      var before, e := Tell(s, events[..|events| - 1]), events[|events| - 1];
      EverythingIsTold(s, events[..|events| - 1], name);
      StepIsTold(before.now, e, name);
      LastOfBoth(before.journal, NotesAt(before.now, e), name);
      SaysOn(LastNote(before.journal, name), LastNote(NotesAt(before.now, e), name), s.declared, before.now.declared, t.now.declared, name);
    }
  }

  lemma SaysOn(first: Option<Note>, second: Option<Note>, a: Declarations, b: Declarations, c: Declarations, name: string)
    requires Says(first, a, b, name) && Says(second, b, c, name)
    ensures Says(if second.Some? then second else first, a, c, name)
  {
  }

  /**
    In every interleaving, removals and starts included: what a start builds is outdated
    exactly when the last thing that happened to its name between its reading and its
    building was to be declared otherwise, and undeclared exactly when that was to be taken
    away.
  */
  lemma StartBuildsOutdatedExactlyWhen(s: State, events: seq<Event>, k: nat)
    requires Quiet(s) && k < |Tell(s, events).makers| && Tell(s, events).makers[k].starter
    ensures var t, built := Tell(s, events), Run(s, events).built;
            && k < |built|
            && var c, last := built[k], LastNote(Between(t, t.makers[k]), built[k].svc.name);
               && (Outdated(c) <==> last.Some? && last.value.now.Some? && last.value.now.value != c.svc)
               && (Undeclared(c) <==> last.Some? && last.value.now.None?)
  {
    hide Tell, Run;
    TellingIsTheRun(s, events);
    RunTellsTrue(s, events);
    var t := Tell(s, events);
    assert MadeAs(t.now.built[k], t.makers[k], t.journal);
  }

  /**
    In every interleaving, removals and starts included: what a round, an apply or a deploy
    builds is never outdated, and is undeclared exactly when a removal took the name since
    the holder of the lock had read or declared it.
  */
  lemma LockHoldersBuildNothingOutdated(s: State, events: seq<Event>, k: nat)
    requires Quiet(s) && k < |Tell(s, events).makers| && !Tell(s, events).makers[k].starter
    ensures var t, built := Tell(s, events), Run(s, events).built;
            && k < |built| && !Outdated(built[k])
            && (Undeclared(built[k]) <==> Removed(Between(t, t.makers[k]), built[k].svc.name))
  {
    hide Tell, Run;
    TellingIsTheRun(s, events);
    RunTellsTrue(s, events);
    var t := Tell(s, events);
    assert MadeAs(t.now.built[k], t.makers[k], t.journal);
  }
}
