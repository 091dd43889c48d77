/**
  The supervisor with everything interleaved. A critical section of `s.mu` is one step and
  so is each call to the runtime. A drift round, an apply and a deploy hold the `converge`
  lock from end to end, so at most one of them is under way; `Remove` and `Start` take no
  such lock, and any number of them may be. Around them containers end, come back and are
  taken away by hand at any moment.

  Every container hostd builds is recorded with the declarations as they stood at that moment.
*/
module Interleaving {
  import opened Options
  import opened Services
  import opened Plan
  import opened Runtime

  /** One call to the runtime, about the service of the task it belongs to. */
  datatype Step =
    | Prepare                 // ports, mounts, network, image
    | TryStop                 // a stop whose failure ends the task
    | Stop                    // a stop whose failure is ignored
    | Take                    // a removal whose failure is ignored
    | Clear                   // a removal whose failure ends the task
    | Build(start: bool)
    | Launch(id: nat)
    | Resume(id: nat)         // a start of a container that stands
    | Drop(id: nat)
    | Inspect(id: nat)
    | SetPolicy(id: nat)

  datatype Task =
    | ListForRound
    | ReadDeclarations(present: map<string, nat>)
    | ListForPlan(files: seq<Service>)
    | ReadKnown(files: seq<Service>)
    | LookUp(files: seq<Service>, known: Declarations, todo: set<string>, added: set<string>)
    | Work(svc: Service, steps: seq<Step>)
    | Declaring(svc: Service, steps: seq<Step>)
    | TakingAway(svc: Service, steps: seq<Step>)
    | Undeclaring(svc: Service, steps: seq<Step>)
    | DeclaringAll(files: seq<Service>)
    | LookForOrphan(name: string)
    | ReadForStart(name: string)
    | InspectForStart(svc: Service)

  datatype Creation = Creation(svc: Service, declared: Declarations)

  datatype State = State(
    declared: Declarations,
    plain: Containers,
    nextId: nat,
    locked: Option<seq<Task>>,
    free: map<nat, Task>,
    built: seq<Creation>)

  const RETIRE: seq<Step> := [Stop, Take]

  function CreateSteps(start: bool): seq<Step> {
    [Prepare, Clear, Build(start)]
  }

  predicate HasContainer(s: State, name: string, id: nat) {
    name in s.plain && s.plain[name].id == id
  }

  // Runtime calls -----------------------------------------------------------------

  /** What a task does after a call: the calls still to make, or nothing more at all. */
  datatype After = Then(steps: seq<Step>) | Abort

  function Perform(step: Step, svc: Service, rest: seq<Step>, ok: bool, s: State): (State, After) {
    var n := svc.name;
    match step
    case Prepare => (s, if ok then Then(rest) else Abort)
    case TryStop => if ok then (s.(plain := Stopped(s.plain, n)), Then(rest)) else (s, Abort)
    case Stop => (if ok then s.(plain := Stopped(s.plain, n)) else s, Then(rest))
    case Take => (if ok then s.(plain := Without(s.plain, n)) else s, Then(rest))
    case Clear => if ok then (s.(plain := Without(s.plain, n)), Then(rest)) else (s, Abort)
    case Build(start) =>
      if ok && n !in s.plain then
        (s.(plain := s.plain[n := Fresh(svc, s.nextId, false)], nextId := s.nextId + 1,
            built := s.built + [Creation(svc, s.declared)]),
         Then(if start then [Launch(s.nextId)] else []))
      else (s, Abort)
    case Launch(id) =>
      if ok && HasContainer(s, n, id) then (s.(plain := s.plain[n := s.plain[n].(running := true)]), Then(rest))
      else (s, Then([Drop(id)]))
    case Resume(id) =>
      (if ok && HasContainer(s, n, id) then s.(plain := s.plain[n := s.plain[n].(running := true)]) else s, Then(rest))
    case Drop(id) =>
      (if ok && HasContainer(s, n, id) then s.(plain := Without(s.plain, n)) else s, Then(rest))
    case Inspect(id) =>
      if ok && HasContainer(s, n, id) && s.plain[n].policy != RestartPolicy(svc) then (s, Then([SetPolicy(id)]))
      else (s, Then(rest))
    case SetPolicy(id) =>
      (if ok && HasContainer(s, n, id) then s.(plain := s.plain[n := s.plain[n].(policy := RestartPolicy(svc))]) else s,
       Then(rest))
  }

  // What a round and an apply set out to do -----------------------------------------

  function Present(plain: Containers): map<string, nat> {
    map n | n in plain :: plain[n].id
  }

  /** The round's decision about one service, from the list and the declaration it read. */
  function RoundTask(svc: Service, present: map<string, nat>): Task {
    Work(svc,
         if svc.IsJob() then (if svc.name in present then RETIRE else [])
         else if svc.name in present then [Inspect(present[svc.name])]
         else if svc.WantRunning() then CreateSteps(true)
         else [])
  }

  function RoundTasks(order: seq<string>, declared: Declarations, present: map<string, nat>): seq<Task>
    requires forall n :: n in order ==> n in declared
  {
    if order == [] then [] else [RoundTask(declared[order[0]], present)] + RoundTasks(order[1..], declared, present)
  }

  function InstallTask(svc: Service): Task {
    Declaring(svc, if svc.IsJob() then RETIRE else CreateSteps(svc.WantRunning()))
  }

  /** What an apply does about one name, once it has read what is known and looked the wanted names up. */
  function ApplyTask(name: string, known: Declarations, wanted: Declarations, added: set<string>): seq<Task> {
    if name in known && name !in wanted then [TakingAway(known[name], [TryStop, Take])]
    else if name in wanted && (name in added || (name in known && !SameDefinition(known[name], wanted[name]))) then
      [InstallTask(wanted[name])]
    else []
  }

  function ApplyTasks(order: seq<string>, known: Declarations, wanted: Declarations, added: set<string>): seq<Task> {
    if order == [] then []
    else ApplyTask(order[0], known, wanted, added) + ApplyTasks(order[1..], known, wanted, added)
  }

  function DeployTask(svc: Service): Task {
    Declaring(svc, RETIRE + if svc.IsJob() then [] else CreateSteps(svc.WantRunning()))
  }

  /** `order` is an arrangement of the names of `names`: Go iterates a map in any order. */
  predicate Arranges(order: seq<string>, names: set<string>) {
    (set n | n in order) == names
  }

  // Steps ----------------------------------------------------------------------------

  /** The choices of one step: whether a call goes through, and the order a map is walked in. */
  datatype Choice = Choice(ok: bool, order: seq<string>)

  /** One step of the task at the head of what is under way, and what then remains. */
  function Advance(task: Task, s: State, c: Choice): (State, seq<Task>) {
    match task
    case ListForRound =>
      (s, if c.ok then [ReadDeclarations(Present(s.plain))] else [])
    case ReadDeclarations(present) =>
      (s, if Arranges(c.order, s.declared.Keys) then RoundTasks(c.order, s.declared, present) else [task])
    case ListForPlan(files) => (s, [ReadKnown(files)])
    case ReadKnown(files) => (s, [LookUp(files, s.declared, ByName(files).Keys, {})])
    case LookUp(files, known, todo, added) =>
      if todo == {} then
        (s, if Arranges(c.order, known.Keys + ByName(files).Keys)
            then ApplyTasks(c.order, known, ByName(files), added) + [DeclaringAll(files)] else [task])
      else if c.order != [] && c.order[0] in todo then
        var n := c.order[0];
        (s, [LookUp(files, known, todo - {n}, if n in s.declared then added else added + {n})])
      else (s, [task])
    case Work(svc, steps) =>
      if steps == [] then (s, [])
      else
        var (after, then_) := Perform(steps[0], svc, steps[1..], c.ok, s);
        (after, if then_.Abort? then [] else [Work(svc, then_.steps)])
    case Declaring(svc, steps) => (s.(declared := s.declared[svc.name := svc]), [Work(svc, steps)])
    case TakingAway(svc, steps) =>
      if steps == [] then (s.(declared := s.declared - {svc.name}), [])
      else
        var (after, then_) := Perform(steps[0], svc, steps[1..], c.ok, s);
        (after, if then_.Abort? then [] else [TakingAway(svc, then_.steps)])
    case Undeclaring(svc, steps) => (s.(declared := s.declared - {svc.name}), [Work(svc, steps)])
    case DeclaringAll(files) => (s.(declared := s.declared + ByName(files)), [])
    // Whatever still goes by the name, a run of a job as well, makes it one that can be removed.
    case LookForOrphan(name) => (s, if c.ok then [Undeclaring(Bare(name), RETIRE)] else [])
    case ReadForStart(name) => (s, if name in s.declared then [InspectForStart(s.declared[name])] else [])
    case InspectForStart(svc) =>
      (s, if !c.ok then []
          else if svc.name !in s.plain then [Work(svc, CreateSteps(true))]
          else if s.plain[svc.name].running then []
          else [Work(svc, [Resume(s.plain[svc.name].id)])])
  }

  datatype Event =
    | BeginRound
    | BeginApply(files: seq<Service>)
    | BeginDeploy(svc: Service)
    | BeginRemove(thread: nat, name: string)
    | BeginStart(thread: nat, name: string)
    | Proceed(choice: Choice)
    | ProceedFree(thread: nat, choice: Choice)
    | Ends(name: string)
    | ComesBack(name: string)
    | HandRemoves(name: string)

  /** An event that cannot happen in a state leaves it as it is. */
  function Next(s: State, e: Event): State {
    match e
    case BeginRound => if s.locked.None? then s.(locked := Some([ListForRound])) else s
    case BeginApply(files) => if s.locked.None? then s.(locked := Some([ListForPlan(files)])) else s
    case BeginDeploy(svc) => if s.locked.None? then s.(locked := Some([DeployTask(svc)])) else s
    case BeginRemove(t, name) =>
      if t in s.free then s
      else if name in s.declared then s.(free := s.free[t := Undeclaring(s.declared[name], RETIRE)])
      else s.(free := s.free[t := LookForOrphan(name)])
    case BeginStart(t, name) => if t in s.free then s else s.(free := s.free[t := ReadForStart(name)])
    case Proceed(c) =>
      if s.locked.None? then s
      else if s.locked.value == [] then s.(locked := None)
      else
        var (after, tasks) := Advance(s.locked.value[0], s, c);
        after.(locked := Some(tasks + s.locked.value[1..]))
    case ProceedFree(t, c) =>
      if t !in s.free then s
      else
        var (after, tasks) := Advance(s.free[t], s, c);
        after.(free := if |tasks| == 1 then s.free[t := tasks[0]] else s.free - {t})
    case Ends(n) => s.(plain := Stopped(s.plain, n))
    case ComesBack(n) => if n in s.plain then s.(plain := s.plain[n := s.plain[n].(running := true)]) else s
    case HandRemoves(n) => s.(plain := Without(s.plain, n))
  }

  function Run(s: State, events: seq<Event>): State {
    if events == [] then s else Next(Run(s, events[..|events| - 1]), events[|events| - 1])
  }

  /** A daemon that has begun nothing yet, whatever the machine holds. */
  ghost predicate Quiet(s: State) {
    s.locked == None && s.free == map[] && s.built == [] && forall n :: n in s.declared ==> s.declared[n].name == n
  }

  // Every container is built from the declaration of that moment ----------------------

  /** The task will build a container before it declares anything itself. */
  predicate Builds(task: Task) {
    task.Work? && exists step :: step in task.steps && step.Build?
  }

  /** The task changes what is declared, or leads to tasks that do. */
  predicate Declares(task: Task) {
    task.Declaring? || task.TakingAway? || task.DeclaringAll? || task.ListForPlan? || task.ReadKnown? || task.LookUp?
  }

  /** Nothing declares `svc.name` differently; strictly, `svc` itself is declared. */
  ghost predicate Current(svc: Service, declared: Declarations, strict: bool) {
    if svc.name in declared then declared[svc.name] == svc else !strict
  }

  predicate NoBuild(steps: seq<Step>) {
    forall step :: step in steps ==> !step.Build?
  }

  /** The tasks under the lock: what builds is current, and nothing changes that before it has built. */
  ghost predicate Sane(tasks: seq<Task>, declared: Declarations, strict: bool) {
    && (forall i :: 0 <= i < |tasks| ==> SaneTask(tasks[i], declared, strict))
    && Orderly(tasks)
  }

  ghost predicate Orderly(tasks: seq<Task>) {
    forall i, j :: 0 <= i < j < |tasks| && Builds(tasks[j]) ==> !Declares(tasks[i])
  }

  ghost predicate SaneTask(task: Task, declared: Declarations, strict: bool) {
    && (Builds(task) ==> Current(task.svc, declared, strict))
    && (task.TakingAway? ==> NoBuild(task.steps))
    && !task.ReadForStart? && !task.InspectForStart? && !task.Undeclaring? && !task.LookForOrphan?
  }

  /** What a removal does outside the lock. */
  ghost predicate Removing(task: Task) {
    task.LookForOrphan? || ((task.Undeclaring? || task.Work?) && NoBuild(task.steps))
  }

  ghost predicate Keyed(declared: Declarations) {
    forall n :: n in declared ==> declared[n].name == n
  }

  /** `strict` runs have no `Remove` in them; no run here has a `Start`. */
  ghost predicate Inv(s: State, strict: bool) {
    && Keyed(s.declared)
    && (s.locked.Some? ==> Sane(s.locked.value, s.declared, strict))
    && (forall t :: t in s.free ==> Removing(s.free[t]) && !strict)
    && (forall c :: c in s.built ==> Current(c.svc, c.declared, strict))
  }

  predicate Allowed(e: Event, strict: bool) {
    !e.BeginStart? && (strict ==> !e.BeginRemove?)
  }

  /** At most one container more was built, of a current definition. */
  ghost predicate Grew(before: seq<Creation>, after: seq<Creation>, declared: Declarations, strict: bool) {
    || after == before
    || (exists svc :: Current(svc, declared, strict) && after == before + [Creation(svc, declared)])
  }

  lemma PerformIsSafe(step: Step, svc: Service, rest: seq<Step>, ok: bool, s: State, strict: bool)
    requires step.Build? ==> Current(svc, s.declared, strict)
    ensures var (after, then_) := Perform(step, svc, rest, ok, s);
            && after.declared == s.declared && after.locked == s.locked && after.free == s.free
            && Grew(s.built, after.built, s.declared, strict)
            && (then_.Then? ==> forall x :: x in then_.steps && x.Build? ==> x in rest)
            && (!step.Build? ==> after.built == s.built)
  {
  }

  lemma RoundIsSane(order: seq<string>, declared: Declarations, present: map<string, nat>, strict: bool)
    requires Keyed(declared) && forall n :: n in order ==> n in declared
    ensures forall i :: 0 <= i < |RoundTasks(order, declared, present)| ==>
              SaneTask(RoundTasks(order, declared, present)[i], declared, strict)
              && !Declares(RoundTasks(order, declared, present)[i])
  {
    if order == [] {
    } else {
      RoundIsSane(order[1..], declared, present, strict);
      assert Current(declared[order[0]], declared, strict);
    }
  }

  lemma ApplyIsSane(order: seq<string>, known: Declarations, wanted: Declarations, added: set<string>, declared: Declarations, strict: bool)
    ensures forall i :: 0 <= i < |ApplyTasks(order, known, wanted, added)| ==>
              SaneTask(ApplyTasks(order, known, wanted, added)[i], declared, strict)
              && !Builds(ApplyTasks(order, known, wanted, added)[i])
  {
    if order == [] {
    } else {
      ApplyIsSane(order[1..], known, wanted, added, declared, strict);
    }
  }

  ghost predicate AllSane(tasks: seq<Task>, declared: Declarations, strict: bool) {
    forall i :: 0 <= i < |tasks| ==> SaneTask(tasks[i], declared, strict)
  }

  /** One step of one task, seen on its own. */
  lemma AdvanceOne(task: Task, s: State, c: Choice, strict: bool)
    requires Keyed(s.declared) && SaneTask(task, s.declared, strict)
    ensures var (after, tasks) := Advance(task, s, c);
            && Keyed(after.declared) && AllSane(tasks, after.declared, strict) && Orderly(tasks)
            && after.free == s.free && after.locked == s.locked
            && Grew(s.built, after.built, s.declared, strict)
            && (!Declares(task) ==> after.declared == s.declared && forall i :: 0 <= i < |tasks| ==> !Declares(tasks[i]))
  {
    match task
    case ReadDeclarations(present) =>
      if Arranges(c.order, s.declared.Keys) {
        assert forall n :: n in c.order ==> n in (set m | m in c.order);
        RoundIsSane(c.order, s.declared, present, strict);
      }
    case LookUp(files, known, todo, added) => LookUpOne(task, s, c, strict);
    case Work(svc, steps) => CallOne(task, s, c, strict);
    case TakingAway(svc, steps) => CallOne(task, s, c, strict);
    case _ =>
  }

  lemma LookUpOne(task: Task, s: State, c: Choice, strict: bool)
    requires task.LookUp?
    ensures var (after, tasks) := Advance(task, s, c);
            after == s && AllSane(tasks, s.declared, strict) && Orderly(tasks)
  {
    var wanted := ByName(task.files);
    if task.todo == {} && Arranges(c.order, task.known.Keys + wanted.Keys) {
      ApplyIsSane(c.order, task.known, wanted, task.added, s.declared, strict);
      var tasks := ApplyTasks(c.order, task.known, wanted, task.added);
      assert Advance(task, s, c).1 == tasks + [DeclaringAll(task.files)];
    }
  }

  lemma CallOne(task: Task, s: State, c: Choice, strict: bool)
    requires (task.Work? || task.TakingAway?) && Keyed(s.declared) && SaneTask(task, s.declared, strict)
    ensures var (after, tasks) := Advance(task, s, c);
            && Keyed(after.declared) && AllSane(tasks, after.declared, strict) && Orderly(tasks)
            && after.free == s.free && after.locked == s.locked
            && Grew(s.built, after.built, s.declared, strict)
            && (!Declares(task) ==> after.declared == s.declared && forall i :: 0 <= i < |tasks| ==> !Declares(tasks[i]))
  {
    if task.steps != [] {
      PerformIsSafe(task.steps[0], task.svc, task.steps[1..], c.ok, s, strict);
    }
  }

  lemma Splice(task: Task, tasks: seq<Task>, rest: seq<Task>, before: Declarations, after: Declarations, strict: bool)
    requires Sane([task] + rest, before, strict)
    requires AllSane(tasks, after, strict) && Orderly(tasks)
    requires !Declares(task) ==> after == before && forall i :: 0 <= i < |tasks| ==> !Declares(tasks[i])
    ensures Sane(tasks + rest, after, strict)
  {
    var all, now := [task] + rest, tasks + rest;
    assert forall i :: 0 <= i < |rest| ==> rest[i] == all[i + 1];
    assert Declares(task) ==> forall i :: 0 <= i < |rest| ==> !Builds(rest[i]) by {
      assert all[0] == task;
    }
    forall i | 0 <= i < |now| ensures SaneTask(now[i], after, strict) {
      if i >= |tasks| {
        assert now[i] == rest[i - |tasks|] == all[i - |tasks| + 1];
        assert SaneTask(all[i - |tasks| + 1], before, strict);
      }
    }
    forall i, j | 0 <= i < j < |now| && Builds(now[j]) ensures !Declares(now[i]) {
      if j >= |tasks| {
        assert now[j] == rest[j - |tasks|] == all[j - |tasks| + 1];
        if i >= |tasks| {
          assert now[i] == all[i - |tasks| + 1];
        }
      }
    }
  }

  /** Taking a declaration away leaves what is current current, unless the run is strict. */
  lemma UndeclareKeepsSane(tasks: seq<Task>, declared: Declarations, name: string)
    requires Sane(tasks, declared, false)
    ensures Sane(tasks, declared - {name}, false)
  {
    forall i | 0 <= i < |tasks| ensures SaneTask(tasks[i], declared - {name}, false) {
      assert SaneTask(tasks[i], declared, false);
    }
  }

  lemma NextKeepsInv(s: State, e: Event, strict: bool)
    requires Inv(s, strict) && Allowed(e, strict)
    ensures Inv(Next(s, e), strict)
  {
    hide Advance, Inv;
    match e
    case Proceed(c) =>
      if s.locked.Some? && s.locked.value != [] { HolderKeepsInv(s, c, strict); } else { OtherKeepsInv(s, e, strict); }
    case ProceedFree(t, c) =>
      if t in s.free {
        NoneFreeWhenStrict(s, t, strict);
        FreeKeepsInv(s, t, c);
      } else {
        OtherKeepsInv(s, e, strict);
      }
    case _ => OtherKeepsInv(s, e, strict);
  }

  lemma NoneFreeWhenStrict(s: State, t: nat, strict: bool)
    requires Inv(s, strict) && t in s.free
    ensures !strict
  {
  }

  lemma HolderKeepsInv(s: State, c: Choice, strict: bool)
    requires Inv(s, strict) && s.locked.Some? && s.locked.value != []
    ensures Inv(Next(s, Proceed(c)), strict)
  {
    hide Advance, Sane, Current;
    var task, rest := s.locked.value[0], s.locked.value[1..];
    assert s.locked.value == [task] + rest;
    FirstIsSane(s.locked.value, s.declared, strict);
    AdvanceOne(task, s, c, strict);
    var (after, tasks) := Advance(task, s, c);
    Splice(task, tasks, rest, s.declared, after.declared, strict);
  }

  lemma FirstIsSane(tasks: seq<Task>, declared: Declarations, strict: bool)
    requires tasks != [] && Sane(tasks, declared, strict)
    ensures SaneTask(tasks[0], declared, strict)
  {
  }

  lemma OtherKeepsInv(s: State, e: Event, strict: bool)
    requires Inv(s, strict) && Allowed(e, strict)
    requires e.Proceed? ==> s.locked.None? || s.locked.value == []
    requires e.ProceedFree? ==> e.thread !in s.free
    ensures Inv(Next(s, e), strict)
  {
  }

  lemma FreeKeepsInv(s: State, t: nat, c: Choice)
    requires Inv(s, false) && t in s.free
    ensures Inv(Next(s, ProceedFree(t, c)), false)
  {
    var task := s.free[t];
    assert Removing(task);
    match task
    case Work(svc, steps) =>
      if steps != [] { PerformIsSafe(steps[0], svc, steps[1..], c.ok, s, false); }
    case Undeclaring(svc, steps) =>
      if s.locked.Some? { UndeclareKeepsSane(s.locked.value, s.declared, svc.name); }
    case LookForOrphan(name) =>
  }

  lemma {:induction false} RunKeepsInv(s: State, events: seq<Event>, strict: bool)
    requires Inv(s, strict) && forall e :: e in events ==> Allowed(e, strict)
    ensures Inv(Run(s, events), strict)
  {
    if events == [] {
    } else {
      var front := events[..|events| - 1];
      assert forall e :: e in front ==> e in events;
      RunKeepsInv(s, front, strict);
      NextKeepsInv(Run(s, front), events[|events| - 1], strict);
    }
  }

  /**
    In every interleaving of rounds, applies, deploys, containers that end or come back and
    hands that remove them, every container hostd builds is built from the declaration its
    name has at that very moment.
  */
  lemma EveryBuildIsCurrent(s: State, events: seq<Event>)
    requires Quiet(s)
    requires forall e :: e in events ==> !e.BeginRemove? && !e.BeginStart?
    ensures forall c :: c in Run(s, events).built ==> c.svc.name in c.declared && c.declared[c.svc.name] == c.svc
  {
    RunKeepsInv(s, events, true);
    assert forall c :: c in Run(s, events).built ==> Current(c.svc, c.declared, true);
  }

  // What is taken away stays away ------------------------------------------------------

  /** The task may still declare `name` or build a container for it. */
  predicate Revives(task: Task, name: string) {
    match task
    case Work(svc, steps) => svc.name == name && !NoBuild(steps)
    case Undeclaring(svc, steps) => svc.name == name && !NoBuild(steps)
    case Declaring(svc, _) => svc.name == name
    case TakingAway(svc, steps) => svc.name == name && !NoBuild(steps)
    case InspectForStart(svc) => svc.name == name
    case ListForPlan(files) => name in ByName(files)
    case ReadKnown(files) => name in ByName(files)
    case LookUp(files, known, _, _) => name in ByName(files)
    case DeclaringAll(files) => name in ByName(files)
    case _ => false
  }

  /** Nothing declares `name` and nothing under way, locked or not, is about to bring it back. */
  ghost predicate Gone(s: State, name: string) {
    && Keyed(s.declared) && name !in s.declared
    && (s.locked.Some? ==> forall i :: 0 <= i < |s.locked.value| ==> !Revives(s.locked.value[i], name))
    && (forall t :: t in s.free ==> !Revives(s.free[t], name))
  }

  /** The event asks for `name` to be on this machine. */
  predicate Asks(e: Event, name: string) {
    match e
    case BeginApply(files) => name in ByName(files)
    case BeginDeploy(svc) => svc.name == name
    case _ => false
  }

  ghost predicate NoneRevive(tasks: seq<Task>, name: string) {
    forall i :: 0 <= i < |tasks| ==> !Revives(tasks[i], name)
  }

  lemma RoundRevivesNothing(order: seq<string>, declared: Declarations, present: map<string, nat>, name: string)
    requires Keyed(declared) && name !in declared && forall n :: n in order ==> n in declared
    ensures NoneRevive(RoundTasks(order, declared, present), name)
  {
    if order == [] {
    } else {
      RoundRevivesNothing(order[1..], declared, present, name);
      assert order[0] in declared;
    }
  }

  lemma ApplyRevivesNothing(order: seq<string>, known: Declarations, wanted: Declarations, added: set<string>, name: string)
    requires Keyed(wanted) && name !in wanted
    ensures NoneRevive(ApplyTasks(order, known, wanted, added), name)
  {
    if order == [] {
    } else {
      ApplyRevivesNothing(order[1..], known, wanted, added, name);
    }
  }

  /** `later` goes on from `built` and records nothing built for `name`. */
  ghost predicate BuiltOthers(built: seq<Creation>, later: seq<Creation>, name: string) {
    && |built| <= |later| && later[..|built|] == built
    && forall k :: |built| <= k < |later| ==> later[k].svc.name != name
  }

  lemma BuiltOthersChains(a: seq<Creation>, b: seq<Creation>, c: seq<Creation>, name: string)
    requires BuiltOthers(a, b, name) && BuiltOthers(b, c, name)
    ensures BuiltOthers(a, c, name)
  {
    assert c[..|a|] == c[..|b|][..|a|];
    forall k | |a| <= k < |c| ensures c[k].svc.name != name {
      if k < |b| { assert c[k] == c[..|b|][k] == b[k]; }
    }
  }

  /** What a call to the runtime can do to the container of a name that is gone. */
  lemma PerformRevivesNothing(step: Step, svc: Service, rest: seq<Step>, ok: bool, s: State, name: string)
    requires svc.name == name ==> !step.Build? && NoBuild(rest)
    ensures var (after, then_) := Perform(step, svc, rest, ok, s);
            && after.declared == s.declared && after.locked == s.locked && after.free == s.free
            && (name !in s.plain ==> name !in after.plain)
            && BuiltOthers(s.built, after.built, name)
            && (svc.name == name && then_.Then? ==> NoBuild(then_.steps))
  {
  }

  lemma AdvanceRevivesNothing(task: Task, s: State, c: Choice, name: string)
    requires Keyed(s.declared) && name !in s.declared && !Revives(task, name)
    ensures var (after, tasks) := Advance(task, s, c);
            && Keyed(after.declared) && name !in after.declared && NoneRevive(tasks, name)
            && after.locked == s.locked && after.free == s.free
            && (name !in s.plain ==> name !in after.plain)
            && BuiltOthers(s.built, after.built, name)
  {
    match task
    case ReadDeclarations(present) =>
      if Arranges(c.order, s.declared.Keys) {
        assert forall n :: n in c.order ==> n in (set m | m in c.order);
        RoundRevivesNothing(c.order, s.declared, present, name);
      }
    case LookUp(files, known, todo, added) => LookUpRevivesNothing(task, s, c, name);
    case Work(svc, steps) => CallRevivesNothing(task, s, c, name);
    case TakingAway(svc, steps) => CallRevivesNothing(task, s, c, name);
    case _ =>
  }

  lemma LookUpRevivesNothing(task: Task, s: State, c: Choice, name: string)
    requires task.LookUp? && !Revives(task, name)
    ensures NoneRevive(Advance(task, s, c).1, name) && Advance(task, s, c).0 == s
  {
    hide Arranges, ApplyTasks;
    var wanted := ByName(task.files);
    if task.todo == {} && Arranges(c.order, task.known.Keys + wanted.Keys) {
      ApplyRevivesNothing(c.order, task.known, wanted, task.added, name);
      var tasks := ApplyTasks(c.order, task.known, wanted, task.added);
      assert Advance(task, s, c).1 == tasks + [DeclaringAll(task.files)];
    }
  }

  lemma CallRevivesNothing(task: Task, s: State, c: Choice, name: string)
    requires (task.Work? || task.TakingAway?) && Keyed(s.declared) && name !in s.declared && !Revives(task, name)
    ensures var (after, tasks) := Advance(task, s, c);
            && Keyed(after.declared) && name !in after.declared && NoneRevive(tasks, name)
            && after.locked == s.locked && after.free == s.free
            && (name !in s.plain ==> name !in after.plain)
            && BuiltOthers(s.built, after.built, name)
  {
    if task.steps != [] {
      PerformRevivesNothing(task.steps[0], task.svc, task.steps[1..], c.ok, s, name);
    }
  }

  ghost predicate NothingNew(s: State, later: State, name: string) {
    && Gone(later, name)
    && (name !in s.plain ==> name !in later.plain)
    && BuiltOthers(s.built, later.built, name)
  }

  lemma NextStaysGone(s: State, e: Event, name: string)
    requires Gone(s, name) && !Asks(e, name)
    ensures NothingNew(s, Next(s, e), name)
  {
    hide Advance, Gone;
    match e
    case Proceed(c) =>
      if s.locked.Some? && s.locked.value != [] { HolderStaysGone(s, c, name); } else { OtherStaysGone(s, e, name); }
    case ProceedFree(t, c) =>
      if t in s.free { FreeStaysGone(s, t, c, name); } else { OtherStaysGone(s, e, name); }
    case _ => OtherStaysGone(s, e, name);
  }

  lemma HolderStaysGone(s: State, c: Choice, name: string)
    requires Gone(s, name) && s.locked.Some? && s.locked.value != []
    ensures NothingNew(s, Next(s, Proceed(c)), name)
  {
    hide Advance, Revives, BuiltOthers, Keyed;
    assert !Revives(s.locked.value[0], name);
    AdvanceRevivesNothing(s.locked.value[0], s, c, name);
    LockedRevivesNothing(Advance(s.locked.value[0], s, c).1, s.locked.value, name);
  }

  lemma FreeStaysGone(s: State, t: nat, c: Choice, name: string)
    requires Gone(s, name) && t in s.free
    ensures NothingNew(s, Next(s, ProceedFree(t, c)), name)
  {
    hide Advance, Revives, BuiltOthers, Keyed;
    AdvanceRevivesNothing(s.free[t], s, c, name);
  }

  lemma OtherStaysGone(s: State, e: Event, name: string)
    requires Gone(s, name) && !Asks(e, name)
    requires e.Proceed? ==> s.locked.None? || s.locked.value == []
    requires e.ProceedFree? ==> e.thread !in s.free
    ensures NothingNew(s, Next(s, e), name)
  {
  }

  lemma LockedRevivesNothing(tasks: seq<Task>, all: seq<Task>, name: string)
    requires all != [] && NoneRevive(all, name) && NoneRevive(tasks, name)
    ensures NoneRevive(tasks + all[1..], name)
  {
    var now := tasks + all[1..];
    forall i | 0 <= i < |now| ensures !Revives(now[i], name) {
      if i >= |tasks| { assert now[i] == all[i - |tasks| + 1]; }
    }
  }

  /**
    A service that is gone stays gone through every interleaving, removals and starts
    included, until an apply or a deploy asks for it: it is not declared, no container is
    built for it and none appears. A round that reads the declarations after a removal
    deleted the name is one of the actors this speaks of.
  */
  lemma {:induction false} StaysGone(s: State, events: seq<Event>, name: string)
    requires Gone(s, name) && forall e :: e in events ==> !Asks(e, name)
    ensures NothingNew(s, Run(s, events), name)
  {
    if events == [] {
    } else {
      var front := events[..|events| - 1];
      assert forall e :: e in front ==> e in events;
      StaysGone(s, front, name);
      NextStaysGone(Run(s, front), events[|events| - 1], name);
      BuiltOthersChains(s.built, Run(s, front).built, Run(s, events).built, name);
    }
  }

  // What the missing lock costs ---------------------------------------------------------

  lemma RunOneMore(s: State, events: seq<Event>, e: Event)
    ensures Run(s, events + [e]) == Next(Run(s, events), e)
  {
    assert (events + [e])[..|events|] == events;
  }

  lemma NothingRuns(s: State)
    ensures Run(s, []) == s
  {
  }

  /** A run is carried on by one event whose outcome is `there`. */
  lemma Go(s: State, events: seq<Event>, at: State, e: Event) returns (longer: seq<Event>, there: State)
    requires Run(s, events) == at
    ensures longer == events + [e] && there == Next(at, e) && Run(s, longer) == there
  {
    longer, there := events + [e], Next(at, e);
    RunOneMore(s, events, e);
  }

  const YES: Choice := Choice(true, [])

  /** Whose turn it is: the holder of the lock, with what it has yet to do, or a thread without it. */
  datatype Who = Holder(rest: seq<Task>) | Thread(t: nat)

  ghost predicate At(s: State, who: Who, task: Task) {
    match who
    case Holder(rest) => s.locked == Some([task] + rest)
    case Thread(t) => t in s.free && s.free[t] == task
  }

  function TurnWith(who: Who, c: Choice): Event {
    match who case Holder(_) => Proceed(c) case Thread(t) => ProceedFree(t, c)
  }

  function Turn(who: Who): Event {
    TurnWith(who, YES)
  }

  /** The state with `task` as what `who` does next. */
  function Facing(s: State, who: Who, task: Task): State {
    match who
    case Holder(rest) => s.(locked := Some([task] + rest))
    case Thread(t) => s.(free := s.free[t := task])
  }

  function Finished(s: State, who: Who): State {
    match who
    case Holder(rest) => s.(locked := Some(rest))
    case Thread(t) => s.(free := s.free - {t})
  }

  lemma OneTurn(start: State, events: seq<Event>, at: State, who: Who, task: Task, c: Choice)
    returns (longer: seq<Event>, there: State)
    requires Run(start, events) == at && At(at, who, task)
    requires Advance(task, at, c).0.free == at.free
    ensures Run(start, longer) == there && longer == events + [TurnWith(who, c)]
    ensures var (after, tasks) := Advance(task, at, c);
            && (|tasks| == 1 ==> there == Facing(after, who, tasks[0]))
            && (tasks == [] ==> there == Finished(after, who))
            && (who.Holder? ==> there == after.(locked := Some(tasks + who.rest)))
  {
    longer, there := Go(start, events, at, TurnWith(who, c));
    var (after, tasks) := Advance(task, at, c);
    match who
    case Holder(rest) =>
      assert ([task] + rest)[1..] == rest && [] + rest == rest;
      assert |tasks| == 1 ==> tasks == [tasks[0]];
    case Thread(t) =>
  }

  /** One call that goes through and does not end the task. */
  lemma OneCall(start: State, events: seq<Event>, at: State, who: Who, svc: Service, step: Step, steps: seq<Step>)
    returns (longer: seq<Event>, there: State)
    requires Run(start, events) == at && At(at, who, Work(svc, [step] + steps))
    requires Perform(step, svc, steps, true, at).1.Then?
    ensures Run(start, longer) == there && longer == events + [Turn(who)]
    ensures var (after, then_) := Perform(step, svc, steps, true, at);
            there == Facing(after, who, Work(svc, then_.steps))
  {
    assert ([step] + steps)[1..] == steps;
    longer, there := OneTurn(start, events, at, who, Work(svc, [step] + steps), YES);
  }

  lemma LastTurn(start: State, events: seq<Event>, at: State, who: Who, svc: Service)
    returns (longer: seq<Event>, there: State)
    requires Run(start, events) == at && At(at, who, Work(svc, []))
    ensures Run(start, longer) == there && longer == events + [Turn(who)] && there == Finished(at, who)
  {
    longer, there := OneTurn(start, events, at, who, Work(svc, []), YES);
  }

  lemma ClearRuns(start: State, events: seq<Event>, at: State, who: Who, svc: Service)
    returns (longer: seq<Event>, there: State)
    requires Run(start, events) == at && At(at, who, Work(svc, CreateSteps(true)))
    ensures Run(start, longer) == there && At(there, who, Work(svc, [Build(true)]))
    ensures there == Facing(at.(plain := Without(at.plain, svc.name)), who, Work(svc, [Build(true)]))
    ensures forall e :: e in longer ==> e in events || e == Turn(who)
  {
    hide Run, Next, Advance;
    assert CreateSteps(true) == [Prepare] + [Clear, Build(true)];
    longer, there := OneCall(start, events, at, who, svc, Prepare, [Clear, Build(true)]);
    assert [Clear, Build(true)] == [Clear] + [Build(true)];
    longer, there := OneCall(start, longer, there, who, svc, Clear, [Build(true)]);
  }

  lemma BuildRuns(start: State, events: seq<Event>, at: State, who: Who, svc: Service)
    returns (longer: seq<Event>, there: State)
    requires Run(start, events) == at && At(at, who, Work(svc, CreateSteps(true)))
    ensures Run(start, longer) == there && At(there, who, Work(svc, [Launch(at.nextId)]))
    ensures there == Facing(Built(at, svc), who, Work(svc, [Launch(at.nextId)]))
    ensures forall e :: e in longer ==> e in events || e == Turn(who)
  {
    hide Run, Next, Advance;
    longer, there := ClearRuns(start, events, at, who, svc);
    assert [Build(true)] == [Build(true)] + [];
    longer, there := OneCall(start, longer, there, who, svc, Build(true), []);
  }

  function Built(s: State, svc: Service): State {
    s.(plain := Without(s.plain, svc.name)[svc.name := Fresh(svc, s.nextId, false)],
       nextId := s.nextId + 1, built := s.built + [Creation(svc, s.declared)])
  }

  /** What is left of a machine once a container of `svc` was built and started on it. */
  function Created(s: State, svc: Service): State {
    Built(s, svc).(plain := Without(s.plain, svc.name)[svc.name := Fresh(svc, s.nextId, true)])
  }

  /** What `who` was facing does not matter to what it leaves. */
  lemma FacingIsForgotten(s: State, who: Who, task: Task, then_: Task, plain: Containers)
    ensures Facing(Facing(s, who, task).(plain := plain), who, then_) == Facing(s.(plain := plain), who, then_)
    ensures Finished(Facing(s, who, task), who) == Finished(s, who)
  {
    match who
    case Holder(_) =>
    case Thread(t) => assert s.free[t := task] - {t} == s.free - {t};
  }

  /** A build that nothing disturbs. */
  lemma CreateRuns(start: State, events: seq<Event>, at: State, who: Who, svc: Service)
    returns (longer: seq<Event>, there: State)
    requires Run(start, events) == at && At(at, who, Work(svc, CreateSteps(true)))
    ensures Run(start, longer) == there && there == Finished(Created(at, svc), who)
    ensures forall e :: e in longer ==> e in events || e == Turn(who)
  {
    hide Run, Next, Advance;
    longer, there := BuildRuns(start, events, at, who, svc);
    assert [Launch(at.nextId)] == [Launch(at.nextId)] + [];
    longer, there := OneCall(start, longer, there, who, svc, Launch(at.nextId), []);
    var done := Created(at, svc);
    assert there == Facing(done, who, Work(svc, [])) by {
      assert there.plain == done.plain;
      FacingIsForgotten(Built(at, svc), who, Work(svc, [Launch(at.nextId)]), Work(svc, []), done.plain);
    }
    longer, there := LastTurn(start, longer, there, who, svc);
    FacingIsForgotten(done, who, Work(svc, []), Work(svc, []), done.plain);
  }

  /** A removal that nothing disturbs, from the moment it has read the declaration. */
  lemma RemoveRuns(start: State, events: seq<Event>, at: State, svc: Service, t: nat)
    returns (longer: seq<Event>, there: State)
    requires Run(start, events) == at && t in at.free && at.free[t] == Undeclaring(svc, RETIRE)
    ensures Run(start, longer) == there
    ensures there == at.(declared := at.declared - {svc.name}, plain := Without(at.plain, svc.name), free := at.free - {t})
    ensures forall e :: e in longer ==> e in events || e == ProceedFree(t, YES)
  {
    hide Run, Next;
    longer, there := OneTurn(start, events, at, Thread(t), Undeclaring(svc, RETIRE), YES);
    assert RETIRE == [Stop] + [Take] && [Take] == [Take] + [];
    longer, there := OneCall(start, longer, there, Thread(t), svc, Stop, [Take]);
    longer, there := OneCall(start, longer, there, Thread(t), svc, Take, []);
    assert there.plain == Without(at.plain, svc.name);
    longer, there := LastTurn(start, longer, there, Thread(t), svc);
    assert there.free == at.free - {t};
  }

  /**
    A removal between a round's reading of the declarations and its building: the container
    is built all the same and runs on undeclared, which is what a status calls an orphan.
  */
  lemma RemovalCanLeaveAnOrphan(svc: Service) returns (events: seq<Event>, end: State)
    requires svc.WantRunning() && !svc.IsJob()
    ensures var start := State(map[svc.name := svc], map[], 0, None, map[], []);
            && Quiet(start) && Run(start, events) == end && end.locked == Some([]) && end.free == map[]
            && svc.name !in end.declared && end.plain == map[svc.name := Fresh(svc, 0, true)]
            && (forall e :: e in events ==> !e.BeginStart?)
  {
    hide Run;
    var n := svc.name;
    var start := State(map[n := svc], map[], 0, None, map[], []);
    NothingRuns(start);
    events, end := Go(start, [], start, BeginRound);
    assert [ListForRound] == [ListForRound] + [];
    events, end := OneTurn(start, events, end, Holder([]), ListForRound, YES);
    var none: map<string, nat> := map[];
    assert Present(start.plain).Keys == {};
    assert Arranges([n], start.declared.Keys);
    assert [n][1..] == [];
    assert RoundTasks([n], start.declared, none) == [RoundTask(svc, none)];
    events, end := OneTurn(start, events, end, Holder([]), ReadDeclarations(none), Choice(true, [n]));
    assert At(end, Holder([]), Work(svc, CreateSteps(true)));
    events, end := Go(start, events, end, BeginRemove(0, n));
    events, end := RemoveRuns(start, events, end, svc, 0);
    assert end.free == map[];
    events, end := CreateRuns(start, events, end, Holder([]), svc);
  }

  /** The planning of an apply of one changed service. */
  lemma PlanRuns(start: State, events: seq<Event>, at: State, was: Service, now: Service)
    returns (longer: seq<Event>, there: State)
    requires Run(start, events) == at && at.locked == None && at.declared == map[was.name := was]
    requires was.name == now.name && !SameDefinition(was, now)
    ensures Run(start, longer) == there
    ensures there == at.(locked := Some([InstallTask(now)] + [DeclaringAll([now])]))
  {
    hide Run;
    var n, known := now.name, at.declared;
    assert [now][..0] == [];
    assert ByName([now]) == map[n := now];
    assert ByName([now]).Keys == {n} && known.Keys == {n};
    longer, there := Go(start, events, at, BeginApply([now]));
    assert [ListForPlan([now])] == [ListForPlan([now])] + [];
    longer, there := OneTurn(start, longer, there, Holder([]), ListForPlan([now]), YES);
    longer, there := OneTurn(start, longer, there, Holder([]), ReadKnown([now]), YES);
    longer, there := OneTurn(start, longer, there, Holder([]), LookUp([now], known, {n}, {}), Choice(true, [n]));
    assert {n} - {n} == {};
    assert Arranges([n], known.Keys + ByName([now]).Keys);
    assert [n][1..] == [];
    assert ApplyTasks([n], known, ByName([now]), {}) == [InstallTask(now)];
    longer, there := OneTurn(start, longer, there, Holder([]), LookUp([now], known, {}, {}), Choice(true, [n]));
    assert [InstallTask(now)] + [DeclaringAll([now])] + [] == [InstallTask(now)] + [DeclaringAll([now])];
  }

  /** An apply of one changed service that nothing disturbs. */
  lemma ApplyRuns(start: State, events: seq<Event>, at: State, was: Service, now: Service)
    returns (longer: seq<Event>, there: State)
    requires Run(start, events) == at && at.locked == None && at.declared == map[was.name := was]
    requires was.name == now.name && !SameDefinition(was, now) && now.WantRunning() && !now.IsJob()
    ensures Run(start, longer) == there
    ensures there == Created(at.(declared := map[now.name := now]), now)
  {
    longer, there := PlanRuns(start, events, at, was, now);
    var rest := [DeclaringAll([now])];
    longer, there := OneTurn(start, longer, there, Holder(rest), InstallTask(now), YES);
    var declared := at.(declared := map[now.name := now]);
    assert there == declared.(locked := Some([Work(now, CreateSteps(true))] + rest));
    longer, there := CreateRuns(start, longer, there, Holder(rest), now);
    assert there == Created(declared, now).(locked := Some(rest));
    longer, there := ApplyFinishes(start, longer, there, now);
  }

  lemma ApplyFinishes(start: State, events: seq<Event>, at: State, now: Service)
    returns (longer: seq<Event>, there: State)
    requires Run(start, events) == at && at.locked == Some([DeclaringAll([now])]) && at.declared == map[now.name := now]
    ensures Run(start, longer) == there && there == at.(locked := None)
  {
    assert [DeclaringAll([now])] == [DeclaringAll([now])] + [];
    assert [now][..0] == [];
    assert at.declared + ByName([now]) == at.declared;
    longer, there := OneTurn(start, events, at, Holder([]), DeclaringAll([now]), YES);
    longer, there := Go(start, longer, there, Proceed(YES));
  }

  /** A start that has found no container and is about to build one. */
  lemma StartLooks(was: Service) returns (events: seq<Event>, end: State)
    ensures var start := State(map[was.name := was], map[], 0, None, map[], []);
            Run(start, events) == end && end == start.(free := map[0 := Work(was, CreateSteps(true))])
  {
    hide Run;
    var n := was.name;
    var start := State(map[n := was], map[], 0, None, map[], []);
    NothingRuns(start);
    events, end := Go(start, [], start, BeginStart(0, n));
    events, end := OneTurn(start, events, end, Thread(0), ReadForStart(n), YES);
    events, end := OneTurn(start, events, end, Thread(0), InspectForStart(was), YES);
    assert end == start.(free := map[0 := Work(was, CreateSteps(true))]);
  }

  /**
    A start that found no container and was then overtaken by an apply: it goes on with the
    declaration it had read, takes the apply's container away and builds the old one.
  */
  lemma StartCanUndoAnApply(was: Service, now: Service) returns (events: seq<Event>, end: State)
    requires was.name == now.name && !SameDefinition(was, now)
    requires was.WantRunning() && now.WantRunning() && !was.IsJob() && !now.IsJob()
    ensures var start := State(map[was.name := was], map[], 0, None, map[], []);
            && Quiet(start) && Run(start, events) == end && end.locked == None && end.free == map[]
            && end.declared == map[now.name := now] && end.plain == map[was.name := Fresh(was, 1, true)]
  {
    hide Run;
    var n := was.name;
    var start := State(map[n := was], map[], 0, None, map[], []);
    events, end := StartLooks(was);
    events, end := ApplyRuns(start, events, end, was, now);
    var applied := end;
    events, end := CreateRuns(start, events, applied, Thread(0), was);
    assert end == Created(applied, was).(free := applied.free - {0});
    assert end.free == map[];
    assert Without(applied.plain, n) == map[];
  }
}
