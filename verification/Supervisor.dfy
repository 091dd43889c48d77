/**
  The supervisor (supervisor/supervisor.go, commands.go, container.go) as one caller at a
  time sees it: the drift round, an apply, a deploy and a removal, over a runtime whose
  calls may fail. What changes when they interleave is the subject of `Interleaving`.
*/
module Supervisor {
  import opened Options
  import opened Services
  import opened Plan
  import opened Runtime
  import Ordering

  // What one operation may leave of one container ---------------------------------

  /** The container is there and not running, or it is gone, or nothing could be done. */
  ghost predicate TakenDown(before: Containers, after: Containers, name: string) {
    || after == before
    || after == Stopped(before, name)
    || after == Without(before, name)
  }

  /** `create`: either the container asked for, or what a failure on the way leaves. */
  ghost predicate Recreated(before: Containers, after: Containers, svc: Service, start: bool, id: nat, ok: bool) {
    if ok then after == before[svc.name := Fresh(svc, id, start)]
    else
      || after == before
      || after == Without(before, svc.name)
      || (start && after == before[svc.name := Fresh(svc, id, false)])
  }

  // The drift round ------------------------------------------------------------------

  /** What the round finds nothing to do about. */
  ghost predicate SettledFor(svc: Service, plain: Containers) {
    if svc.IsJob() then svc.name !in plain
    else if svc.name in plain then plain[svc.name].policy == RestartPolicy(svc)
    else !svc.WantRunning()
  }

  ghost predicate Settled(declared: Declarations, plain: Containers) {
    forall n :: n in declared ==> SettledFor(declared[n], plain)
  }

  ghost predicate Keyed(declared: Declarations) {
    forall n :: n in declared ==> declared[n].name == n
  }

  /** What a round may do to the container of one service: replace none, invent none. */
  ghost predicate RoundOn(svc: Service, before: Containers, after: Containers, from: nat) {
    var n := svc.name;
    if svc.IsJob() then
      n in after ==> n in before && (after[n] == before[n] || after[n] == before[n].(running := false))
    else if n in before then
      n in after && (after[n] == before[n] || after[n] == before[n].(policy := RestartPolicy(svc)))
    else
      n in after ==> svc.WantRunning() && after[n].built == svc && after[n].id >= from && after[n].policy == RestartPolicy(svc)
  }

  ghost predicate Untouched(n: string, before: Containers, after: Containers) {
    (n in after <==> n in before) && (n in before ==> after[n] == before[n])
  }

  // An apply --------------------------------------------------------------------------

  /** What carrying out the change of one service leaves, in the declarations and in the runtime. */
  ghost predicate Carried(n: string, known: Declarations, before: Containers, wanted: Declarations,
                          declared: Declarations, after: Containers, stuck: bool, failed: bool, from: nat)
  {
    if n !in wanted then
      if stuck then n in known && n in declared && declared[n] == known[n] && Untouched(n, before, after)
      else n !in declared && (n in after ==> n in before && after[n] == before[n].(running := false))
    else
      && n in declared && declared[n] == wanted[n] && !stuck
      && if wanted[n].IsJob() then
           n in after ==> n in before && (after[n] == before[n] || after[n] == before[n].(running := false))
         else if failed then
           n in after ==>
             ((n in before && after[n] == before[n]) || (after[n].built == wanted[n] && !after[n].running && after[n].id >= from))
         else
           n in after && after[n] == Fresh(wanted[n], after[n].id, wanted[n].WantRunning()) && after[n].id >= from
  }

  /** One change carried out and nothing else touched. */
  ghost predicate OneCarried(name: string, known: Declarations, before: Containers, wanted: Declarations,
                             declared: Declarations, after: Containers, stuck: bool, failed: bool, from: nat)
  {
    && (forall n :: n != name ==> Same(n, known, declared) && Untouched(n, before, after))
    && Carried(name, known, before, wanted, declared, after, stuck, failed, from)
  }

  ghost predicate Same(n: string, known: Declarations, declared: Declarations) {
    (n in declared <==> n in known) && (n in known ==> declared[n] == known[n])
  }

  /** Every container is built the way its service is declared; jobs have none to speak of. */
  ghost predicate FaithfulFor(n: string, declared: Declarations, plain: Containers) {
    n in declared && n in plain && !declared[n].IsJob() ==> SameDefinition(plain[n].built, declared[n])
  }

  lemma OneMore(m: Declarations, services: seq<Service>, i: nat)
    requires i < |services|
    ensures m + ByName(services[..i + 1]) == (m + ByName(services[..i]))[services[i].name := services[i]]
  {
    assert services[..i + 1][..i] == services[..i];
  }

  /** How a command ended. The flag of `Done` says whether it moved anything. */
  datatype Outcome = Done(changed: bool) | Unknown | NoRuntime | Failed

  /** One line of a status: a name, and whether no file declares it. */
  datatype Line = Line(name: string, orphan: bool)

  function LineOf(name: string, declared: Declarations): Line {
    Line(name, name !in declared)
  }

  /** The services with a container of their own; runs of a job do not stand in for one. */
  function Plain(found: seq<Held>): (names: set<string>)
    ensures forall n :: n in names <==> exists h :: h in found && h.run == "" && h.service == n
  {
    set h | h in found && h.run == "" :: h.service
  }

  lemma PlainIsPresent(found: seq<Held>, plain: Containers, runs: map<nat, RunContainer>)
    requires IsListing(found, plain, runs)
    ensures forall n :: n in Plain(found) <==> n in plain
  {
    forall n | n in plain ensures n in Plain(found) {
      assert Held(plain[n].id, n, "", plain[n].running) in found;
    }
  }

  /** A round that has yet to look at the services of `todo`. */
  ghost predicate RoundSoFar(declared: Declarations, todo: set<string>, before: Containers, now: Containers, from: nat) {
    && (forall n :: n in todo || n !in declared ==> Untouched(n, before, now))
    && (forall n :: n in declared && n !in todo ==> RoundOn(declared[n], before, now, from))
  }

  /** The same when every call went through. */
  ghost predicate WellSoFar(declared: Declarations, todo: set<string>, before: Containers, now: Containers) {
    && (forall n :: n in declared && n !in todo ==> SettledFor(declared[n], now))
    && (forall n :: n in now && n !in before ==> now[n].running)
  }

  lemma RoundStep(declared: Declarations, todo: set<string>, name: string,
                  before: Containers, mid: Containers, after: Containers, from: nat, later: nat, ok: bool)
    requires Keyed(declared) && name in todo && todo <= declared.Keys && from <= later
    requires RoundSoFar(declared, todo, before, mid, from)
    requires forall n :: n != name ==> Untouched(n, mid, after)
    requires RoundOn(declared[name], mid, after, later)
    requires ok ==> WellSoFar(declared, todo, before, mid) && SettledFor(declared[name], after)
    requires ok ==> name in after && name !in mid ==> after[name].running
    ensures RoundSoFar(declared, todo - {name}, before, after, from)
    ensures ok ==> WellSoFar(declared, todo - {name}, before, after)
  {
    assert Untouched(name, before, mid);
    forall n | n in todo - {name} || n !in declared ensures Untouched(n, before, after) {
      assert Untouched(n, before, mid) && Untouched(n, mid, after);
    }
    forall n | n in declared && n !in todo - {name} ensures RoundOn(declared[n], before, after, from) {
      if n != name {
        assert RoundOn(declared[n], before, mid, from) && Untouched(n, mid, after);
      }
    }
    if ok {
      forall n | n in declared && n !in todo - {name} ensures SettledFor(declared[n], after) {
        if n != name {
          assert SettledFor(declared[n], mid) && Untouched(n, mid, after);
        }
      }
      forall n | n in after && n !in before ensures after[n].running {
        if n != name {
          assert Untouched(n, mid, after);
        }
      }
    }
  }

  /** The steps of a create, and what each leaves of the machine. */
  lemma CreateLeaves(plain: Containers, svc: Service, id: nat)
    requires Sound(plain, id)
    ensures var gone, built, runs := Without(plain, svc.name), Fresh(svc, id, false), Fresh(svc, id, true);
            && Sound(gone, id) && svc.name !in gone && Sound(gone, id + 1)
            && gone[svc.name := built] == plain[svc.name := built] && Sound(plain[svc.name := built], id + 1)
            && built.(running := true) == runs
            && plain[svc.name := built][svc.name := runs] == plain[svc.name := runs] && Sound(plain[svc.name := runs], id + 1)
            && Without(plain[svc.name := built], svc.name) == gone
  {
  }

  lemma TakenDownLeaves(before: Containers, after: Containers, name: string)
    requires TakenDown(before, after, name)
    ensures forall n :: n != name ==> Untouched(n, before, after)
  {
  }

  /** A container taken down, and then the create of another. */
  lemma DeployLeaves(before: Containers, cleared: Containers, after: Containers, svc: Service, id: nat, ok: bool)
    requires TakenDown(before, cleared, svc.name) && Recreated(cleared, after, svc, svc.WantRunning(), id, ok)
    ensures forall n :: n != svc.name ==> Untouched(n, before, after)
    ensures ok ==> svc.name in after && after[svc.name] == Fresh(svc, id, svc.WantRunning())
    ensures !ok && svc.name in after ==>
              !after[svc.name].running || (svc.name in before && after[svc.name] == before[svc.name])
  {
  }

  lemma RoundBegins(declared: Declarations, plain: Containers, from: nat)
    requires Keyed(declared)
    ensures RoundSoFar(declared, declared.Keys, plain, plain, from) && WellSoFar(declared, declared.Keys, plain, plain)
    ensures forall n :: n in declared ==> RoundOn(declared[n], plain, plain, from)
    ensures forall n :: Untouched(n, plain, plain)
  {
  }

  /** A service the round has yet to look at is as it was. */
  lemma StillToCome(declared: Declarations, todo: set<string>, name: string, before: Containers, now: Containers, from: nat)
    requires Keyed(declared) && name in todo && todo <= declared.Keys && RoundSoFar(declared, todo, before, now, from)
    ensures declared[name].name == name && (name in before <==> name in now)
    ensures Settled(declared, before) ==> SettledFor(declared[name], now)
  {
    assert Untouched(name, before, now);
    assert Settled(declared, before) ==> SettledFor(declared[name], before);
  }

  lemma RoundEnds(declared: Declarations, before: Containers, now: Containers, from: nat, ok: bool)
    requires Keyed(declared) && RoundSoFar(declared, {}, before, now, from) && (ok ==> WellSoFar(declared, {}, before, now))
    ensures forall n :: n in declared ==> RoundOn(declared[n], before, now, from)
    ensures forall n :: n !in declared ==> Untouched(n, before, now)
    ensures forall n :: FaithfulFor(n, declared, before) ==> FaithfulFor(n, declared, now)
    ensures ok ==> Settled(declared, now) && forall n :: n in now && n !in before ==> now[n].running
  {
    forall n | FaithfulFor(n, declared, before) ensures FaithfulFor(n, declared, now) {
      if n in declared { assert RoundOn(declared[n], before, now, from); }
    }
  }

  class Supervisor {
    var runtime: Client?
    var declared: Declarations

    ghost predicate Valid()
      reads this, runtime
    {
      Keyed(declared) && (runtime != null ==> Sound(runtime.plain, runtime.nextId))
    }

    constructor (runtime: Client?)
      requires runtime != null ==> Sound(runtime.plain, runtime.nextId)
      ensures Valid() && this.runtime == runtime && declared == map[]
    {
      this.runtime, declared := runtime, map[];
    }

    method DeclareAll(services: seq<Service>)
      requires Valid()
      modifies `declared
      ensures Valid() && declared == old(declared) + ByName(services)
    {
      assert declared + ByName(services[..0]) == declared;
      for i := 0 to |services|
        invariant declared == old(declared) + ByName(services[..i])
        invariant Keyed(declared)
      {
        OneMore(old(declared), services, i);
        declared := declared[services[i].name := services[i]];
      }
      assert services[..|services|] == services;
    }

    /** Merges the files into the declarations, touches no container, and reports who runs undeclared. */
    method Adopt(services: seq<Service>) returns (ok: bool, orphans: set<string>)
      requires Valid()
      modifies `declared
      ensures Valid() && declared == old(declared) + ByName(services)
      ensures forall n :: n in orphans ==> n !in declared
      ensures ok && runtime != null ==>
        forall n :: n in runtime.plain && n !in declared && runtime.plain[n].running ==> n in orphans
    {
      DeclareAll(services);
      ok, orphans := true, {};
      if runtime == null { return; }
      var found;
      ok, found := runtime.List();
      orphans := set h | h in found && h.running && h.service !in declared :: h.service;
      if ok {
        forall n | n in runtime.plain && n !in declared && runtime.plain[n].running ensures n in orphans {
          assert Held(runtime.plain[n].id, n, "", true) in found;
        }
      }
    }

    method Create(svc: Service, start: bool) returns (ok: bool)
      requires Valid()
      modifies runtime
      ensures Valid() && runtime == old(runtime)
      ensures runtime == null ==> !ok
      ensures runtime != null ==>
        && Recreated(old(runtime.plain), runtime.plain, svc, start, old(runtime.nextId), ok)
        && runtime.nextId >= old(runtime.nextId) && runtime.runs == old(runtime.runs)
    {
      hide Keyed, Sound, Without, Stopped, Fresh;
      if runtime == null { return false; }
      CreateLeaves(runtime.plain, svc, runtime.nextId);
      ok := runtime.Prepare();
      if !ok { return; }
      // Whatever stands under the name makes room first.
      ok := runtime.Remove(svc.name);
      if !ok { return; }
      ok := runtime.Create(svc);
      if !ok || !start { return; }
      ok := runtime.Start(svc.name);
      if !ok {
        // What would not start is cleared away; if that fails too, it stays behind stopped.
        var _ := runtime.Remove(svc.name);
      }
    }

    /** Answers whether both calls went through; the program ignores it. */
    method Retire(svc: Service) returns (ok: bool)
      requires Valid()
      modifies runtime
      ensures Valid()
      ensures runtime == null ==> !ok
      ensures runtime != null ==>
        && TakenDown(old(runtime.plain), runtime.plain, svc.name)
        && (ok ==> runtime.plain == Without(old(runtime.plain), svc.name))
        && runtime.nextId == old(runtime.nextId) && runtime.runs == old(runtime.runs)
    {
      if runtime == null { return false; }
      var stopped := runtime.Stop(svc.name);
      var removed := runtime.Remove(svc.name);
      ok := stopped && removed;
    }

    method ConvergePolicy(svc: Service) returns (ok: bool)
      requires Valid() && runtime != null && svc.name in runtime.plain
      modifies runtime
      ensures Valid()
      ensures var was := old(runtime.plain)[svc.name];
              && runtime.plain == old(runtime.plain)[svc.name := if ok then was.(policy := RestartPolicy(svc)) else was]
              && runtime.nextId == old(runtime.nextId) && runtime.runs == old(runtime.runs)
              && (was.policy == RestartPolicy(svc) ==> runtime.calls == old(runtime.calls))
    {
      var found;
      ok, found := runtime.Inspect(svc.name);
      if !ok || found.value.policy == RestartPolicy(svc) {
        assert runtime.plain == runtime.plain[svc.name := runtime.plain[svc.name]];
        return;
      }
      ok := runtime.UpdateRestart(svc.name, RestartPolicy(svc));
      assert runtime.plain == runtime.plain[svc.name := runtime.plain[svc.name]];
    }

    /** One service of one round. */
    method ObserveOne(svc: Service, present: bool) returns (ok: bool)
      requires Valid() && runtime != null && (present <==> svc.name in runtime.plain)
      modifies runtime
      ensures Valid()
      ensures forall n :: n != svc.name ==> Untouched(n, old(runtime.plain), runtime.plain)
      ensures RoundOn(svc, old(runtime.plain), runtime.plain, old(runtime.nextId))
      ensures ok ==> SettledFor(svc, runtime.plain)
      ensures ok ==> svc.name in runtime.plain && svc.name !in old(runtime.plain) ==> runtime.plain[svc.name].running
      ensures SettledFor(svc, old(runtime.plain)) ==> runtime.calls == old(runtime.calls)
      ensures runtime.nextId >= old(runtime.nextId) && runtime.runs == old(runtime.runs)
    {
      ok := true;
      if svc.IsJob() {
        // Only runs belong to a job, so what stands under its own name is stale.
        if present { ok := Retire(svc); }
      } else if present {
        ok := ConvergePolicy(svc);
      } else if svc.WantRunning() {
        ok := Create(svc, true);
      }
    }

    /** The drift round. `ok` says that every call it made went through. */
    method Observe() returns (ok: bool)
      requires Valid()
      modifies runtime
      ensures Valid() && runtime == old(runtime) && declared == old(declared)
      ensures runtime == null ==> !ok
      ensures runtime != null ==>
        && (forall n :: n in declared ==> RoundOn(declared[n], old(runtime.plain), runtime.plain, old(runtime.nextId)))
        && (forall n :: n !in declared ==> Untouched(n, old(runtime.plain), runtime.plain))
        && (ok ==> Settled(declared, runtime.plain))
        && (ok ==> forall n :: n in runtime.plain && n !in old(runtime.plain) ==> runtime.plain[n].running)
        && (old(Settled(declared, runtime.plain)) ==> runtime.calls == old(runtime.calls))
        && (forall n :: FaithfulFor(n, declared, old(runtime.plain)) ==> FaithfulFor(n, declared, runtime.plain))
        && runtime.runs == old(runtime.runs) && runtime.nextId >= old(runtime.nextId)
    {
      hide Keyed, Sound, RoundOn, Untouched, SettledFor, Settled, FaithfulFor, RoundSoFar, WellSoFar;
      if runtime == null { return false; }
      RoundBegins(declared, runtime.plain, runtime.nextId);
      var found;
      ok, found := runtime.List();
      if !ok { return; }
      var present := Plain(found);
      PlainIsPresent(found, runtime.plain, runtime.runs);
      var todo := declared.Keys;
      while todo != {}
        invariant Valid() && todo <= declared.Keys
        invariant RoundSoFar(declared, todo, old(runtime.plain), runtime.plain, old(runtime.nextId))
        invariant ok ==> WellSoFar(declared, todo, old(runtime.plain), runtime.plain)
        invariant old(Settled(declared, runtime.plain)) ==> runtime.calls == old(runtime.calls)
        invariant runtime.runs == old(runtime.runs) && runtime.nextId >= old(runtime.nextId)
        decreases |todo|
      {
        var name :| name in todo;
        ghost var mid, from := runtime.plain, runtime.nextId;
        StillToCome(declared, todo, name, old(runtime.plain), mid, old(runtime.nextId));
        var went := ObserveOne(declared[name], name in present);
        RoundStep(declared, todo, name, old(runtime.plain), mid, runtime.plain, old(runtime.nextId), from, ok && went);
        todo := todo - {name};
        ok := ok && went;
      }
      RoundEnds(declared, old(runtime.plain), runtime.plain, old(runtime.nextId), ok);
    }

    /** The plan against the runtime's latest listing. */
    method PlanFor(services: seq<Service>) returns (changes: seq<Change>, live: map<string, bool>, answer: Option<seq<Held>>)
      requires Valid()
      ensures IsPlan(changes, declared, ByName(services), live)
      ensures answer.Some? ==>
        runtime != null && IsListing(answer.value, runtime.plain, runtime.runs) && live == Live(answer.value)
      // A runtime that does not answer reads as nothing running.
      ensures answer.None? ==> live == map[]
    {
      live, answer := map[], None;
      if runtime != null {
        var ok, found := runtime.List();
        if ok { answer := Some(found); }
        live := Live(found);
      }
      changes := Compute(declared, ByName(services), live);
    }

    method Stop(name: string) returns (r: Outcome)
      requires Valid()
      modifies runtime
      ensures Valid() && runtime == old(runtime)
      ensures name in declared ==> r != Unknown
      ensures runtime == null ==> !r.Done? && (name in declared ==> r == NoRuntime)
      ensures runtime != null ==>
        && runtime.plain == (if r == Done(true) then Stopped(old(runtime.plain), name) else old(runtime.plain))
        && (r.Done? ==> name in runtime.plain ==> !runtime.plain[name].running)
        && (r == Done(true) ==> name in old(runtime.plain) && old(runtime.plain)[name].running)
        && runtime.nextId == old(runtime.nextId) && runtime.runs == old(runtime.runs)
    {
      if name !in declared {
        var orphan := HeldBy(name);
        if !orphan { return Unknown; }
      }
      if runtime == null { return NoRuntime; }
      var ok, found := runtime.Inspect(name);
      if !ok { return Failed; }
      if found.None? || !found.value.running { return Done(false); }
      ok := runtime.Stop(name);
      return if ok then Done(true) else Failed;
    }

    method HeldBy(name: string) returns (orphan: bool)
      ensures orphan ==> runtime != null
      ensures orphan && runtime != null ==>
        name in runtime.plain || exists id :: id in runtime.runs && runtime.runs[id].service == name
    {
      if runtime == null { return false; }
      var ok, found := runtime.List();
      orphan := exists h :: h in found && h.service == name;
    }

    /** A service the files have dropped. */
    method TakeAway(name: string) returns (ghost stuck: bool)
      requires Valid() && name in declared
      modifies this, runtime
      ensures Valid() && runtime == old(runtime)
      ensures declared == if stuck then old(declared) else old(declared) - {name}
      ensures runtime == null ==> stuck
      ensures runtime != null ==>
        && (runtime.plain == old(runtime.plain) || (!stuck &&
            (runtime.plain == Without(old(runtime.plain), name) || runtime.plain == Stopped(old(runtime.plain), name))))
        && (!stuck && name in runtime.plain ==> !runtime.plain[name].running)
        && runtime.nextId == old(runtime.nextId) && runtime.runs == old(runtime.runs)
    {
      stuck := false;
      var r := Stop(name);
      if !r.Done? {
        stuck := true;
        return;
      }
      if runtime != null {
        ghost var stopped := runtime.plain;
        // A failed removal leaves the stopped container behind.
        var _ := runtime.Remove(name);
        assert Without(stopped, name) == Without(old(runtime.plain), name);
      }
      declared := declared - {name};
    }

    /** A service added or defined anew. */
    method Install(svc: Service) returns (ghost failed: bool)
      requires Valid()
      modifies this, runtime
      ensures Valid() && runtime == old(runtime) && declared == old(declared)[svc.name := svc]
      ensures runtime == null ==> failed
      ensures runtime != null ==>
        && (svc.IsJob() ==> TakenDown(old(runtime.plain), runtime.plain, svc.name))
        && (!svc.IsJob() ==>
            Recreated(old(runtime.plain), runtime.plain, svc, svc.WantRunning(), old(runtime.nextId), !failed))
        && runtime.nextId >= old(runtime.nextId) && runtime.runs == old(runtime.runs)
    {
      declared := declared[svc.name := svc];
      var ok;
      if svc.IsJob() {
        // The schedule brings jobs up, so all that is done here is to clear the name.
        ok := Retire(svc);
      } else {
        ok := Create(svc, svc.WantRunning());
      }
      failed := !ok;
    }

    /** One change of an apply. */
    method CarryOut(change: Change, wanted: Declarations) returns (ghost stuck: bool, ghost failed: bool)
      requires Valid() && Keyed(wanted)
      requires change.action.Remove? <==> change.service !in wanted
      requires change.service !in wanted ==> change.service in declared
      modifies this, runtime
      ensures Valid() && runtime == old(runtime)
      ensures OneCarried(change.service, old(declared), old(PlainOf(runtime)), wanted, declared, PlainOf(runtime),
                         stuck, failed, old(NextOf(runtime)))
      ensures NextOf(runtime) >= old(NextOf(runtime))
      ensures runtime != null ==> runtime.runs == old(runtime.runs)
    {
      stuck, failed := false, false;
      if change.action.Remove? {
        stuck := TakeAway(change.service);
      } else {
        failed := Install(wanted[change.service]);
      }
    }

    /**
      An apply. `stuck` are the services it could not stop, `failed` those whose new
      container it could not bring up; the program only logs both.
    */
    method Apply(services: seq<Service>)
      returns (changes: seq<Change>, ghost stuck: set<string>, ghost failed: set<string>, ghost live: map<string, bool>)
      requires Valid()
      modifies this, runtime
      ensures Valid() && runtime == old(runtime)
      ensures IsPlan(changes, old(declared), ByName(services), live)
      ensures forall n :: n in stuck ==> n in old(declared) && n !in ByName(services)
      // The declarations are those of the files, with the stuck services kept on.
      ensures forall n :: n in declared <==> n in ByName(services) || n in stuck
      ensures forall n :: n in declared ==> declared[n] == if n in stuck then old(declared)[n] else ByName(services)[n]
      ensures runtime != null ==>
        && (forall n :: ChangeFor(old(declared), ByName(services), live, n) == None ==>
              Untouched(n, old(runtime.plain), runtime.plain))
        && (forall n :: n in stuck ==> Untouched(n, old(runtime.plain), runtime.plain))
        && (forall n :: ChangeFor(old(declared), ByName(services), live, n) != None ==>
              Carried(n, old(declared), old(runtime.plain), ByName(services), declared, runtime.plain,
                      n in stuck, n in failed, old(runtime.nextId)))
        && (old(forall n :: FaithfulFor(n, declared, runtime.plain)) ==>
              forall n :: n !in failed ==> FaithfulFor(n, declared, runtime.plain))
        && runtime.runs == old(runtime.runs)
      // Planning again finds nothing to do exactly when everything could be stopped.
      ensures stuck == {} <==> forall again :: IsPlan([], declared, ByName(services), again)
    {
      var wanted := ByName(services);
      ghost var answer;
      changes, live, answer := PlanFor(services);
      ghost var known, before := declared, PlainOf(runtime);
      ghost var from := NextOf(runtime);
      ghost var done;
      done, stuck, failed := CarryOutAll(changes, wanted, live);
      ghost var carried := declared;
      // Takes over the declarations that had no change.
      DeclareAll(services);
      ApplyEnds(done, known, before, wanted, live, carried, PlainOf(runtime), stuck, failed, from);
      PlanAgain(known, wanted, declared, stuck);
      if forall n :: FaithfulFor(n, known, before) {
        ApplyIsFaithful(done, known, before, wanted, live, carried, PlainOf(runtime), stuck, failed, from);
      }
    }

    /** Declares the service anew, clears its name and builds. */
    method Deploy(svc: Service) returns (r: Outcome)
      requires Valid()
      modifies this, runtime
      ensures Valid() && runtime == old(runtime)
      ensures r == NoRuntime <==> runtime == null
      ensures declared == if r == NoRuntime then old(declared) else old(declared)[svc.name := svc]
      ensures r == NoRuntime || r == Done(true) || (r == Failed && !svc.IsJob())
      ensures runtime != null ==>
        && (forall n :: n != svc.name ==> Untouched(n, old(runtime.plain), runtime.plain))
        && (svc.IsJob() ==> TakenDown(old(runtime.plain), runtime.plain, svc.name))
        && (r == Done(true) && !svc.IsJob() ==>
              svc.name in runtime.plain && runtime.plain[svc.name] == Fresh(svc, old(runtime.nextId), svc.WantRunning()))
        && (r == Failed && svc.name in runtime.plain ==>
              (!runtime.plain[svc.name].running ||
               (svc.name in old(runtime.plain) && runtime.plain[svc.name] == old(runtime.plain)[svc.name])))
        && runtime.runs == old(runtime.runs)
    {
      hide Sound, TakenDown, Recreated, Untouched, Fresh;
      if runtime == null { return NoRuntime; }
      declared := declared[svc.name := svc];
      var _ := Retire(svc);
      ghost var cleared, id := runtime.plain, runtime.nextId;
      TakenDownLeaves(old(runtime.plain), cleared, svc.name);
      if svc.IsJob() { return Done(true); }
      var ok := Create(svc, svc.WantRunning());
      DeployLeaves(old(runtime.plain), cleared, runtime.plain, svc, id, ok);
      return if ok then Done(true) else Failed;
    }

    /** Drops the declaration, then the container. */
    method Remove(svc: Service) returns (r: Outcome)
      requires Valid()
      requires svc.name in declared ==> svc == declared[svc.name]
      modifies this, runtime
      ensures Valid() && runtime == old(runtime)
      ensures svc.name in old(declared) ==> r == Done(true) || r == NoRuntime
      ensures declared == if r == Done(true) then old(declared) - {svc.name} else old(declared)
      ensures r.Done? ==> r == Done(true) && runtime != null
      ensures runtime != null ==>
        && (r != Done(true) ==> runtime.plain == old(runtime.plain))
        && TakenDown(old(runtime.plain), runtime.plain, svc.name)
        && runtime.runs == old(runtime.runs)
    {
      if svc.name !in declared {
        // No declaration, but perhaps a container.
        var orphan := HeldBy(svc.name);
        if !orphan { return Unknown; }
      }
      if runtime == null { return NoRuntime; }
      declared := declared - {svc.name};
      var _ := Retire(svc);
      return Done(true);
    }

    /** Starts the container that stands, or builds what is declared. */
    method Start(name: string) returns (r: Outcome)
      requires Valid()
      modifies runtime
      ensures Valid() && runtime == old(runtime) && declared == old(declared)
      ensures r == Unknown <==> name !in declared
      ensures r == NoRuntime ==> runtime == null
      ensures r.Done? ==> runtime != null
      ensures runtime != null ==>
        && runtime.runs == old(runtime.runs)
        && (r == Done(false) || r == Unknown ==> runtime.plain == old(runtime.plain))
        && (r.Done? ==> name in runtime.plain && runtime.plain[name].running)
        && (r == Done(true) ==> name !in old(runtime.plain) || !old(runtime.plain)[name].running)
        && (r == Done(true) && name !in old(runtime.plain) ==> runtime.plain[name] == Fresh(declared[name], old(runtime.nextId), true))
        && (name in old(runtime.plain) ==>
              (name in runtime.plain &&
               runtime.plain[name] == old(runtime.plain)[name].(running := runtime.plain[name].running)))
        && (forall n :: n != name ==> Untouched(n, old(runtime.plain), runtime.plain))
    {
      if name !in declared { return Unknown; }
      if runtime == null { return NoRuntime; }
      var ok, found := runtime.Inspect(name);
      if !ok { return Failed; }
      if found.None? {
        ok := Create(declared[name], true);
        return if ok then Done(true) else Failed;
      }
      if found.value.running { return Done(false); }
      ok := runtime.Start(name);
      return if ok then Done(true) else Failed;
    }

    /**
      Stops what stands and starts it again, which counts as a change either way. What nothing
      declares is stopped and then not known to the start.
    */
    method Restart(name: string) returns (r: Outcome)
      requires Valid()
      modifies runtime
      ensures Valid() && runtime == old(runtime) && declared == old(declared)
      ensures r.Done? ==> r == Done(true) && name in declared && runtime != null
      ensures r == Unknown ==> name !in declared
      ensures runtime != null ==>
        && runtime.runs == old(runtime.runs)
        && (r.Done? ==> name in runtime.plain && runtime.plain[name].running)
        && (r == Unknown ==> runtime.plain == old(runtime.plain) || runtime.plain == Stopped(old(runtime.plain), name))
        && (name in old(runtime.plain) ==>
              (name in runtime.plain &&
               runtime.plain[name] == old(runtime.plain)[name].(running := runtime.plain[name].running)))
        && (forall n :: n != name ==> Untouched(n, old(runtime.plain), runtime.plain))
    {
      r := Stop(name);
      if !r.Done? { return; }
      ghost var stopped := PlainOf(runtime);
      assert runtime != null ==> forall n :: n != name ==> Untouched(n, old(runtime.plain), stopped);
      r := Start(name);
      if runtime != null {
        forall n | n != name ensures Untouched(n, old(runtime.plain), runtime.plain) {
          assert Untouched(n, old(runtime.plain), stopped) && Untouched(n, stopped, runtime.plain);
        }
      }
      if r.Done? { r := Done(true); }
    }

    /** What is declared and what the runtime holds, one line per name, in order. */
    method Status() returns (problem: bool, out: seq<Line>)
      ensures forall i, j :: 0 <= i < j < |out| ==> Ordering.Before(out[i].name, out[j].name)
      ensures forall l :: l in out ==> (l.orphan <==> l.name !in declared)
      ensures forall n :: n in declared ==> exists l :: l in out && l.name == n
      ensures !problem && runtime != null ==>
        forall n :: n in runtime.plain ==> LineOf(n, declared) in out
    {
      var found := [];
      problem := true;
      if runtime != null {
        var ok;
        ok, found := runtime.List();
        problem := !ok;
      }
      var names := Ordering.SortNames(declared.Keys + set h | h in found :: h.service);
      out := [];
      for i := 0 to |names|
        invariant |out| == i
        invariant forall k :: 0 <= k < i ==> out[k] == LineOf(names[k], declared)
      {
        out := out + [LineOf(names[i], declared)];
      }
      forall n | n in names ensures LineOf(n, declared) in out {
        var k :| 0 <= k < |names| && names[k] == n;
        assert out[k] == LineOf(n, declared);
      }
      if !problem {
        forall n | n in runtime.plain ensures n in names {
          assert Held(runtime.plain[n].id, n, "", runtime.plain[n].running) in found;
        }
      }
    }

    method CarryOutAll(changes: seq<Change>, wanted: Declarations, ghost live: map<string, bool>)
      returns (ghost done: set<string>, ghost stuck: set<string>, ghost failed: set<string>)
      requires Valid() && Keyed(wanted) && IsPlan(changes, declared, wanted, live)
      modifies this, runtime
      ensures Valid() && runtime == old(runtime)
      ensures forall n :: n in done <==> ChangeFor(old(declared), wanted, live, n) != None
      ensures ApplySoFar(done, old(declared), old(PlainOf(runtime)), wanted, declared, PlainOf(runtime),
                         stuck, failed, old(NextOf(runtime)))
      ensures runtime != null ==> runtime.runs == old(runtime.runs)
    {
      done, stuck, failed := {}, {}, {};
      ghost var known, before, from := declared, PlainOf(runtime), NextOf(runtime);
      for i := 0 to |changes|
        invariant Valid() && runtime == old(runtime)
        invariant done == Names(changes, i)
        invariant ApplySoFar(done, known, before, wanted, declared, PlainOf(runtime), stuck, failed, from)
        invariant NextOf(runtime) >= from
        invariant runtime != null ==> runtime.runs == old(runtime.runs)
      {
        var change := changes[i];
        assert change in changes;
        NamesGrow(changes, i);
        ghost var was, mid, later := declared, PlainOf(runtime), NextOf(runtime);
        assert Same(change.service, known, was);
        ghost var s, f := CarryOut(change, wanted);
        ghost var stuckNow := if s then stuck + {change.service} else stuck;
        ghost var failedNow := if f then failed + {change.service} else failed;
        ApplyStep(change.service, done, known, before, wanted, was, mid, declared, PlainOf(runtime),
                  stuck, failed, stuckNow, failedNow, s, f, from, later);
        done, stuck, failed := done + {change.service}, stuckNow, failedNow;
      }
      DoneAreChanged(changes, known, wanted, live, done);
    }
  }

  ghost function Names(changes: seq<Change>, i: nat): set<string>
    requires i <= |changes|
  {
    set k | 0 <= k < i :: changes[k].service
  }

  lemma NamesGrow(changes: seq<Change>, i: nat)
    requires i < |changes| && ByService(changes)
    ensures changes[i].service !in Names(changes, i)
    ensures Names(changes, i + 1) == Names(changes, i) + {changes[i].service}
  {
    PlanIsDistinct(changes);
  }

  ghost function NextOf(runtime: Client?): nat
    reads runtime
  {
    if runtime == null then 0 else runtime.nextId
  }

  ghost function PlainOf(runtime: Client?): Containers
    reads runtime
  {
    if runtime == null then map[] else runtime.plain
  }

  /** The changes of the services in `done` are carried out and nothing else is. */
  ghost predicate ApplySoFar(done: set<string>, known: Declarations, before: Containers, wanted: Declarations,
                             declared: Declarations, now: Containers, stuck: set<string>, failed: set<string>, from: nat)
  {
    && (forall n :: n in done ==> Carried(n, known, before, wanted, declared, now, n in stuck, n in failed, from))
    && (forall n :: n !in done ==> Same(n, known, declared) && Untouched(n, before, now) && n !in stuck && n !in failed)
  }

  lemma CarriedLater(n: string, known: Declarations, before: Containers, wanted: Declarations, declared: Declarations,
                     mid: Containers, after: Declarations, now: Containers, stuck: bool, failed: bool, from: nat)
    requires Carried(n, known, before, wanted, declared, mid, stuck, failed, from)
    requires Same(n, declared, after) && Untouched(n, mid, now)
    ensures Carried(n, known, before, wanted, after, now, stuck, failed, from)
  {
  }

  lemma CarriedEarlier(n: string, known: Declarations, before: Containers, wanted: Declarations, declared: Declarations,
                       mid: Containers, after: Declarations, now: Containers, stuck: bool, failed: bool, from: nat, later: nat)
    requires Same(n, known, declared) && Untouched(n, before, mid) && from <= later
    requires Carried(n, declared, mid, wanted, after, now, stuck, failed, later)
    ensures Carried(n, known, before, wanted, after, now, stuck, failed, from)
  {
  }

  lemma ApplyStep(name: string, done: set<string>, known: Declarations, before: Containers, wanted: Declarations,
                  declared: Declarations, mid: Containers, after: Declarations, now: Containers,
                  stuck: set<string>, failed: set<string>, stuckNow: set<string>, failedNow: set<string>,
                  s: bool, f: bool, from: nat, later: nat)
    requires name !in done && from <= later
    requires ApplySoFar(done, known, before, wanted, declared, mid, stuck, failed, from)
    requires OneCarried(name, declared, mid, wanted, after, now, s, f, later)
    requires stuckNow == if s then stuck + {name} else stuck
    requires failedNow == if f then failed + {name} else failed
    ensures ApplySoFar(done + {name}, known, before, wanted, after, now, stuckNow, failedNow, from)
  {
    assert Same(name, known, declared) && Untouched(name, before, mid);
    CarriedEarlier(name, known, before, wanted, declared, mid, after, now, name in stuckNow, name in failedNow, from, later);
    forall n | n in done
      ensures Carried(n, known, before, wanted, after, now, n in stuckNow, n in failedNow, from)
    {
      CarriedLater(n, known, before, wanted, declared, mid, after, now, n in stuck, n in failed, from);
    }
    forall n | n !in done && n != name
      ensures Same(n, known, after) && Untouched(n, before, now) && n !in stuckNow && n !in failedNow
    {
      assert Same(n, known, declared) && Same(n, declared, after) && Untouched(n, before, mid) && Untouched(n, mid, now);
    }
  }

  lemma DoneAreChanged(changes: seq<Change>, known: Declarations, wanted: Declarations, live: map<string, bool>, done: set<string>)
    requires IsPlan(changes, known, wanted, live)
    requires done == Names(changes, |changes|)
    ensures forall n :: n in done <==> ChangeFor(known, wanted, live, n) != None
  {
    forall n ensures n in done <==> ChangeFor(known, wanted, live, n) != None {
      if n in done {
        var k :| 0 <= k < |changes| && changes[k].service == n;
        assert changes[k] in changes;
      }
      match ChangeFor(known, wanted, live, n)
      case None =>
      case Some(c) =>
        assert c.service == n && c in changes;
        var k :| 0 <= k < |changes| && changes[k] == c;
    }
  }

  lemma ApplyEnds(done: set<string>, known: Declarations, before: Containers, wanted: Declarations, live: map<string, bool>,
                  carried: Declarations, now: Containers, stuck: set<string>, failed: set<string>, from: nat)
    requires forall n :: n in done <==> ChangeFor(known, wanted, live, n) != None
    requires ApplySoFar(done, known, before, wanted, carried, now, stuck, failed, from)
    ensures forall n :: n in stuck ==> n in known && n !in wanted && Untouched(n, before, now)
    ensures forall n :: n in carried + wanted <==> n in wanted || n in stuck
    ensures forall n :: n in carried + wanted ==> (carried + wanted)[n] == if n in stuck then known[n] else wanted[n]
    ensures forall n :: n in done ==>
              Carried(n, known, before, wanted, carried + wanted, now, n in stuck, n in failed, from)
  {
    forall n
      ensures n in stuck ==> n in known && n !in wanted && Untouched(n, before, now)
      ensures n in carried && n !in wanted <==> n in stuck
      ensures n in stuck ==> carried[n] == known[n]
      ensures n in done ==> Carried(n, known, before, wanted, carried + wanted, now, n in stuck, n in failed, from)
    {
      if n in done {
        assert Carried(n, known, before, wanted, carried, now, n in stuck, n in failed, from);
      } else {
        assert Same(n, known, carried) && n !in stuck;
        assert ChangeFor(known, wanted, live, n) == None;
      }
    }
  }

  lemma PlanAgain(known: Declarations, wanted: Declarations, declared: Declarations, stuck: set<string>)
    requires forall n :: n in stuck ==> n in known && n !in wanted
    requires forall n :: n in declared <==> n in wanted || n in stuck
    requires forall n :: n in declared ==> declared[n] == if n in stuck then known[n] else wanted[n]
    ensures stuck == {} <==> forall again :: IsPlan([], declared, wanted, again)
  {
    forall again ensures IsPlan([], declared, wanted, again) <==> stuck == {} {
      EmptyPlan(declared, wanted, again);
      assert declared.Keys == wanted.Keys <==> stuck == {};
    }
    assert IsPlan([], declared, wanted, map[]) <==> stuck == {};
  }

  lemma ApplyIsFaithful(done: set<string>, known: Declarations, before: Containers, wanted: Declarations, live: map<string, bool>,
                        carried: Declarations, now: Containers, stuck: set<string>, failed: set<string>, from: nat)
    requires forall n :: n in done <==> ChangeFor(known, wanted, live, n) != None
    requires ApplySoFar(done, known, before, wanted, carried, now, stuck, failed, from)
    requires forall n :: FaithfulFor(n, known, before)
    ensures forall n :: n !in failed ==> FaithfulFor(n, carried + wanted, now)
  {
    forall n | n !in failed ensures FaithfulFor(n, carried + wanted, now) {
      assert FaithfulFor(n, known, before);
      if n in done {
        assert Carried(n, known, before, wanted, carried, now, n in stuck, n in failed, from);
      } else {
        assert Same(n, known, carried) && Untouched(n, before, now);
        assert ChangeFor(known, wanted, live, n) == None;
      }
    }
  }

  // After a change that failed ---------------------------------------------------------

  /** Drift rounds one after the other, as the container of one service sees them. */
  ghost predicate Rounds(svc: Service, run: seq<Containers>, from: nat) {
    run != [] && forall i {:trigger run[i]} :: 0 < i < |run| ==> RoundOn(svc, run[i - 1], run[i], from)
  }

  /** The rounds in which every call went through. */
  ghost predicate AllWell(svc: Service, run: seq<Containers>) {
    forall i {:trigger run[i]} :: 0 < i < |run| ==>
      && SettledFor(svc, run[i])
      && (svc.name in run[i] && svc.name !in run[i - 1] ==> run[i][svc.name].running)
  }

  /** A round neither rebuilds, nor starts, nor stops what stands; what it builds is as declared. */
  lemma {:induction false} RoundsKeepWhatStands(svc: Service, run: seq<Containers>, from: nat)
    requires Rounds(svc, run, from) && !svc.IsJob()
    ensures var n, last := svc.name, run[|run| - 1];
            && (n in run[0] ==> n in last && last[n].built == run[0][n].built && last[n].running == run[0][n].running)
            && (n !in run[0] && n in last ==> svc.WantRunning() && last[n].built == svc)
            && (n !in run[0] && n in last && AllWell(svc, run) ==> last[n].running)
  {
    if |run| == 1 {
    } else {
      var k := |run| - 1;
      RoundsKeepWhatStands(svc, run[..k], from);
      assert RoundOn(svc, run[k - 1], run[k], from);
    }
  }

  ghost predicate Serves(svc: Service, plain: Containers) {
    svc.name in plain && plain[svc.name].running && SameDefinition(plain[svc.name].built, svc)
  }

  /**
    A change that replaces the container of a service and fails on the way is forgotten: the
    plan has nothing more to say about the service. However many rounds follow, what stands is
    as declared exactly when the failure did not leave the old container, and if all goes well
    in them the service is brought up exactly when the failure left no container at all and it
    is wanted running. What the failure left stopped is started by no round.
  */
  lemma FailedUpdateIsForgotten(n: string, known: Declarations, before: Containers, wanted: Declarations,
                                declared: Declarations, from: nat, run: seq<Containers>, later: nat, live: map<string, bool>)
    requires n in wanted && wanted[n].name == n && !wanted[n].IsJob()
    requires n in before ==> !SameDefinition(before[n].built, wanted[n])
    requires Rounds(wanted[n], run, later) && Carried(n, known, before, wanted, declared, run[0], false, true, from)
    ensures ChangeFor(declared, wanted, live, n) == None
    ensures FaithfulFor(n, declared, run[|run| - 1]) <==> !(n in run[0] && n in before && run[0][n] == before[n])
    ensures |run| > 1 && AllWell(wanted[n], run) ==>
              (Serves(wanted[n], run[|run| - 1]) <==> n !in run[0] && wanted[n].WantRunning())
  {
    RoundsKeepWhatStands(wanted[n], run, later);
  }
}
