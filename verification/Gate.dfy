/**
  The operations that change what a machine runs, as the daemon takes them (api/server.go): a
  claimed generation is checked, an apply that would stop something for good needs to be told
  so, and whatever comes of it is recorded. One caller at a time.
*/
module Gate {
  import opened Options
  import opened Services
  import opened Plan
  import opened Runtime
  import Sup = Supervisor
  import Audit

  datatype Code = OK | Conflict | Destructive | Failed | NotFound | Invalid

  predicate Refused(code: Code) {
    code.Conflict? || code.Destructive? || code.NotFound? || code.Invalid?
  }

  // What a listing says of a service ---------------------------------------------------

  ghost predicate Runs(plain: Containers, name: string) {
    name in plain && plain[name].running
  }

  /** No run of a job that goes by the name is in another state than the service itself. */
  ghost predicate RunsAgree(plain: Containers, runs: map<nat, RunContainer>, name: string) {
    forall id :: id in runs && runs[id].run != "" && runs[id].service == name ==> runs[id].running == Runs(plain, name)
  }

  /**
    The order of a listing is not settled, and runs of a job carry the service's name. Every
    listing there can be tells whether the service runs exactly when the runs agree with it.
  */
  lemma ListingsTellExactlyWhen(plain: Containers, runs: map<nat, RunContainer>, name: string)
    ensures (forall found: seq<Held> :: IsListing(found, plain, runs) ==> (IsLive(Live(found), name) <==> Runs(plain, name)))
            <==> RunsAgree(plain, runs, name)
  {
    if RunsAgree(plain, runs, name) {
      forall found: seq<Held> | IsListing(found, plain, runs) ensures IsLive(Live(found), name) <==> Runs(plain, name) {
        ListingTells(found, plain, runs, name);
      }
    } else {
      var id :| id in runs && runs[id].run != "" && runs[id].service == name && runs[id].running != Runs(plain, name);
      var found := ListedLast(plain, runs, id);
      LiveIsLast(found, name);
      assert IsLast(found, name, |found| - 1);
    }
  }

  lemma ListingTells(found: seq<Held>, plain: Containers, runs: map<nat, RunContainer>, name: string)
    requires IsListing(found, plain, runs) && RunsAgree(plain, runs, name)
    ensures IsLive(Live(found), name) <==> Runs(plain, name)
  {
    LiveIsLast(found, name);
    if name in Live(found) {
      var i :| IsLast(found, name, i);
      assert found[i] in found;
    } else if name in plain {
      var h := Held(plain[name].id, name, "", plain[name].running);
      assert h in found;
      var i :| 0 <= i < |found| && found[i] == h;
      LastFrom(found, name, i);
    }
  }

  lemma LastFrom(found: seq<Held>, name: string, i: int)
    requires 0 <= i < |found| && found[i].service == name
    ensures exists j :: IsLast(found, name, j)
    decreases |found| - i
  {
    if j :| i < j < |found| && found[j].service == name {
      LastFrom(found, name, j);
    } else {
      assert IsLast(found, name, i);
    }
  }

  /** Each container of the machine, as a listing shows it. */
  ghost function Entries(plain: Containers, runs: map<nat, RunContainer>): set<Held> {
    (set n | n in plain :: Held(plain[n].id, n, "", plain[n].running))
    + (set id | id in runs && runs[id].run != "" :: Held(id, runs[id].service, runs[id].run, runs[id].running))
  }

  /** There is a listing, each container in it once, that ends with any given run. */
  lemma ListedLast(plain: Containers, runs: map<nat, RunContainer>, id: nat) returns (found: seq<Held>)
    requires id in runs && runs[id].run != ""
    ensures IsListing(found, plain, runs) && found != []
    ensures found[|found| - 1] == Held(id, runs[id].service, runs[id].run, runs[id].running)
    ensures forall i, j :: 0 <= i < j < |found| ==> found[i] != found[j]
  {
    var last := Held(id, runs[id].service, runs[id].run, runs[id].running);
    var rest := InSomeOrder(Entries(plain, runs) - {last});
    found := rest + [last];
    assert forall h :: h in found <==> h in Entries(plain, runs);
  }

  lemma {:induction false} InSomeOrder(entries: set<Held>) returns (found: seq<Held>)
    ensures forall h :: h in found <==> h in entries
    ensures forall i, j :: 0 <= i < j < |found| ==> found[i] != found[j]
    decreases |entries|
  {
    if entries == {} {
      found := [];
    } else {
      var h :| h in entries;
      var rest := InSomeOrder(entries - {h});
      found := rest + [h];
    }
  }

  // What the gate lets by --------------------------------------------------------------

  /** The runtime's answer, if it came, says that the service runs. */
  ghost predicate KnownToRun(answer: Option<seq<Held>>, name: string) {
    answer.Some? && SaidToRun(answer.value, name)
  }

  lemma KnownIsLive(answer: Option<seq<Held>>, live: map<string, bool>)
    requires live == if answer.Some? then Live(answer.value) else map[]
    ensures forall n :: KnownToRun(answer, n) <==> IsLive(live, n)
  {
    forall n ensures KnownToRun(answer, n) <==> IsLive(live, n) {
      if answer.Some? { LiveIsLast(answer.value, n); }
    }
  }

  /** A plan made without the runtime's answer asks for no permission, whatever it takes away. */
  lemma BlindPlanAsksNothing(changes: seq<Change>, known: Declarations, wanted: Declarations)
    requires IsPlan(changes, known, wanted, map[])
    ensures !HasDestructive(changes)
  {
    DestructiveMeansTakenAway(changes, known, wanted, map[]);
  }

  /** Neither does one that lists a finished run of the service after the service itself. */
  lemma RunHidesItsService(svc: Service, changes: seq<Change>)
    requires var found := [Held(0, svc.name, "", true), Held(1, svc.name, "r", false)];
             IsPlan(changes, map[svc.name := svc], map[], Live(found))
    ensures var found := [Held(0, svc.name, "", true), Held(1, svc.name, "r", false)];
            && IsListing(found, map[svc.name := Fresh(svc, 0, true)], map[1 := RunContainer(svc.name, "r", false)])
            && !HasDestructive(changes)
  {
    var found := [Held(0, svc.name, "", true), Held(1, svc.name, "r", false)];
    assert found[..1] == [Held(0, svc.name, "", true)];
    assert Live(found)[svc.name] == false;
    DestructiveMeansTakenAway(changes, map[svc.name := svc], map[], Live(found));
  }

  // One operation on one service -------------------------------------------------------

  /** What the machine's disk has under the name of a service. */
  datatype OnDisk = Missing | Unreadable | Declares(svc: Service)

  datatype Operation = Start | Stop | Restart | Redeploy(file: OnDisk)

  /** A redeploy whose file is taken at its word. */
  predicate Takes(op: Operation, name: string) {
    op.Redeploy? && op.file.Declares? && op.file.svc.name == name
  }

  /** What an operation that went through leaves of its service. */
  ghost predicate Does(op: Operation, name: string, before: Containers, after: Containers, next: nat) {
    match op
    case Start => Runs(after, name) && (Runs(before, name) ==> after == before)
    case Stop => !Runs(after, name) && (Runs(before, name) || after == before)
    case Restart => Runs(after, name)
    case Redeploy(file) =>
      file.Declares? && file.svc.name == name
      && if file.svc.IsJob() then Sup.TakenDown(before, after, name)
         else name in after && after[name] == Fresh(file.svc, next, file.svc.WantRunning())
  }

  function Verdict(code: Code): Audit.Result {
    if code == OK then Audit.ResultOK else if Refused(code) then Audit.ResultRefused else Audit.ResultFailed
  }

  class Server {
    const sup: Sup.Supervisor
    const store: Audit.Store

    constructor (sup: Sup.Supervisor, store: Audit.Store)
      ensures this.sup == sup && this.store == store
    {
      this.sup, this.store := sup, store;
    }

    ghost predicate Valid()
      reads this, sup, sup.runtime, store
    {
      sup.Valid() && store.Valid()
    }

    /** A refusal changes nothing and is recorded. */
    method Refuse(entry: Audit.Entry, now: int)
      requires store.Valid()
      modifies store
      ensures store.Valid() && store.generation == old(store.generation)
      ensures |store.history| == |old(store.history)| + 1 && store.history[|old(store.history)|].result == Audit.ResultRefused
    {
      var _ := store.Record(entry.(result := Audit.ResultRefused), false, now);
    }

    /**
      Carries a configuration out. `wanted` is what of the files could be read; `readable`
      says whether that was all of them.
    */
    method Apply(expected: nat, allowed: bool, wanted: seq<Service>, readable: bool, entry: Audit.Entry, now: int)
      returns (code: Code, ghost answer: Option<seq<Held>>, ghost applied: seq<Change>, ghost stuck: set<string>, ghost later: map<string, bool>)
      requires Valid()
      modifies sup, sup.runtime, store
      ensures Valid() && sup.runtime == old(sup.runtime)
      ensures answer.Some? ==> sup.runtime != null && IsListing(answer.value, old(sup.runtime.plain), old(sup.runtime.runs))
      ensures code == Conflict <==> expected != 0 && expected != old(store.generation)
      ensures Refused(code) ==>
                && sup.declared == old(sup.declared) && store.generation == old(store.generation)
                && (sup.runtime != null ==> sup.runtime.plain == old(sup.runtime.plain) && sup.runtime.runs == old(sup.runtime.runs))
      ensures !Refused(code) ==> code == if readable then OK else Failed
      // Permission is asked for exactly when the answer says that something to be stopped for good runs.
      ensures code == Destructive <==>
                code != Conflict && !allowed && exists n :: n in old(sup.declared) && n !in ByName(wanted) && KnownToRun(answer, n)
      // Once it goes ahead, what no file declares is stopped, running or not, but for what would not stop.
      ensures !Refused(code) ==> forall n :: n in stuck ==> n in old(sup.declared) && n !in ByName(wanted)
      ensures !Refused(code) && sup.runtime != null ==>
                forall n :: n in old(sup.declared) && n !in ByName(wanted) ==>
                  (n in sup.declared <==> n in stuck)
                  && (Runs(sup.runtime.plain, n) <==> n in stuck && old(Runs(sup.runtime.plain, n)))
      // Without permission, that takes a running service only where no answer came or a run of its name differs from it.
      ensures !Refused(code) && !allowed ==>
                forall n :: n in old(sup.declared) && n !in ByName(wanted) && sup.runtime != null && old(Runs(sup.runtime.plain, n)) ==>
                  !KnownToRun(answer, n) && (answer.None? || !RunsAgree(old(sup.runtime.plain), old(sup.runtime.runs), n))
      // Every attempt is in the audit, and the counter moves exactly when something was to be done.
      ensures |store.history| == |old(store.history)| + 1
      ensures !Refused(code) ==> IsPlan(applied, old(sup.declared), ByName(wanted), later)
      ensures !Refused(code) ==> store.generation == old(store.generation) + (if applied == [] then 0 else 1)
    {
      hide Audit.Chain, Audit.Last, Audit.GenerationAfter, IsPlan, IsListing, Live, Sound, Sup.Keyed, Sup.FaithfulFor,
        HasDestructive, RunsAgree, SaidToRun, KnownToRun;
      answer, applied, stuck, later := None, [], {}, map[];
      var current := store.Check(expected);
      if !current {
        Refuse(entry, now);
        return Conflict, answer, applied, stuck, later;
      }
      var changes, live, got := sup.PlanFor(wanted);
      answer := got;
      KnownIsLive(got, live);
      DestructiveMeansTakenAway(changes, sup.declared, ByName(wanted), live);
      if HasDestructive(changes) && !allowed {
        Refuse(entry, now);
        return Destructive, answer, applied, stuck, later;
      }
      if answer.Some? {
        forall n | RunsAgree(sup.runtime.plain, sup.runtime.runs, n) ensures IsLive(live, n) <==> Runs(sup.runtime.plain, n) {
          ListingTells(answer.value, sup.runtime.plain, sup.runtime.runs, n);
        }
      }
      ghost var failed;
      var done;
      done, stuck, failed, later := sup.Apply(wanted);
      applied := done;
      var _ := store.Record(entry.(result := Audit.ResultOK), done != [], now);
      code := if readable then OK else Failed;
    }

    /** The work of one operation. A redeploy takes what the file of that name says right now. */
    method Work(op: Operation, name: string) returns (r: Sup.Outcome)
      requires Valid()
      modifies sup, sup.runtime
      ensures Valid() && sup.runtime == old(sup.runtime)
      ensures sup.declared == if Takes(op, name) && sup.runtime != null then old(sup.declared)[name := op.file.svc] else old(sup.declared)
      ensures r.Done? ==> sup.runtime != null
      ensures r.Done? && (op.Restart? || op.Redeploy?) ==> r == Sup.Done(true)
      ensures r.Done? && (op.Start? || op.Stop?) ==> (r == Sup.Done(true) <==> sup.runtime.plain != old(sup.runtime.plain))
      ensures r == Sup.Unknown ==> !Takes(op, name)
      ensures sup.runtime != null ==>
                && sup.runtime.runs == old(sup.runtime.runs)
                && (forall n :: n != name ==> Sup.Untouched(n, old(sup.runtime.plain), sup.runtime.plain))
                && (r == Sup.Unknown ==>
                      || sup.runtime.plain == old(sup.runtime.plain)
                      || (op.Restart? && name !in sup.declared && sup.runtime.plain == Stopped(old(sup.runtime.plain), name)))
                && (r.Done? ==> Does(op, name, old(sup.runtime.plain), sup.runtime.plain, old(sup.runtime.nextId)))
    {
      hide Sup.Keyed, Sound;
      match op
      case Start => r := sup.Start(name);
      case Stop => r := sup.Stop(name);
      case Restart => r := sup.Restart(name);
      case Redeploy(file) =>
        match file
        case Missing => r := Sup.Unknown;
        case Unreadable => r := Sup.Failed;
        case Declares(svc) =>
          // The name inside a file has to be the file's own.
          if svc.name != name { return Sup.Failed; }
          r := sup.Deploy(svc);
    }

    /**
      One operation on one service: check, work, record. The counter moves exactly with an
      answer that something was done. For a start and a stop that is exactly when the machine
      changed; a restart and a redeploy always count.
    */
    method Mutate(expected: nat, name: string, op: Operation, entry: Audit.Entry, now: int) returns (code: Code)
      requires Valid()
      modifies sup, sup.runtime, store
      ensures Valid() && sup.runtime == old(sup.runtime)
      ensures name == "" <==> code == Invalid
      ensures name != "" ==> (code == Conflict <==> expected != 0 && expected != old(store.generation))
      ensures |store.history| == |old(store.history)| + (if code == Invalid then 0 else 1)
      ensures code != Invalid ==> store.history[|old(store.history)|].result == Verdict(code)
      ensures code != OK ==> store.generation == old(store.generation)
      ensures code == OK ==> sup.runtime != null && Does(op, name, old(sup.runtime.plain), sup.runtime.plain, old(sup.runtime.nextId))
      ensures code == OK ==>
                store.generation ==
                old(store.generation) + if op.Restart? || op.Redeploy? || sup.runtime.plain != old(sup.runtime.plain) then 1 else 0
      // A failed redeploy moves nothing in the counter, and leaves the new declaration all the same.
      ensures sup.declared == if (code == OK || code == Failed) && Takes(op, name) && sup.runtime != null
                              then old(sup.declared)[name := op.file.svc] else old(sup.declared)
      // A refusal leaves the machine alone, but for the restart of what nothing declares.
      ensures sup.runtime != null ==>
                && sup.runtime.runs == old(sup.runtime.runs)
                && (forall n :: n != name ==> Sup.Untouched(n, old(sup.runtime.plain), sup.runtime.plain))
                && (Refused(code) ==>
                      || sup.runtime.plain == old(sup.runtime.plain)
                      || (op.Restart? && code == NotFound && name !in sup.declared
                       && sup.runtime.plain == Stopped(old(sup.runtime.plain), name)))
    {
      hide Audit.Chain, Audit.Last, Audit.GenerationAfter, Sup.Keyed, Sound, Does, Stopped, Takes;
      if name == "" { return Invalid; }
      var current := store.Check(expected);
      if !current {
        Refuse(entry, now);
        return Conflict;
      }
      var r := Work(op, name);
      match r
      case Unknown =>
        Refuse(entry, now);
        code := NotFound;
      case Done(changed) =>
        var _ := store.Record(entry.(result := Audit.ResultOK), changed, now);
        code := OK;
      case _ =>
        var _ := store.Record(entry.(result := Audit.ResultFailed), false, now);
        code := Failed;
    }

    /**
      Takes a service off the machine: the declaration and the container, then its files. It
      looks at no generation, and where the files stay behind it leaves no entry.
    */
    method RemoveService(name: string, valid: bool, entry: Audit.Entry, now: int) returns (code: Code, ghost filesGone: bool)
      requires Valid()
      modifies sup, sup.runtime, store
      ensures Valid() && sup.runtime == old(sup.runtime)
      ensures code == Invalid <==> !valid
      ensures code == OK ==> filesGone && sup.runtime != null
      ensures store.generation == old(store.generation) + if code == OK then 1 else 0
      ensures |store.history| == |old(store.history)| + if code == Invalid || (code == Failed && !filesGone) then 0 else 1
      // The supervisor has let go of it in a failure of the files as well.
      ensures sup.declared == if code == OK || (code == Failed && !filesGone) then old(sup.declared) - {name} else old(sup.declared)
      ensures sup.runtime != null ==>
                && sup.runtime.runs == old(sup.runtime.runs)
                && Sup.TakenDown(old(sup.runtime.plain), sup.runtime.plain, name)
                && (Refused(code) ==> sup.runtime.plain == old(sup.runtime.plain))
    {
      hide Audit.Chain, Audit.Last, Audit.GenerationAfter, Sound, Stopped;
      filesGone := true;
      if !valid { return Invalid, filesGone; }
      var r := sup.Remove(if name in sup.declared then sup.declared[name] else Bare(name));
      if !r.Done? {
        var _ := store.Record(entry.(result := Audit.ResultFailed), false, now);
        return if r.Unknown? then NotFound else Failed, filesGone;
      }
      var gone := *;
      filesGone := gone;
      if !gone { return Failed, filesGone; }
      var _ := store.Record(entry.(result := Audit.ResultOK), true, now);
      code := OK;
    }
  }
}
