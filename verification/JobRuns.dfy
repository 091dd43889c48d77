/**
  Beginning a run of a job, one caller at a time (supervisor/schedule.go): what is already
  going decides whether another may begin, whoever asked. A runtime call that fails has had
  no effect.
*/
module JobRuns {
  import opened Options
  import opened Ordering
  import opened Services
  import opened Runtime

  datatype Begun = Started(id: nat) | Refused | Failed

  type Runs = map<nat, RunContainer>

  /** The job's containers that still run. */
  function LiveOf(runs: Runs, name: string): set<nat> {
    set id | id in runs && runs[id].service == name && runs[id].running
  }

  function Named(runs: Runs, name: string, run: string): set<nat> {
    set id | id in runs && runs[id].service == name && runs[id].run == run
  }

  /** The declaration's own ceiling: one where runs must not overlap, and so many where they may. */
  function Ceiling(svc: Service): int {
    if svc.overlap == "skip" && svc.Parallel() > 1 then 1 else svc.Parallel()
  }

  lemma OneMoreLive(runs: Runs, id: nat, svc: Service, run: string)
    requires id !in runs
    ensures LiveOf(runs[id := RunContainer(svc.name, run, true)], svc.name) == LiveOf(runs, svc.name) + {id}
    ensures LiveOf(runs[id := RunContainer(svc.name, run, false)], svc.name) == LiveOf(runs, svc.name)
  {
  }

  lemma FewerLive(runs: Runs, gone: set<nat>, name: string)
    ensures LiveOf(runs - gone, name) == LiveOf(runs, name) - gone
    ensures |LiveOf(runs - gone, name)| <= |LiveOf(runs, name)|
  {
    var left := LiveOf(runs - gone, name);
    assert left == LiveOf(runs, name) - gone;
    assert LiveOf(runs, name) == left + LiveOf(runs, name) * gone;
  }

  class Jobs {
    var runs: Runs
    var nextId: nat

    ghost predicate Valid()
      reads this
    {
      forall id :: id in runs ==> id < nextId
    }

    constructor ()
      ensures Valid() && runs == map[]
    {
      runs, nextId := map[], 0;
    }

    method RunsOf(name: string) returns (ok: bool, live: set<nat>)
      ensures ok ==> live == LiveOf(runs, name)
    {
      live, ok := {}, *;
      if !ok { return; }
      var todo := runs.Keys;
      while todo != {}
        invariant todo <= runs.Keys && live == LiveOf(runs, name) - todo
        decreases |todo|
      {
        var id :| id in todo;
        todo := todo - {id};
        if runs[id].service == name && runs[id].running { live := live + {id}; }
      }
    }

    /** Builds the container of one run. Whatever still goes by that run's name goes first. */
    method BuildRun(svc: Service, run: string) returns (ok: bool, id: nat)
      requires Valid()
      modifies this
      ensures Valid() && (ok ==> id !in old(runs))
      ensures ok ==> runs == (old(runs) - Named(old(runs), svc.name, run))[id := RunContainer(svc.name, run, false)]
      ensures !ok ==> runs == old(runs) || runs == old(runs) - Named(old(runs), svc.name, run)
    {
      ok, id := *, 0;
      if !ok { return; }
      runs := runs - Named(runs, svc.name, run);
      ok := *;
      if !ok { return; }
      id := nextId;
      nextId := nextId + 1;
      runs := runs[id := RunContainer(svc.name, run, false)];
    }

    /** Builds and starts it. A container that would not start is taken away again. */
    method CreateRun(svc: Service, run: string) returns (ok: bool, id: nat)
      requires Valid()
      modifies this
      ensures Valid()
      ensures ok ==> id !in old(runs) && runs == (old(runs) - Named(old(runs), svc.name, run))[id := RunContainer(svc.name, run, true)]
      ensures !ok ==> LiveOf(runs, svc.name) <= LiveOf(old(runs), svc.name)
      ensures forall other :: other in old(runs) && other !in Named(old(runs), svc.name, run) ==> other in runs && runs[other] == old(runs)[other]
    {
      hide LiveOf, Named;
      ghost var before, gone := runs, Named(runs, svc.name, run);
      FewerLive(before, gone, svc.name);
      ok, id := BuildRun(svc, run);
      if !ok { return; }
      OneMoreLive(before - gone, id, svc, run);
      ok := *;
      assert id in runs;
      if ok {
        runs := runs[id := RunContainer(svc.name, run, true)];
        return;
      }
      var removed := *;
      if removed {
        FewerLive(runs, {id}, svc.name);
        runs := runs - {id};
      }
    }

    /**
      Begins one run unless what is going already says not to. With one caller at a time, no
      more go at once than the declaration allows, and a refusal changes nothing.
    */
    method StartRun(svc: Service, run: string) returns (r: Begun)
      requires Valid()
      modifies this
      ensures Valid()
      ensures r == Refused ==> runs == old(runs) && |LiveOf(runs, svc.name)| >= Ceiling(svc)
      ensures r.Started? ==>
                && |LiveOf(old(runs), svc.name)| < Ceiling(svc)
                && r.id !in old(runs) && r.id in LiveOf(runs, svc.name) && runs[r.id].run == run
      ensures |LiveOf(old(runs), svc.name)| <= Ceiling(svc) ==> |LiveOf(runs, svc.name)| <= Ceiling(svc)
      ensures forall id :: id in old(runs) && id !in Named(old(runs), svc.name, run) ==> id in runs && runs[id] == old(runs)[id]
    {
      var listed, live := RunsOf(svc.name);
      if !listed { return Failed; }
      if svc.overlap == "skip" && |live| > 0 { return Refused; }
      if |live| >= svc.Parallel() { return Refused; }
      ghost var before := runs;
      var ok, id := CreateRun(svc, run);
      if !ok {
        SmallerSet(LiveOf(runs, svc.name), LiveOf(before, svc.name));
        return Failed;
      }
      var gone := Named(before, svc.name, run);
      FewerLive(before, gone, svc.name);
      OneMoreLive(before - gone, id, svc, run);
      return Started(id);
    }
  }
}
