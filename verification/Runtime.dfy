/**
  The container runtime as hostd sees it: a foreign daemon whose calls may fail. A call
  that reports failure has had no effect here. Containers are keyed by the service they
  are named for; the runs of a job are kept apart from them.
*/
module Runtime {
  import opened Options
  import opened Services
  import opened Plan

  datatype Container = Container(id: nat, built: Service, running: bool, policy: string)
  datatype RunContainer = RunContainer(service: string, run: string, running: bool)

  type Containers = map<string, Container>

  /** A call that changes something, as it went out. */
  datatype Call = StopCall(name: string) | RemoveCall(name: string) | CreateCall(svc: Service)
                | StartCall(name: string) | PolicyCall(name: string, policy: string)

  function Stopped(plain: Containers, name: string): Containers {
    if name in plain then plain[name := plain[name].(running := false)] else plain
  }

  function Without(plain: Containers, name: string): Containers {
    plain - {name}
  }

  /** What `create` leaves behind when all goes well. */
  function Fresh(svc: Service, id: nat, running: bool): Container {
    Container(id, svc, running, RestartPolicy(svc))
  }

  /** Every container is named for the service it was built from, under a number already given out. */
  ghost predicate Sound(plain: Containers, nextId: nat) {
    forall n :: n in plain ==> plain[n].built.name == n && plain[n].id < nextId
  }

  /** `found` lists every container of the machine, runs included, in some order. */
  ghost predicate IsListing(found: seq<Held>, plain: Containers, runs: map<nat, RunContainer>) {
    && (forall h :: h in found && h.run == "" ==>
          h.service in plain && plain[h.service].id == h.id && plain[h.service].running == h.running)
    && (forall h :: h in found && h.run != "" ==>
          h.id in runs && runs[h.id] == RunContainer(h.service, h.run, h.running))
    && (forall n :: n in plain ==> Held(plain[n].id, n, "", plain[n].running) in found)
    && (forall id :: id in runs && runs[id].run != "" ==>
          Held(id, runs[id].service, runs[id].run, runs[id].running) in found)
  }

  class Client {
    var plain: Containers
    var runs: map<nat, RunContainer>
    var nextId: nat
    ghost var calls: seq<Call>

    constructor ()
      ensures plain == map[] && runs == map[] && nextId == 0 && calls == []
    {
      plain, runs, nextId, calls := map[], map[], 0, [];
    }

    method List() returns (ok: bool, found: seq<Held>)
      ensures ok ==> IsListing(found, plain, runs)
      ensures !ok ==> found == []
    {
      ok, found := *, [];
      if !ok { return; }
      var names := plain.Keys;
      while names != {}
        invariant names <= plain.Keys
        invariant forall h :: h in found <==>
          h.run == "" && h.service in plain && h.service !in names
          && h.id == plain[h.service].id && h.running == plain[h.service].running
        decreases |names|
      {
        var n :| n in names;
        names := names - {n};
        found := found + [Held(plain[n].id, n, "", plain[n].running)];
      }
      var ids := runs.Keys;
      ghost var first := found;
      while ids != {}
        invariant ids <= runs.Keys
        invariant forall h :: h in found <==>
          (h in first || (h.run != "" && h.id in runs && h.id !in ids && runs[h.id] == RunContainer(h.service, h.run, h.running)))
        decreases |ids|
      {
        var id :| id in ids;
        ids := ids - {id};
        if runs[id].run != "" {
          found := found + [Held(id, runs[id].service, runs[id].run, runs[id].running)];
        }
      }
    }

    method Inspect(name: string) returns (ok: bool, found: Option<Container>)
      ensures ok ==> found == if name in plain then Some(plain[name]) else None
    {
      ok := *;
      found := if name in plain then Some(plain[name]) else None;
    }

    method Stop(name: string) returns (ok: bool)
      modifies `plain, `calls
      ensures calls == old(calls) + [StopCall(name)]
      ensures plain == if ok then Stopped(old(plain), name) else old(plain)
    {
      ok := *;
      calls := calls + [StopCall(name)];
      if ok && name in plain {
        plain := plain[name := plain[name].(running := false)];
      }
    }

    method Remove(name: string) returns (ok: bool)
      modifies `plain, `calls
      ensures calls == old(calls) + [RemoveCall(name)]
      ensures plain == if ok then Without(old(plain), name) else old(plain)
    {
      ok := *;
      calls := calls + [RemoveCall(name)];
      if ok {
        plain := plain - {name};
      }
    }

    /** A name already taken is refused. */
    method Create(svc: Service) returns (ok: bool)
      modifies `plain, `nextId, `calls
      ensures calls == old(calls) + [CreateCall(svc)]
      ensures ok ==> svc.name !in old(plain)
      ensures plain == if ok then old(plain)[svc.name := Fresh(svc, old(nextId), false)] else old(plain)
      ensures nextId == if ok then old(nextId) + 1 else old(nextId)
    {
      ok := *;
      ok := ok && svc.name !in plain;
      calls := calls + [CreateCall(svc)];
      if ok {
        plain := plain[svc.name := Fresh(svc, nextId, false)];
        nextId := nextId + 1;
      }
    }

    method Start(name: string) returns (ok: bool)
      modifies `plain, `calls
      ensures calls == old(calls) + [StartCall(name)]
      ensures ok ==> name in old(plain)
      ensures plain == if ok then old(plain)[name := old(plain)[name].(running := true)] else old(plain)
    {
      ok := *;
      ok := ok && name in plain;
      calls := calls + [StartCall(name)];
      if ok {
        plain := plain[name := plain[name].(running := true)];
      }
    }

    method UpdateRestart(name: string, policy: string) returns (ok: bool)
      modifies `plain, `calls
      ensures calls == old(calls) + [PolicyCall(name, policy)]
      ensures ok ==> name in old(plain)
      ensures plain == if ok then old(plain)[name := old(plain)[name].(policy := policy)] else old(plain)
    {
      ok := *;
      ok := ok && name in plain;
      calls := calls + [PolicyCall(name, policy)];
      if ok {
        plain := plain[name := plain[name].(policy := policy)];
      }
    }

    /** Ports, mounts, the network and the image: everything `create` asks before it changes anything. */
    method Prepare() returns (ok: bool)
    {
      ok := *;
    }
  }
}
