/**
  The plan (supervisor/plan.go): what an apply would change, computed from what the
  machine believes, what the files say and what the runtime is running.
*/
module Plan {
  import opened Options
  import opened Services
  import Ordering

  datatype Action = Add | Remove | Update {
    /** `strings.Compare` on "add", "remove" and "update". */
    function Rank(): nat {
      match this case Add => 0 case Remove => 1 case Update => 2
    }
  }

  datatype Detail = Undeclared(every: string) | Declared(every: string, state: string) | Changed(was: Service, now: Service)

  datatype Change = Change(service: string, action: Action, detail: Detail, destructive: bool, disruptive: bool)

  type Declarations = map<string, Service>

  /** One container as the runtime lists it. Runs of a job carry the service's name too. */
  datatype Held = Held(id: nat, service: string, run: string, running: bool)

  /** The declarations by name; the later of two wins, as it does in a Go map. */
  function ByName(declared: seq<Service>): (m: Declarations)
    ensures forall n :: n in m ==> m[n].name == n && m[n] in declared
    ensures forall svc :: svc in declared ==> svc.name in m
  {
    if declared == [] then map[]
    else ByName(declared[..|declared| - 1])[declared[|declared| - 1].name := declared[|declared| - 1]]
  }

  /** Which services have something running. The last container listed has the say. */
  function Live(found: seq<Held>): map<string, bool> {
    if found == [] then map[]
    else Live(found[..|found| - 1])[found[|found| - 1].service := found[|found| - 1].running]
  }

  predicate IsLive(live: map<string, bool>, name: string) {
    name in live && live[name]
  }

  /** Entry `i` is the last one that carries the name. */
  ghost predicate IsLast(found: seq<Held>, name: string, i: int) {
    && 0 <= i < |found| && found[i].service == name
    && forall j :: i < j < |found| ==> found[j].service != name
  }

  /** By the listing the service runs: the last entry that carries its name does. */
  ghost predicate SaidToRun(found: seq<Held>, name: string) {
    exists i :: IsLast(found, name, i) && found[i].running
  }

  lemma {:induction false} LiveIsLast(found: seq<Held>, name: string)
    ensures name in Live(found) <==> exists i :: IsLast(found, name, i)
    ensures IsLive(Live(found), name) <==> SaidToRun(found, name)
  {
    if found == [] {
    } else {
      var k := |found| - 1;
      var front := found[..k];
      LiveIsLast(front, name);
      if found[k].service == name {
        assert IsLast(found, name, k);
      } else {
        forall i ensures IsLast(found, name, i) <==> IsLast(front, name, i) {
          if IsLast(front, name, i) { assert forall j :: i < j < k ==> found[j] == front[j]; }
          if IsLast(found, name, i) { assert forall j :: i < j < k ==> front[j] == found[j]; }
        }
      }
    }
  }

  /** What the plan says about one service, if anything. */
  function ChangeFor(known: Declarations, wanted: Declarations, live: map<string, bool>, name: string): Option<Change> {
    if name in known then
      if name !in wanted then
        Some(Change(name, Remove, Undeclared(known[name].every), IsLive(live, name), false))
      else if SameDefinition(known[name], wanted[name]) then None
      else Some(Change(name, Update, Changed(known[name], wanted[name]), false, IsLive(live, name)))
    else if name in wanted then Some(Change(name, Add, Declared(wanted[name].every, wanted[name].state), false, false))
    else None
  }

  ghost predicate ByService(changes: seq<Change>) {
    forall i, j :: 0 <= i < j < |changes| ==> Ordering.Before(changes[i].service, changes[j].service)
  }

  /** In strict order of service, and exactly what there is to say about each. */
  ghost predicate IsPlan(changes: seq<Change>, known: Declarations, wanted: Declarations, live: map<string, bool>) {
    && ByService(changes)
    && forall c :: c in changes <==> ChangeFor(known, wanted, live, c.service) == Some(c)
  }

  /** `cmp.Or(strings.Compare(a.Service, b.Service), strings.Compare(a.Action, b.Action)) <= 0`. */
  predicate InOrder(a: Change, b: Change) {
    Ordering.Before(a.service, b.service) || (a.service == b.service && a.action.Rank() <= b.action.Rank())
  }

  lemma ChangesAreOrdered()
    ensures Ordering.TotalOrder(InOrder)
  {
    forall a, b ensures InOrder(a, b) || InOrder(b, a) {
      Ordering.BeforeIsTotal(a.service, b.service);
    }
    forall a, b, c | InOrder(a, b) && InOrder(b, c) ensures InOrder(a, c) {
      if Ordering.Before(a.service, b.service) && Ordering.Before(b.service, c.service) {
        Ordering.BeforeIsTransitive(a.service, b.service, c.service);
      }
    }
  }

  /** One change per service, so the order of the sort is strict. */
  lemma SortedPlan(changes: seq<Change>)
    requires Ordering.Sorted(changes, InOrder)
    requires forall i, j :: 0 <= i < j < |changes| ==> changes[i].service != changes[j].service
    ensures ByService(changes)
  {
    forall i, j | 0 <= i < j < |changes| ensures Ordering.Before(changes[i].service, changes[j].service) {
      assert InOrder(changes[i], changes[j]);
    }
  }

  /** The plan is a function of the three maps: no iteration order shows through. */
  lemma PlanIsUnique(a: seq<Change>, b: seq<Change>, known: Declarations, wanted: Declarations, live: map<string, bool>)
    requires IsPlan(a, known, wanted, live) && IsPlan(b, known, wanted, live)
    ensures a == b
  {
    PlanIsDistinct(a);
    PlanIsDistinct(b);
    Ordering.SameMembers(a, b);
    ChangesAreOrdered();
    Ordering.SortedIsUnique(a, b, InOrder);
  }

  lemma PlanIsDistinct(changes: seq<Change>)
    requires ByService(changes)
    ensures Ordering.Distinct(changes) && Ordering.Sorted(changes, InOrder)
    ensures Ordering.Antisymmetric(changes, InOrder)
    ensures forall i, j :: 0 <= i < j < |changes| ==> changes[i].service != changes[j].service
  {
    forall i, j | 0 <= i < j < |changes|
      ensures changes[i].service != changes[j].service && InOrder(changes[i], changes[j]) && !InOrder(changes[j], changes[i])
    {
      assert Ordering.Before(changes[i].service, changes[j].service);
      Ordering.BeforeIsAsymmetric(changes[i].service, changes[j].service);
    }
  }

  /** Nothing to change means: the same services, each defined as before. */
  lemma EmptyPlan(known: Declarations, wanted: Declarations, live: map<string, bool>)
    ensures IsPlan([], known, wanted, live) <==>
            known.Keys == wanted.Keys && forall n :: n in known && n in wanted ==> SameDefinition(known[n], wanted[n])
  {
    if IsPlan([], known, wanted, live) {
      var none: seq<Change> := [];
      forall n ensures ChangeFor(known, wanted, live, n) == None {
        var c := match ChangeFor(known, wanted, live, n)
                 case Some(change) => change
                 case None => Change(n, Add, Undeclared(""), false, false);
        assert c in none <==> ChangeFor(known, wanted, live, c.service) == Some(c);
      }
      forall n ensures n in known <==> n in wanted
               ensures n in known && n in wanted ==> SameDefinition(known[n], wanted[n])
      {
        assert ChangeFor(known, wanted, live, n) == None;
      }
    }
  }

  predicate HasDestructive(changes: seq<Change>) {
    exists c :: c in changes && c.destructive
  }

  /** The changes that stop something for good, in the plan's own order. */
  function Destructive(changes: seq<Change>): (gone: seq<Change>)
    ensures forall c :: c in gone <==> c in changes && c.destructive
  {
    if changes == [] then []
    else (if changes[0].destructive then [changes[0]] else []) + Destructive(changes[1..])
  }

  /** A plan asks for permission exactly when it takes away a service that is running. */
  lemma DestructiveMeansTakenAway(changes: seq<Change>, known: Declarations, wanted: Declarations, live: map<string, bool>)
    requires IsPlan(changes, known, wanted, live)
    ensures HasDestructive(changes) <==> exists n :: n in known && n !in wanted && IsLive(live, n)
    ensures HasDestructive(changes) <==> Destructive(changes) != []
  {
    if HasDestructive(changes) {
      var c :| c in changes && c.destructive;
      assert c in Destructive(changes);
      assert c.service in known && c.service !in wanted && IsLive(live, c.service);
    }
    if Destructive(changes) != [] {
      assert Destructive(changes)[0] in changes;
    }
    if n :| n in known && n !in wanted && IsLive(live, n) {
      var c := ChangeFor(known, wanted, live, n).value;
      assert c in changes && c.destructive;
    }
  }

  /** The first pass: what the services known here come to. */
  method CollectKnown(known: Declarations, wanted: Declarations, live: map<string, bool>) returns (collected: seq<Change>)
    ensures Covers(collected, known, wanted, live, known.Keys)
  {
    collected := [];
    var todo := known.Keys;
    ghost var covered: set<string> := {};
    while todo != {}
      invariant covered + todo == known.Keys && covered !! todo
      invariant Covers(collected, known, wanted, live, covered)
      decreases |todo|
    {
      var name :| name in todo;
      Extend(collected, known, wanted, live, covered, name);
      todo, covered := todo - {name}, covered + {name};
      match ChangeFor(known, wanted, live, name)
      case None =>
      case Some(change) => collected := collected + [change];
    }
  }

  /** The second pass: the services nobody here knew. */
  method CollectAdded(known: Declarations, wanted: Declarations, live: map<string, bool>, first: seq<Change>)
    returns (collected: seq<Change>)
    requires Covers(first, known, wanted, live, known.Keys)
    ensures Covers(collected, known, wanted, live, known.Keys + wanted.Keys)
  {
    collected := first;
    var todo := wanted.Keys;
    ghost var covered := known.Keys;
    while todo != {}
      invariant todo <= wanted.Keys
      invariant forall n :: n in covered <==> n in known || (n in wanted && n !in todo)
      invariant Covers(collected, known, wanted, live, covered)
      decreases |todo|
    {
      var name :| name in todo;
      todo := todo - {name};
      if name in known {
        continue;
      }
      Extend(collected, known, wanted, live, covered, name);
      covered := covered + {name};
      match ChangeFor(known, wanted, live, name)
      case None =>
      case Some(change) => collected := collected + [change];
    }
    assert covered == known.Keys + wanted.Keys;
  }

  /** Two passes in whatever order the maps answer, then a sort in place. */
  method Compute(known: Declarations, wanted: Declarations, live: map<string, bool>) returns (changes: seq<Change>)
    ensures IsPlan(changes, known, wanted, live)
  {
    var collected := CollectKnown(known, wanted, live);
    collected := CollectAdded(known, wanted, live, collected);
    var a := new Change[|collected|](i requires 0 <= i < |collected| => collected[i]);
    assert a[..] == collected;
    Ordering.SortInPlace(a, InOrder);
    changes := a[..];
    FinishPlan(collected, known, wanted, live);
  }

  /** `collected` says what there is to say about the services of `names`, once each. */
  ghost predicate Covers(collected: seq<Change>, known: Declarations, wanted: Declarations, live: map<string, bool>, names: set<string>) {
    && Ordering.Distinct(collected)
    && forall c :: c in collected <==> c.service in names && ChangeFor(known, wanted, live, c.service) == Some(c)
  }

  lemma Extend(collected: seq<Change>, known: Declarations, wanted: Declarations, live: map<string, bool>, names: set<string>, name: string)
    requires Covers(collected, known, wanted, live, names) && name !in names
    ensures var change := ChangeFor(known, wanted, live, name);
            Covers(if change.Some? then collected + [change.value] else collected, known, wanted, live, names + {name})
  {
    var change := ChangeFor(known, wanted, live, name);
    var after := if change.Some? then collected + [change.value] else collected;
    if change.Some? {
      assert change.value !in collected;
      forall i, j | 0 <= i < j < |after| ensures after[i] != after[j] {
        assert i < |collected| && after[i] in collected;
      }
    }
    forall c ensures c in after <==> c.service in names + {name} && ChangeFor(known, wanted, live, c.service) == Some(c) {
      assert c in after <==> c in collected || (change.Some? && c == change.value);
    }
  }

  lemma FinishPlan(collected: seq<Change>, known: Declarations, wanted: Declarations, live: map<string, bool>)
    requires Covers(collected, known, wanted, live, known.Keys + wanted.Keys)
    ensures IsPlan(Ordering.Sort(collected, InOrder), known, wanted, live)
  {
    var sorted := Ordering.Sort(collected, InOrder);
    ChangesAreOrdered();
    Ordering.SortSorts(collected, InOrder);
    Ordering.SortPermutes(collected, InOrder);
    Ordering.DistinctCount(collected);
    forall i, j | 0 <= i < j < |sorted| ensures sorted[i].service != sorted[j].service {
      if sorted[i] == sorted[j] {
        Ordering.RepeatCounts(sorted, i, j);
      }
      assert sorted[i] in collected && sorted[j] in collected;
    }
    SortedPlan(sorted);
  }
}
