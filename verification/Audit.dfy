/**
  The generation and the audit (state/state.go): a counter tells one operator that
  another came first, and every attempt leaves an entry. Each method is one
  critical section, so any interleaving of callers is some order of these calls.
*/
module Audit {
  datatype Result = ResultOK | ResultRefused | ResultFailed

  datatype Entry = Entry(
    seq_: nat, time: int, actor: string, onBehalfOf: string, operation: string, target: string,
    before: nat, after: nat, result: Result, detail: string)

  const FIRST_GENERATION: nat := 1
  const MAX_AUDIT_MEMORY: nat := 1000
  const ACTOR_LOCAL: string := "local"

  function Last(s: seq<Entry>, n: nat): seq<Entry> {
    if |s| > n then s[|s| - n..] else s
  }

  /** The generation once `entries` were recorded from `start` on. */
  function GenerationAfter(start: nat, entries: seq<Entry>): nat {
    if entries == [] then start else entries[|entries| - 1].after
  }

  /**
    Each entry begins at the generation the one before it left, moves it by one or not at
    all, and carries the next number; only what went well moves it.
  */
  ghost predicate Chain(start: nat, first: nat, entries: seq<Entry>) {
    forall i :: 0 <= i < |entries| ==>
      && entries[i].seq_ == first + i + 1
      && entries[i].before == GenerationAfter(start, entries[..i])
      && (entries[i].after == entries[i].before || (entries[i].after == entries[i].before + 1 && entries[i].result == ResultOK))
  }

  predicate Changes(e: Entry) {
    e.after != e.before
  }

  class Store {
    var generation: nat
    var seq_: nat
    var recent: seq<Entry>
    // What was on disk when the store was opened, and everything recorded since.
    ghost var loaded: seq<Entry>
    ghost var start: nat
    ghost var first: nat
    ghost var history: seq<Entry>

    ghost predicate Valid()
      reads this
    {
      && Chain(start, first, history)
      && generation == GenerationAfter(start, history) && seq_ == first + |history|
      && recent == Last(loaded + history, MAX_AUDIT_MEMORY)
    }

    /** Opens on what the disk holds: a snapshot if there is one, and the audit as far as it could be read. */
    constructor (snapshot: bool, savedGeneration: nat, savedSeq: nat, audit: seq<Entry>)
      ensures Valid() && history == [] && loaded == audit
      ensures generation == if snapshot then savedGeneration else FIRST_GENERATION
      ensures recent == Last(audit, MAX_AUDIT_MEMORY)
    {
      generation := if snapshot then savedGeneration else FIRST_GENERATION;
      seq_ := if snapshot then savedSeq else 0;
      recent := if |audit| > MAX_AUDIT_MEMORY then audit[|audit| - MAX_AUDIT_MEMORY..] else audit;
      loaded, history := audit, [];
      start := if snapshot then savedGeneration else FIRST_GENERATION;
      first := if snapshot then savedSeq else 0;
      new;
      assert loaded + history == audit;
    }

    /** Zero claims nothing, which is allowed. */
    method Check(expected: nat) returns (ok: bool)
      requires Valid()
      ensures ok <==> expected == 0 || expected == generation
    {
      if expected == 0 { return true; }
      ok := expected == generation;
    }

    /** The counter goes up by one for a success that changed something, and for nothing else. */
    method Record(e: Entry, changed: bool, now: int) returns (after: nat)
      requires Valid()
      modifies this`generation, this`seq_, this`recent, this`history
      ensures Valid() && |history| == |old(history)| + 1 && history[..|old(history)|] == old(history)
      ensures generation == old(generation) + (if e.result == ResultOK && changed then 1 else 0)
      ensures var r := history[|old(history)|];
              && after == generation == r.after && r.before == old(generation)
              && r.actor == (if e.actor == "" then ACTOR_LOCAL else e.actor)
              && r.time == (if e.time == 0 then now else e.time)
              && r == e.(seq_ := r.seq_, before := r.before, after := r.after, actor := r.actor, time := r.time)
    {
      hide Chain, Last, GenerationAfter;
      var entry := e.(before := generation);
      if e.result == ResultOK && changed { generation := generation + 1; }
      seq_ := seq_ + 1;
      entry := entry.(after := generation, seq_ := seq_);
      if entry.time == 0 { entry := entry.(time := now); }
      if entry.actor == "" { entry := entry.(actor := ACTOR_LOCAL); }
      RecentGrows(loaded, history, entry);
      ChainGrows(start, first, history, entry);
      LastIs(recent + [entry], MAX_AUDIT_MEMORY);
      recent := recent + [entry];
      if |recent| > MAX_AUDIT_MEMORY { recent := recent[|recent| - MAX_AUDIT_MEMORY..]; }
      history := history + [entry];
      after := generation;
    }

    /** The newest entries, oldest of them first. */
    method Recent(limit: int) returns (out: seq<Entry>)
      requires Valid()
      ensures out == Last(loaded + history, if limit <= 0 || limit > MAX_AUDIT_MEMORY then MAX_AUDIT_MEMORY else limit)
    {
      var n := if limit <= 0 || limit > |recent| then |recent| else limit;
      out := recent[|recent| - n..];
    }
  }

  lemma LastIs(s: seq<Entry>, n: nat)
    ensures Last(s, n) == if |s| > n then s[|s| - n..] else s
  {
  }

  lemma RecentGrows(loaded: seq<Entry>, history: seq<Entry>, e: Entry)
    ensures Last(loaded + (history + [e]), MAX_AUDIT_MEMORY) == Last(Last(loaded + history, MAX_AUDIT_MEMORY) + [e], MAX_AUDIT_MEMORY)
  {
    assert loaded + (history + [e]) == loaded + history + [e];
  }

  lemma ChainGrows(start: nat, first: nat, entries: seq<Entry>, e: Entry)
    requires Chain(start, first, entries) && e.seq_ == first + |entries| + 1 && e.before == GenerationAfter(start, entries)
    requires e.after == e.before || (e.after == e.before + 1 && e.result == ResultOK)
    ensures Chain(start, first, entries + [e]) && GenerationAfter(start, entries + [e]) == e.after
  {
    var more := entries + [e];
    forall i | 0 <= i < |more|
      ensures && more[i].seq_ == first + i + 1
              && more[i].before == GenerationAfter(start, more[..i])
              && (more[i].after == more[i].before || (more[i].after == more[i].before + 1 && more[i].result == ResultOK))
    {
      assert more[..i] == entries[..i];
      assert i == |entries| ==> entries[..i] == entries;
    }
  }

  function CountChanges(entries: seq<Entry>): nat {
    if entries == [] then 0
    else CountChanges(entries[..|entries| - 1]) + if Changes(entries[|entries| - 1]) then 1 else 0
  }

  /** The counter counts: it stands at what it began with plus the entries that changed something. */
  lemma {:induction false} GenerationCounts(start: nat, first: nat, entries: seq<Entry>, i: nat)
    requires Chain(start, first, entries) && i <= |entries|
    ensures GenerationAfter(start, entries[..i]) == start + CountChanges(entries[..i])
  {
    if i == 0 {
    } else {
      GenerationCounts(start, first, entries, i - 1);
      assert entries[..i][..i - 1] == entries[..i - 1] && entries[..i][i - 1] == entries[i - 1];
      assert entries[i - 1].before == GenerationAfter(start, entries[..i - 1]);
    }
  }

  lemma {:induction false} CountsAgree(entries: seq<Entry>, i: nat, j: nat)
    requires i <= j <= |entries|
    ensures CountChanges(entries[..i]) <= CountChanges(entries[..j])
    ensures CountChanges(entries[..i]) == CountChanges(entries[..j]) <==> forall k :: i <= k < j ==> !Changes(entries[k])
  {
    if i == j {
    } else {
      CountsAgree(entries, i, j - 1);
      assert entries[..j][..j - 1] == entries[..j - 1] && entries[..j][j - 1] == entries[j - 1];
    }
  }

  /**
    What was seen at one point is claimed at a later one: the claim passes exactly when
    nothing recorded in between changed anything.
  */
  lemma ClaimHoldsIffNothingChanged(start: nat, first: nat, history: seq<Entry>, seen: nat, now: nat)
    requires Chain(start, first, history) && seen <= now <= |history|
    ensures GenerationAfter(start, history[..now]) == GenerationAfter(start, history[..seen]) <==>
              forall k :: seen <= k < now ==> !Changes(history[k])
  {
    GenerationCounts(start, first, history, seen);
    GenerationCounts(start, first, history, now);
    CountsAgree(history, seen, now);
  }

  /**
    The check and the record are two critical sections, and others may come in between. The
    entry tells: it begins at the generation that was checked exactly when nobody changed
    anything in the meantime.
  */
  lemma EntryTellsOfARace(start: nat, first: nat, history: seq<Entry>, checked: nat, mine: nat)
    requires Chain(start, first, history) && checked <= mine < |history|
    ensures history[mine].before == GenerationAfter(start, history[..checked]) <==>
              forall k :: checked <= k < mine ==> !Changes(history[k])
  {
    ClaimHoldsIffNothingChanged(start, first, history, checked, mine);
  }

  /** Two operators who looked at the same generation can both pass the check and both change the host. */
  method TwoCanPass(store: Store, mine: Entry, yours: Entry)
    requires store.Valid() && mine.result == ResultOK && yours.result == ResultOK && store.generation > 0
    modifies store
    ensures store.Valid() && store.generation == old(store.generation) + 2
    ensures |store.history| == |old(store.history)| + 2
    ensures store.history[|old(store.history)| + 1].before == old(store.generation) + 1
  {
    var seen := store.generation;
    var a := store.Check(seen);
    var b := store.Check(seen);
    if a && b {
      var g := store.Record(mine, true, 0);
      g := store.Record(yours, true, 0);
    }
  }
}
