/**
  From the scheduler's log to the starts of runs (supervisor/schedule.go): a firing becomes a
  start that carries the milliseconds of its slot, a hand's request one that carries its own.
*/
module Timetable {
  import opened Options
  import opened Scheduler
  import RunLife

  /** Who asked for a start: the clock, by a firing in its log, or a hand. */
  datatype Asker = Clock(firing: nat) | Hand

  function NameOf(f: Firing): RunLife.Name {
    RunLife.Name(f.name, RunId(f.slot))
  }

  /** Every start is a hand's, or that of a firing which nothing else starts. */
  ghost predicate Started(starts: seq<RunLife.Event>, log: seq<Firing>, askers: seq<Asker>) {
    && |askers| == |starts|
    && (forall i :: 0 <= i < |starts| && starts[i].Begin? && askers[i].Clock? ==>
          askers[i].firing < |log| && starts[i].name == NameOf(log[askers[i].firing]))
    && (forall i, j :: 0 <= i < j < |starts| && starts[i].Begin? && starts[j].Begin? && askers[i].Clock? && askers[j].Clock? ==>
          askers[i].firing != askers[j].firing)
  }

  /** No hand asked at a millisecond some other start of the service is named for. */
  ghost predicate HandsApart(starts: seq<RunLife.Event>, askers: seq<Asker>)
    requires |askers| == |starts|
  {
    forall i, j :: 0 <= i < j < |starts| && starts[i].Begin? && starts[j].Begin? && (askers[i].Hand? || askers[j].Hand?) ==>
      starts[i].name != starts[j].name
  }

  /** Every job fired keeps one schedule, of a second or more. */
  ghost predicate Steady(events: seq<Event>, log: seq<Firing>, interval: string -> int) {
    forall f :: f in log ==> exists every: nat :: every >= SECOND && Every(events, f.name, every, interval)
  }

  /** Different firings start runs of different names. */
  lemma FiringsAreApart(states: seq<State>, events: seq<Event>, interval: string -> int, i: nat, j: nat)
    requires IsRun(states, events, interval) && Forward(events) && Steady(events, states[|events|].log, interval)
    requires i < j < |states[|events|].log|
    ensures NameOf(states[|events|].log[i]) != NameOf(states[|events|].log[j])
  {
    hide Step, Forward, Every, SlotOf;
    var log := states[|events|].log;
    var f, g := log[i], log[j];
    if f.name == g.name {
      var every: nat :| every >= SECOND && Every(events, f.name, every, interval);
      NoSlotTwice(states, events, f.name, every, interval);
      assert f in log && g in log;
      RunIdsAreDistinct(f.slot, g.slot, every);
    }
  }

  /**
    Over any ticks and restarted daemons, with a clock that does not go back and schedules
    left as they are: no two starts have one name exactly when hands kept off the milliseconds
    other starts are named for.
  */
  lemma StartsAreDistinctExactlyWhen(states: seq<State>, events: seq<Event>, interval: string -> int,
                                     starts: seq<RunLife.Event>, askers: seq<Asker>)
    requires IsRun(states, events, interval) && Forward(events) && Steady(events, states[|events|].log, interval)
    requires Started(starts, states[|events|].log, askers)
    ensures RunLife.DistinctStarts(starts) <==> HandsApart(starts, askers)
  {
    hide IsRun, Forward, Steady;
    if HandsApart(starts, askers) {
      forall i, j | 0 <= i < j < |starts| && starts[i].Begin? && starts[j].Begin? ensures starts[i].name != starts[j].name {
        if askers[i].Clock? && askers[j].Clock? {
          var a, b := askers[i].firing, askers[j].firing;
          if a < b {
            FiringsAreApart(states, events, interval, a, b);
          } else {
            FiringsAreApart(states, events, interval, b, a);
          }
        }
      }
    }
  }

  /** From the clock to the ledger: what was fired by the clock, or by hands apart from it, is not lost in a fair run. */
  lemma WhatIsFiredIsNotLost(states: seq<State>, events: seq<Event>, interval: string -> int,
                             starts: seq<RunLife.Event>, askers: seq<Asker>, strict: bool)
    requires IsRun(states, events, interval) && Forward(events) && Steady(events, states[|events|].log, interval)
    requires Started(starts, states[|events|].log, askers) && HandsApart(starts, askers)
    requires RunLife.AlwaysFair(RunLife.START, starts, strict)
    ensures var b := RunLife.Run(RunLife.START, starts).book;
            b.killed == {} && b.lost !! b.began && (strict ==> b.mistaken == {})
  {
    hide IsRun, Forward, Steady, Started, HandsApart;
    StartsAreDistinctExactlyWhen(states, events, interval, starts, askers);
    RunLife.NoRunIsLost(starts, strict);
  }
}
