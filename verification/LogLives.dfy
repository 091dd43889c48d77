/**
  The numbers of a log over the lives of its store (logs/store.go): each opening goes on from
  the highest row it finds, which need not be the highest number given out before.
*/
module LogLives {
  import opened LogStore

  /** One life: the store as it was opened, and what happened up to its end, a sudden one too. */
  datatype Life = Life(start: State, events: seq<Event>)

  ghost function First(l: Life): nat {
    l.start.pipe.first
  }

  ghost function EndOf(l: Life): Pipe {
    Run(l.start, l.events).pipe
  }

  /** Zero for an empty table. */
  ghost predicate IsHighest(table: map<nat, Record>, n: nat) {
    (forall m :: m in table ==> m <= n) && (if table == map[] then n == 0 else n in table)
  }

  /** Each opening finds the table as the life before left it. */
  ghost predicate AreLives(lives: seq<Life>) {
    && lives != []
    && (forall i :: 0 <= i < |lives| ==> Opened(lives[i].start) && IsHighest(lives[i].start.pipe.table, First(lives[i])))
    && (forall i {:trigger lives[i].start} :: 0 < i < |lives| ==> lives[i].start.pipe.table == EndOf(lives[i - 1]).table)
  }

  ghost predicate Draws(l: Life, n: nat) {
    First(l) < n <= EndOf(l).last
  }

  /** The highest number given out before life `i`: what the first life found, and what the lives drew. */
  ghost function HighestDrawn(lives: seq<Life>, i: nat): nat
    requires i <= |lives| && lives != []
  {
    if i == 0 then First(lives[0])
    else
      var before := HighestDrawn(lives, i - 1);
      if EndOf(lives[i - 1]).last > before then EndOf(lives[i - 1]).last else before
  }

  /** Given out before life `i`. */
  ghost predicate DrawnBefore(lives: seq<Life>, i: nat, n: nat)
    requires i <= |lives| && lives != []
  {
    0 < n <= First(lives[0]) || exists j :: 0 <= j < i && Draws(lives[j], n)
  }

  /** What was given out last is still stored when life `i` opens, if anything was. */
  ghost predicate TopIsStored(lives: seq<Life>, i: nat)
    requires i < |lives|
  {
    HighestDrawn(lives, i) == 0 || HighestDrawn(lives, i) in lives[i].start.pipe.table
  }

  lemma LifeGoesUp(l: Life)
    requires Opened(l.start)
    ensures First(l) <= EndOf(l).last && forall n :: n in EndOf(l).table ==> n <= EndOf(l).last
  {
    RunNumbers(l.start, l.events);
  }

  lemma {:induction false} OpensAtMostThere(lives: seq<Life>, i: nat)
    requires AreLives(lives) && i < |lives|
    ensures First(lives[i]) <= HighestDrawn(lives, i)
    ensures First(lives[i]) == HighestDrawn(lives, i) <==> TopIsStored(lives, i)
  {
    if i == 0 {
    } else {
      LifeGoesUp(lives[i - 1]);
      assert lives[i].start.pipe.table == EndOf(lives[i - 1]).table;
    }
  }

  /** Nothing up to the highest number was skipped. */
  lemma {:induction false} EverythingBelowWasDrawn(lives: seq<Life>, i: nat, n: nat)
    requires AreLives(lives) && i <= |lives| && 0 < n <= HighestDrawn(lives, i)
    ensures DrawnBefore(lives, i, n)
  {
    hide AreLives, EndOf, First, TopIsStored;
    if i == 0 {
    } else if n <= HighestDrawn(lives, i - 1) {
      EverythingBelowWasDrawn(lives, i - 1, n);
    } else {
      OpensAtMostThere(lives, i - 1);
      assert Draws(lives[i - 1], n);
    }
  }

  lemma {:induction false} DrawnIsBelow(lives: seq<Life>, i: nat, n: nat)
    requires AreLives(lives) && i <= |lives| && DrawnBefore(lives, i, n)
    ensures n <= HighestDrawn(lives, i)
  {
    hide AreLives, EndOf, First, TopIsStored;
    if i == 0 {
    } else if n <= First(lives[0]) {
      DrawnIsBelow(lives, i - 1, n);
    } else {
      var j :| 0 <= j < i && Draws(lives[j], n);
      if j < i - 1 { DrawnIsBelow(lives, i - 1, n); }
    }
  }

  /**
    Over any lives of the store, however each of them ended: no number is given out twice
    exactly when each life that gives any out began with the last one given out still stored.
  */
  lemma NumbersComeBackExactlyWhen(lives: seq<Life>)
    requires AreLives(lives)
    ensures (forall i, n: nat :: 0 <= i < |lives| && Draws(lives[i], n) ==> !DrawnBefore(lives, i, n))
            <==> forall i :: 0 <= i < |lives| && First(lives[i]) < EndOf(lives[i]).last ==> TopIsStored(lives, i)
  {
    forall i | 0 <= i < |lives| && First(lives[i]) < EndOf(lives[i]).last
      ensures TopIsStored(lives, i) <==> forall n: nat :: Draws(lives[i], n) ==> !DrawnBefore(lives, i, n)
    {
      OneLife(lives, i);
    }
    forall i, n: nat | 0 <= i < |lives| && Draws(lives[i], n) ensures First(lives[i]) < EndOf(lives[i]).last {
    }
  }

  lemma OneLife(lives: seq<Life>, i: nat)
    requires AreLives(lives) && i < |lives| && First(lives[i]) < EndOf(lives[i]).last
    ensures TopIsStored(lives, i) <==> forall n: nat :: Draws(lives[i], n) ==> !DrawnBefore(lives, i, n)
  {
    OpensAtMostThere(lives, i);
    var next := First(lives[i]) + 1;
    assert Draws(lives[i], next);
    if TopIsStored(lives, i) {
      forall n: nat | Draws(lives[i], n) ensures !DrawnBefore(lives, i, n) {
        if DrawnBefore(lives, i, n) { DrawnIsBelow(lives, i, n); }
      }
    } else {
      EverythingBelowWasDrawn(lives, i, next);
    }
  }

  /** A daemon killed before its batch was written: the next one gives the number out again. */
  lemma KilledBeforeTheWrite(s: State) returns (lives: seq<Life>)
    requires Opened(s) && s.pipe.table == map[] && s.pipe.first == 0
    ensures AreLives(lives) && |lives| == 2 && Draws(lives[0], 1) && Draws(lives[1], 1)
  {
    var life := Life(s, [Draw(0, LOSS)]);
    lives := [life, life];
    assert life.events[..0] == [];
    assert Run(s, life.events) == Next(Run(s, []), Draw(0, LOSS));
  }
}
