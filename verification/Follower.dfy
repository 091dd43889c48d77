/**
  Searching and following the log (logs/store.go, logs/record.go, api/server.go): the search
  answers with the newest rows, oldest first; a follower prints them as its backlog and goes
  on with what the watch delivers. The text match is left empty throughout.
*/
module Follower {
  import opened LogStore
  import Ordering

  /** An empty name, or zero, asks for nothing in particular. */
  datatype Query = Query(service: string, stream: string, kind: string, run: string, limit: int, since: nat)

  /** The follower's rule: the first test that fails settles it. */
  predicate Matches(q: Query, r: Record) {
    if q.service != "" && r.service != q.service then false
    else if q.stream != "" && r.stream != q.stream then false
    else if q.kind != "" && r.kind != q.kind then false
    else if q.run != "" && r.run != q.run then false
    else if q.since > 0 && r.seq_ <= q.since then false
    else true
  }

  /** One condition of the search's WHERE clause. */
  datatype Clause =
    | ServiceIs(name: string)
    | StreamIs(name: string)
    | KindIs(name: string)
    | RunIs(name: string)
    | After(since: nat)

  predicate Holds(c: Clause, r: Record) {
    match c
    case ServiceIs(name) => r.service == name
    case StreamIs(name) => r.stream == name
    case KindIs(name) => r.kind == name
    case RunIs(name) => r.run == name
    case After(since) => r.seq_ > since
  }

  predicate AllHold(clauses: seq<Clause>, r: Record) {
    forall c :: c in clauses ==> Holds(c, r)
  }

  /** Builds the WHERE clause. What it selects is what the follower's rule lets through. */
  method Where(q: Query) returns (clauses: seq<Clause>)
    ensures forall r :: AllHold(clauses, r) <==> Matches(q, r)
  {
    clauses := [];
    if q.service != "" { OneMore(clauses, ServiceIs(q.service)); clauses := clauses + [ServiceIs(q.service)]; }
    if q.stream != "" { OneMore(clauses, StreamIs(q.stream)); clauses := clauses + [StreamIs(q.stream)]; }
    if q.kind != "" { OneMore(clauses, KindIs(q.kind)); clauses := clauses + [KindIs(q.kind)]; }
    if q.run != "" { OneMore(clauses, RunIs(q.run)); clauses := clauses + [RunIs(q.run)]; }
    if q.since > 0 { OneMore(clauses, After(q.since)); clauses := clauses + [After(q.since)]; }
  }

  lemma OneMore(clauses: seq<Clause>, c: Clause)
    ensures forall r :: AllHold(clauses + [c], r) <==> AllHold(clauses, r) && Holds(c, r)
  {
    forall r ensures AllHold(clauses + [c], r) <==> AllHold(clauses, r) && Holds(c, r) {
      assert c in clauses + [c];
      assert forall d :: d in clauses ==> d in clauses + [c];
    }
  }

  // Searching --------------------------------------------------------------------------

  ghost predicate Rising(records: seq<Record>) {
    forall i, j :: 0 <= i < j < |records| ==> records[i].seq_ < records[j].seq_
  }

  /** Every row is kept under its own number. */
  ghost predicate WellKept(table: map<nat, Record>) {
    forall n :: n in table ==> table[n].seq_ == n
  }

  /**
    The newest `limit` matching rows, oldest first: nothing that matches is left out unless
    the answer is full, and then only what is older than all of it.
  */
  ghost predicate IsAnswer(table: map<nat, Record>, q: Query, limit: nat, out: seq<Record>) {
    && Rising(out) && |out| <= limit
    && (forall r :: r in out ==> r.seq_ in table && table[r.seq_] == r && Matches(q, r))
    && (forall n :: n in table && Matches(q, table[n]) && table[n] !in out ==>
          |out| == limit && forall r :: r in out ==> n < r.seq_)
  }

  function Limit(q: Query): nat {
    if q.limit <= 0 then 200 else q.limit
  }

  lemma AnswerHolds(table: map<nat, Record>, q: Query, limit: nat, a: seq<Record>, b: seq<Record>)
    requires WellKept(table) && IsAnswer(table, q, limit, a) && IsAnswer(table, q, limit, b)
    ensures forall r :: r in a ==> r in b
  {
    forall r | r in a ensures r in b {
      if r !in b {
        forall x | x in b ensures x in a {
        }
        var i :| 0 <= i < |a| && a[i] == r;
        FewerMembers(b, a[..i] + a[i + 1..], a, i);
      }
    }
  }

  /** Rising rows that are all among `a`, yet never `a[i]`, are fewer than `a`. */
  lemma FewerMembers(b: seq<Record>, rest: seq<Record>, a: seq<Record>, i: nat)
    requires Rising(a) && Rising(b) && i < |a| && rest == a[..i] + a[i + 1..]
    requires a[i] !in b && forall x :: x in b ==> x in a
    ensures |b| < |a|
  {
    var members := set x | x in b;
    var others := set x | x in rest;
    forall x | x in members ensures x in others {
      var k :| 0 <= k < |a| && a[k] == x;
      assert k < i ==> rest[k] == x;
      assert k > i ==> rest[k - 1] == x;
    }
    assert members <= others;
    SetSize(b);
    SetAtMost(rest);
    Ordering.SmallerSet(members, others);
  }

  lemma {:induction false} SetSize(s: seq<Record>)
    requires Rising(s)
    ensures |set x | x in s| == |s|
  {
    if s == [] {
    } else {
      var front := s[..|s| - 1];
      SetSize(front);
      assert (set x | x in s) == (set x | x in front) + {s[|s| - 1]} by { assert s == front + [s[|s| - 1]]; }
      assert s[|s| - 1] !in front;
    }
  }

  lemma {:induction false} SetAtMost(s: seq<Record>)
    ensures |set x | x in s| <= |s|
  {
    if s == [] {
    } else {
      var front := s[..|s| - 1];
      SetAtMost(front);
      assert (set x | x in s) == (set x | x in front) + {s[|s| - 1]} by { assert s == front + [s[|s| - 1]]; }
    }
  }

  /** A table, a query and a limit leave one answer. */
  lemma AnswerIsUnique(table: map<nat, Record>, q: Query, limit: nat, a: seq<Record>, b: seq<Record>)
    requires WellKept(table) && IsAnswer(table, q, limit, a) && IsAnswer(table, q, limit, b)
    ensures a == b
  {
    AnswerHolds(table, q, limit, a, b);
    AnswerHolds(table, q, limit, b, a);
    Ordering.StrictIsUnique(a, b, (x: Record, y: Record) => x.seq_ < y.seq_);
  }

  /** `ORDER BY seq DESC LIMIT limit` over the rows the clauses hold of. */
  method Select(table: map<nat, Record>, clauses: seq<Clause>, limit: nat) returns (rows: seq<Record>)
    requires WellKept(table)
    ensures Rising(Ordering.Reversed(rows)) && |rows| <= limit
    ensures forall r :: r in rows ==> r.seq_ in table && table[r.seq_] == r && AllHold(clauses, r)
    ensures forall n :: n in table && AllHold(clauses, table[n]) && table[n] !in rows ==>
              |rows| == limit && forall r :: r in rows ==> n < r.seq_
  {
    hide AllHold, Rising;
    var left := set n | n in table && AllHold(clauses, table[n]);
    rows := [];
    while left != {} && |rows| < limit
      invariant |rows| <= limit
      invariant forall n :: n in left ==> n in table && AllHold(clauses, table[n]) && forall r :: r in rows ==> n < r.seq_
      invariant forall n :: n in table && AllHold(clauses, table[n]) ==> n in left || table[n] in rows
      invariant forall r :: r in rows ==> r.seq_ in table && table[r.seq_] == r && AllHold(clauses, r)
      invariant forall i, j :: 0 <= i < j < |rows| ==> rows[j].seq_ < rows[i].seq_
      decreases |left|
    {
      var newest := Greatest(left);
      rows := rows + [table[newest]];
      left := left - {newest};
    }
    FallingTurned(rows);
  }

  lemma FallingTurned(rows: seq<Record>)
    requires forall i, j :: 0 <= i < j < |rows| ==> rows[j].seq_ < rows[i].seq_
    ensures Rising(Ordering.Reversed(rows))
  {
  }

  function Greatest(numbers: set<nat>): (n: nat)
    requires numbers != {}
    ensures n in numbers && forall m :: m in numbers ==> m <= n
  {
    ThereIsAGreatest(numbers);
    var n :| n in numbers && forall m :: m in numbers ==> m <= n;
    n
  }

  lemma {:induction false} ThereIsAGreatest(numbers: set<nat>)
    requires numbers != {}
    ensures exists n :: n in numbers && forall m :: m in numbers ==> m <= n
    decreases |numbers|
  {
    var x :| x in numbers;
    if numbers == {x} {
    } else {
      ThereIsAGreatest(numbers - {x});
      var n :| n in numbers - {x} && forall m :: m in numbers - {x} ==> m <= n;
      forall m | m in numbers ensures m <= n || m <= x {
        if m != x { assert m in numbers - {x}; }
      }
      if x > n { assert x in numbers; } else { assert n in numbers; }
    }
  }

  /** The rows come newest first; they are turned round in place. */
  method Search(table: map<nat, Record>, q: Query) returns (out: seq<Record>)
    requires WellKept(table)
    ensures IsAnswer(table, q, Limit(q), out)
  {
    var clauses := Where(q);
    var limit := if q.limit <= 0 then 200 else q.limit;
    var rows := Select(table, clauses, limit);
    var a := new Record[|rows|](i requires 0 <= i < |rows| => rows[i]);
    assert a[..] == rows;
    Ordering.ReverseInPlace(a);
    out := a[..];
    Ordering.ReversedKeepsMembers(rows);
  }

  // Following ---------------------------------------------------------------------------

  /** What a follower forwards of a stream, when `last` is the last number it has seen. */
  function Forwarded(q: Query, last: nat, stream: seq<Record>): seq<Record>
    decreases |stream|
  {
    if stream == [] then []
    else
      var r := stream[0];
      if r.seq_ <= last then Forwarded(q, last, stream[1..])
      else if !Matches(q, r) then Forwarded(q, r.seq_, stream[1..])
      else [r] + Forwarded(q, r.seq_, stream[1..])
  }

  /** Whatever order the stream came in, the numbers forwarded rise, and start above `last`. */
  lemma {:induction false} ForwardedRises(q: Query, last: nat, stream: seq<Record>)
    ensures Rising(Forwarded(q, last, stream))
    ensures forall r :: r in Forwarded(q, last, stream) ==> r in stream && last < r.seq_ && Matches(q, r)
    decreases |stream|
  {
    if stream == [] {
    } else {
      var r := stream[0];
      assert forall x :: x in stream[1..] ==> x in stream;
      ForwardedRises(q, last, stream[1..]);
      ForwardedRises(q, r.seq_, stream[1..]);
    }
  }

  /** Nothing before place `i` carries a number as high. */
  ghost predicate HighestYet(stream: seq<Record>, i: nat)
    requires i < |stream|
  {
    forall j :: 0 <= j < i ==> stream[j].seq_ < stream[i].seq_
  }

  /**
    A record is forwarded exactly when it matches, is new, and was not overtaken: the stream
    brought no higher number before it.
  */
  lemma {:induction false} ForwardedWhen(q: Query, last: nat, stream: seq<Record>, i: nat)
    requires DistinctNumbers(stream) && i < |stream|
    ensures stream[i] in Forwarded(q, last, stream) <==>
              Matches(q, stream[i]) && last < stream[i].seq_ && HighestYet(stream, i)
    decreases |stream|
  {
    var r, rest := stream[0], stream[1..];
    var next := if r.seq_ <= last then last else r.seq_;
    ForwardedRises(q, next, rest);
    if i == 0 {
      assert forall x :: x in rest ==> x.seq_ != r.seq_;
    } else {
      ForwardedWhen(q, next, rest, i - 1);
      assert rest[i - 1] == stream[i] && stream[i] != r;
      assert HighestYet(stream, i) <==> r.seq_ < stream[i].seq_ && HighestYet(rest, i - 1) by {
        if HighestYet(stream, i) {
          forall j | 0 <= j < i - 1 ensures rest[j].seq_ < rest[i - 1].seq_ {
            assert stream[j + 1].seq_ < stream[i].seq_;
          }
        }
        if r.seq_ < stream[i].seq_ && HighestYet(rest, i - 1) {
          forall j | 0 <= j < i ensures stream[j].seq_ < stream[i].seq_ {
            if j > 0 { assert rest[j - 1].seq_ < rest[i - 1].seq_; }
          }
        }
      }
    }
  }

  function Kept(q: Query, last: nat, stream: seq<Record>): seq<Record> {
    if stream == [] then []
    else (if Matches(q, stream[0]) && last < stream[0].seq_ then [stream[0]] else []) + Kept(q, last, stream[1..])
  }

  lemma {:induction false} KeptAbove(q: Query, last: nat, next: nat, stream: seq<Record>)
    requires last <= next && forall r :: r in stream ==> next < r.seq_
    ensures Kept(q, last, stream) == Kept(q, next, stream)
  {
    if stream == [] {
    } else {
      assert stream[0] in stream && forall r :: r in stream[1..] ==> r in stream;
      KeptAbove(q, last, next, stream[1..]);
    }
  }

  /** Of a stream that came in order, exactly what matches and is new is forwarded, once each. */
  lemma {:induction false} InOrderNothingIsLost(q: Query, last: nat, stream: seq<Record>)
    requires Rising(stream)
    ensures Forwarded(q, last, stream) == Kept(q, last, stream)
    decreases |stream|
  {
    if stream == [] {
    } else {
      var r, rest := stream[0], stream[1..];
      assert Rising(rest) by {
        forall i, j | 0 <= i < j < |rest| ensures rest[i].seq_ < rest[j].seq_ {
          assert stream[i + 1].seq_ < stream[j + 1].seq_;
        }
      }
      if r.seq_ <= last {
        InOrderNothingIsLost(q, last, rest);
      } else {
        InOrderNothingIsLost(q, r.seq_, rest);
        assert forall x :: x in rest ==> r.seq_ < x.seq_;
        KeptAbove(q, last, r.seq_, rest);
      }
    }
  }

  /** The reader at the other end. A line may fail to be sent, and then it is not read. */
  class Connection {
    var lines: seq<Record>

    constructor ()
      ensures lines == []
    {
      lines := [];
    }

    method Send(r: Record) returns (ok: bool)
      modifies this
      ensures lines == if ok then old(lines) + [r] else old(lines)
    {
      ok := *;
      if ok { lines := lines + [r]; }
    }
  }

  function LastOf(backlog: seq<Record>): nat {
    if backlog == [] then 0 else backlog[|backlog| - 1].seq_
  }

  /** What a follower of this backlog and this stream is to be sent. */
  function Session(q: Query, backlog: seq<Record>, stream: seq<Record>): seq<Record> {
    backlog + Forwarded(q, LastOf(backlog), stream)
  }

  lemma Unroll(q: Query, last: nat, stream: seq<Record>, i: nat)
    requires i < |stream|
    ensures var r, rest := stream[i], stream[i + 1..];
            Forwarded(q, last, stream[i..]) ==
            if r.seq_ <= last then Forwarded(q, last, rest)
            else (if Matches(q, r) then [r] else []) + Forwarded(q, r.seq_, rest)
  {
    assert stream[i..][1..] == stream[i + 1..];
  }

  /** Sends the matching history, and remembers the last number sent. */
  method SendBacklog(conn: Connection, backlog: seq<Record>) returns (last: nat, ok: bool)
    modifies conn
    ensures ok ==> conn.lines == old(conn.lines) + backlog && last == LastOf(backlog)
    ensures old(conn.lines) <= conn.lines <= old(conn.lines) + backlog
  {
    last, ok := 0, true;
    for i := 0 to |backlog|
      invariant ok && last == LastOf(backlog[..i])
      invariant conn.lines == old(conn.lines) + backlog[..i]
    {
      assert backlog[..i + 1] == backlog[..i] + [backlog[i]];
      ok := conn.Send(backlog[i]);
      if !ok {
        assert backlog[..i] <= backlog;
        return;
      }
      last := backlog[i].seq_;
    }
    assert backlog[..|backlog|] == backlog;
  }

  /** Then the live stream, without what the backlog already showed. */
  method SendLive(conn: Connection, q: Query, before: nat, stream: seq<Record>) returns (ok: bool)
    modifies conn
    ensures ok ==> conn.lines == old(conn.lines) + Forwarded(q, before, stream)
    ensures old(conn.lines) <= conn.lines <= old(conn.lines) + Forwarded(q, before, stream)
  {
    ghost var all := Forwarded(q, before, stream);
    ghost var done: seq<Record> := [];
    var last := before;
    ok := true;
    assert stream[0..] == stream;
    for i := 0 to |stream|
      invariant ok && conn.lines == old(conn.lines) + done
      invariant all == done + Forwarded(q, last, stream[i..])
    {
      var r := stream[i];
      Unroll(q, last, stream, i);
      if r.seq_ <= last { continue; }
      last := r.seq_;
      if !Matches(q, r) { continue; }
      ok := conn.Send(r);
      if !ok {
        assert done <= all;
        return;
      }
      done := done + [r];
    }
    assert done == all;
  }

  /**
    One session: `table` is what the flush before the search left written, `stream` what the
    watch delivers before it ends. A send that fails ends the session where it stands.
  */
  method Follow(conn: Connection, table: map<nat, Record>, q: Query, stream: seq<Record>)
    returns (backlog: seq<Record>, ok: bool)
    requires WellKept(table)
    modifies conn
    ensures IsAnswer(table, q, Limit(q), backlog)
    ensures ok ==> conn.lines == old(conn.lines) + Session(q.(limit := 0), backlog, stream)
    ensures old(conn.lines) <= conn.lines <= old(conn.lines) + Session(q.(limit := 0), backlog, stream)
  {
    backlog := Search(table, q);
    var last: nat;
    last, ok := SendBacklog(conn, backlog);
    ghost var session := Session(q.(limit := 0), backlog, stream);
    assert backlog <= session;
    if !ok { return; }
    ok := SendLive(conn, q.(limit := 0), last, stream);
    assert conn.lines <= old(conn.lines) + (backlog + Forwarded(q.(limit := 0), last, stream));
  }

  /** In every interleaving, backlog and stream together, a follower reads rising numbers. */
  lemma SessionRises(table: map<nat, Record>, q: Query, limit: nat, backlog: seq<Record>, stream: seq<Record>)
    requires IsAnswer(table, q, limit, backlog)
    ensures Rising(Session(q, backlog, stream))
  {
    ForwardedRises(q, LastOf(backlog), stream);
  }
}
