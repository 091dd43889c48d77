/**
  What follows a request that carries bytes (api/protocol.go): chunks, each under its decimal
  length, up to a chunk of length zero. The writer frames whatever pieces its source reads; the
  reader stops exactly after the end.
*/
module Framing {
  import opened Options
  import opened Wire

  const CHUNK_SIZE: nat := 1_048_576
  const MAX_UPLOAD_BYTES: nat := 8_589_934_592

  /** How a read ended: with more to come, at the end, or badly. Data may come with any of them. */
  datatype End = More | Eof | Failed

  datatype Read = Read(data: seq<Byte>, end: End)

  /** What a source reads, one read at a time; after the last of `pieces` it is at its end. */
  class Source {
    var pieces: seq<Read>

    constructor (all: seq<Read>)
      ensures pieces == all
    {
      pieces := all;
    }

    method Next() returns (r: Read)
      modifies this
      ensures old(pieces) == [] ==> r == Read([], Eof) && pieces == []
      ensures old(pieces) != [] ==> [r] + pieces == old(pieces)
    {
      if pieces == [] { return Read([], Eof); }
      r := pieces[0];
      pieces := pieces[1..];
    }
  }

  /** Where bytes go. A write may fail part way, unless the sink is one that cannot. */
  class Sink {
    const reliable: bool
    var bytes: seq<Byte>
    ghost var broken: bool

    constructor (cannotFail: bool)
      ensures bytes == [] && !broken && reliable == cannotFail
    {
      bytes, broken, reliable := [], false, cannotFail;
    }

    method Write(data: seq<Byte>) returns (ok: bool, ghost wrote: seq<Byte>)
      requires !broken
      modifies this
      ensures bytes == old(bytes) + wrote && wrote <= data && (ok ==> wrote == data)
      ensures broken == !ok && (reliable ==> ok)
    {
      var n: int := *;
      if 0 <= n < |data| && !reliable {
        bytes, wrote := bytes + data[..n], data[..n];
        ok := false;
      } else {
        bytes, wrote := bytes + data, data;
        ok := *;
        ok := ok || reliable;
      }
      broken := !ok;
    }
  }

  // Sending ------------------------------------------------------------------------------

  function Header(n: nat): seq<Byte> {
    Decimal(n) + [NEWLINE]
  }

  function Frame(data: seq<Byte>): seq<Byte> {
    if data == [] then [] else Header(|data|) + data
  }

  /** Everything a writer that does not fail sends for these reads. */
  function Sent(pieces: seq<Read>): seq<Byte> {
    if pieces == [] then Header(0)
    else
      Frame(pieces[0].data) +
      match pieces[0].end
      case More => Sent(pieces[1..])
      case Eof => Header(0)
      case Failed => []
  }

  /** The payload of a source, up to where it ends or fails. */
  function Payload(pieces: seq<Read>): seq<Byte> {
    if pieces == [] then []
    else pieces[0].data + if pieces[0].end.More? then Payload(pieces[1..]) else []
  }

  predicate Completes(pieces: seq<Read>) {
    pieces == [] || pieces[0].end.Eof? || (pieces[0].end.More? && Completes(pieces[1..]))
  }

  function SentAfter(r: Read, rest: seq<Read>): seq<Byte> {
    match r.end
    case More => Sent(rest)
    case Eof => Header(0)
    case Failed => []
  }

  lemma SentUnrolls(r: Read, rest: seq<Read>)
    ensures Sent([r] + rest) == Frame(r.data) + SentAfter(r, rest)
    ensures Completes([r] + rest) <==> r.end.Eof? || (r.end.More? && Completes(rest))
  {
    assert ([r] + rest)[1..] == rest;
  }

  lemma Joins(a: seq<Byte>, b: seq<Byte>, c: seq<Byte>)
    ensures a + b + c == a + (b + c)
  {
  }

  lemma Extends(done: seq<Byte>, wrote: seq<Byte>, next: seq<Byte>, rest: seq<Byte>, all: seq<Byte>)
    requires wrote <= next && all == done + (next + rest)
    ensures done + wrote <= all && (done + next) + rest == all
  {
  }

  method WriteFrame(w: Sink, data: seq<Byte>) returns (ok: bool, ghost wrote: seq<Byte>)
    requires !w.broken
    modifies w
    ensures w.bytes == old(w.bytes) + wrote && wrote <= Frame(data)
    ensures w.broken == !ok && (ok ==> wrote == Frame(data))
  {
    if data == [] { return true, []; }
    ok, wrote := w.Write(Header(|data|));
    if !ok { return; }
    ghost var first := wrote;
    ok, wrote := w.Write(data);
    assert old(w.bytes) + first + wrote == old(w.bytes) + (first + wrote);
    wrote := first + wrote;
  }

  method WriteChunks(w: Sink, source: Source) returns (ok: bool, ghost wrote: seq<Byte>)
    requires !w.broken
    modifies w, source
    ensures w.bytes == old(w.bytes) + wrote && wrote <= Sent(old(source.pieces))
    ensures ok ==> wrote == Sent(old(source.pieces)) && Completes(old(source.pieces))
    ensures !w.broken ==> ok == Completes(old(source.pieces)) && wrote == Sent(old(source.pieces))
  {
    hide Frame, Header;
    ghost var all := Sent(source.pieces);
    wrote := [];
    while true
      invariant all == wrote + Sent(source.pieces) && w.bytes == old(w.bytes) + wrote && !w.broken
      invariant Completes(source.pieces) == Completes(old(source.pieces))
      decreases |source.pieces|
    {
      ghost var before, done := source.pieces, wrote;
      var r := source.Next();
      ghost var after := if before == [] then Header(0) else SentAfter(r, source.pieces);
      FirstRead(before, r, source.pieces, after);
      ghost var part;
      ok, part := WriteFrame(w, r.data);
      Extends(done, part, Frame(r.data), after, all);
      Joins(old(w.bytes), done, part);
      wrote := done + part;
      if !ok { return; }
      if r.end.Eof? {
        ok, part := w.Write(Header(0));
        Extends(wrote, part, Header(0), [], all);
        Joins(old(w.bytes), wrote, part);
        wrote := wrote + part;
        return;
      }
      if r.end.Failed? { return false, wrote; }
    }
  }

  lemma FirstRead(before: seq<Read>, r: Read, rest: seq<Read>, after: seq<Byte>)
    requires if before == [] then r == Read([], Eof) && after == Header(0) else before == [r] + rest && after == SentAfter(r, rest)
    ensures Sent(before) == Frame(r.data) + after
    ensures Completes(before) <==> r.end.Eof? || (r.end.More? && Completes(rest))
  {
    if before == [] { NothingIsFramed(); } else { SentUnrolls(r, rest); }
  }

  // Receiving -----------------------------------------------------------------------------

  /** What came of reading chunks: how it ended, the count, what was passed on, what is unread. */
  datatype Outcome = Outcome(ok: bool, total: nat, payload: seq<Byte>, rest: seq<Byte>)

  function Receive(input: seq<Byte>, total: nat): (o: Outcome)
    ensures |o.rest| <= |input|
    decreases |input|
  {
    var head := ReadHead(input);
    if head.Bad? then Outcome(false, total, [], head.rest)
    else if head.size == 0 then Outcome(true, total, [], head.rest)
    else if head.size < 0 || head.size > CHUNK_SIZE then Outcome(false, total, [], head.rest)
    else if total + head.size > MAX_UPLOAD_BYTES then Outcome(false, total + head.size, [], head.rest)
    else if |head.rest| < head.size then Outcome(false, total + head.size, head.rest, [])
    else
      var o := Receive(head.rest[head.size..], total + head.size);
      o.(payload := head.rest[..head.size] + o.payload)
  }

  /** The line a chunk begins with: a length, or nothing that is one. */
  datatype Head = Bad(rest: seq<Byte>) | Length(size: int, rest: seq<Byte>)

  function ReadHead(input: seq<Byte>): (h: Head)
    ensures |h.rest| <= |input| && (h.Length? ==> |h.rest| < |input|)
  {
    var line := FirstLine(input);
    if !line.GotLine? then Bad(line.rest)
    else
      var size := ParseInt(TrimSpace(line.line));
      if size.None? then Bad(line.rest) else Length(size.value, line.rest)
  }

  /** On any input: never more than the ceiling, and a success counts what it passed on. */
  lemma {:induction false} CeilingHolds(input: seq<Byte>, total: nat)
    requires total <= MAX_UPLOAD_BYTES
    ensures var o := Receive(input, total);
            total + |o.payload| <= MAX_UPLOAD_BYTES && (o.ok ==> o.total == total + |o.payload| && |o.rest| < |input|)
    decreases |input|
  {
    hide ReadHead;
    var head := ReadHead(input);
    if head.Bad? || !(0 < head.size <= CHUNK_SIZE) || total + head.size > MAX_UPLOAD_BYTES || head.size > |head.rest| {
    } else {
      CeilingHolds(head.rest[head.size..], total + head.size);
    }
  }

  lemma HeaderIsRead(n: nat, tail: seq<Byte>)
    requires n <= CHUNK_SIZE
    ensures ReadHead(Header(n) + tail) == Length(n, tail)
  {
    hide FirstLine, ParseInt, TrimSpace;
    DecimalRoundTrip(n);
    DecimalIsShortLine(n);
    LineIsWhole([], Decimal(n), tail);
    assert [] + Decimal(n) == Decimal(n);
    assert FirstLine(Header(n) + tail) == GotLine(Decimal(n), tail) by { FirstLineIs(Header(n) + tail); }
  }

  lemma FirstLineIs(input: seq<Byte>)
    ensures FirstLine(input) == LineAfter([], input)
  {
  }

  lemma DecimalIsShortLine(n: nat)
    requires n <= CHUNK_SIZE
    ensures 0 < |Decimal(n)| <= 7 && AllDigits(Decimal(n)) && OneLine(Decimal(n)) && WithoutReturn(Decimal(n)) == Decimal(n)
  {
    DecimalIsRead(n);
    assert Power10(7) == 10_000_000;
    DecimalIsShort(n, 7, 10_000_000);
    assert IsDigit(Decimal(n)[|Decimal(n)| - 1]);
  }

  /** One frame ahead of anything else. */
  lemma FrameIsReceived(data: seq<Byte>, tail: seq<Byte>, total: nat)
    requires 0 < |data| <= CHUNK_SIZE
    ensures var o := Receive(tail, total + |data|);
            Receive(Frame(data) + tail, total) ==
            if total + |data| <= MAX_UPLOAD_BYTES then o.(payload := data + o.payload)
            else Outcome(false, total + |data|, [], data + tail)
  {
    hide ReadHead, Header;
    var input := Frame(data) + tail;
    assert input == Header(|data|) + (data + tail);
    HeaderIsRead(|data|, data + tail);
    assert (data + tail)[..|data|] == data && (data + tail)[|data|..] == tail;
  }

  predicate FitsTheBuffer(pieces: seq<Read>) {
    forall i :: 0 <= i < |pieces| ==> |pieces[i].data| <= CHUNK_SIZE
  }

  lemma EndIsReceived(tail: seq<Byte>, total: nat)
    ensures Receive(Header(0) + tail, total) == Outcome(true, total, [], tail)
  {
    hide ReadHead, Header;
    HeaderIsRead(0, tail);
  }

  lemma Unrolled(pieces: seq<Read>, tail: seq<Byte>)
    requires pieces != []
    ensures var data, after := pieces[0].data, SentAfter(pieces[0], pieces[1..]);
            && Sent(pieces) + tail == (if data == [] then after + tail else Frame(data) + (after + tail))
            && Payload(pieces) == data + (if pieces[0].end.More? then Payload(pieces[1..]) else [])
            && (data == [] ==> Payload(pieces) == if pieces[0].end.More? then Payload(pieces[1..]) else [])
  {
    var data, after := pieces[0].data, SentAfter(pieces[0], pieces[1..]);
    Joins(Frame(data), after, tail);
    if data == [] {
      NothingIsFramed();
      assert [] + (after + tail) == after + tail;
    }
  }

  /**
    However the source splits its payload and whatever follows on the connection: what was
    sent is received whole, and the reader stops exactly where it ends.
  */
  lemma {:induction false} RoundTrip(pieces: seq<Read>, tail: seq<Byte>, total: nat)
    requires FitsTheBuffer(pieces) && Completes(pieces) && total + |Payload(pieces)| <= MAX_UPLOAD_BYTES
    ensures Receive(Sent(pieces) + tail, total) == Outcome(true, total + |Payload(pieces)|, Payload(pieces), tail)
    decreases |pieces|
  {
    hide Receive, Frame, Header, Sent, Payload;
    if pieces == [] {
      NothingToSend();
      EndIsReceived(tail, total);
    } else {
      Unrolled(pieces, tail);
      var data := pieces[0].data;
      if pieces[0].end.More? { RoundTrip(pieces[1..], tail, total + |data|); } else { EndIsReceived(tail, total + |data|); }
      if data != [] { FrameIsReceived(data, SentAfter(pieces[0], pieces[1..]) + tail, total); }
    }
  }

  lemma NothingToSend()
    ensures Sent([]) == Header(0) && Payload([]) == []
  {
  }

  lemma NothingIsFramed()
    ensures Frame([]) == []
  {
  }

  /** What of an upload stays unread: everything from the piece on that goes past the ceiling, but for its length. */
  function LeftUnread(pieces: seq<Read>, total: nat): seq<Byte> {
    if pieces == [] then []
    else if total + |pieces[0].data| > MAX_UPLOAD_BYTES then pieces[0].data + SentAfter(pieces[0], pieces[1..])
    else if pieces[0].end.More? then LeftUnread(pieces[1..], total + |pieces[0].data|)
    else []
  }

  /** A payload past the ceiling is refused, wherever its pieces fall, and the reader stops inside it. */
  lemma {:induction false} TooMuchIsRefused(pieces: seq<Read>, tail: seq<Byte>, total: nat)
    requires FitsTheBuffer(pieces) && Completes(pieces)
    requires total <= MAX_UPLOAD_BYTES < total + |Payload(pieces)|
    ensures var o := Receive(Sent(pieces) + tail, total); !o.ok && o.rest == LeftUnread(pieces, total) + tail
    ensures LeftUnread(pieces, total) != []
    decreases |pieces|
  {
    hide Receive, Frame, Header, Sent, Payload;
    if pieces == [] {
      NothingToSend();
    } else {
      Unrolled(pieces, tail);
      var data, rest := pieces[0].data, SentAfter(pieces[0], pieces[1..]);
      if data != [] { FrameIsReceived(data, rest + tail, total); }
      if total + |data| <= MAX_UPLOAD_BYTES {
        TooMuchIsRefused(pieces[1..], tail, total + |data|);
      } else {
        assert data + (rest + tail) == (data + rest) + tail;
      }
    }
  }

  // What is cut off -----------------------------------------------------------------------

  /** What is read as a line at the end of the connection, without a newline. */
  lemma LastHead(p: seq<Byte>)
    requires OneLine(p) && |p| < BUFFER_SIZE
    ensures p == [] ==> ReadHead(p).Bad?
    ensures p != [] && ParseInt(TrimSpace(p)).Some? ==> ReadHead(p) == Length(ParseInt(TrimSpace(p)).value, [])
  {
    hide FirstLine, ParseInt, TrimSpace;
    EndIsRead(p);
  }

  lemma CutHeader(n: nat, k: nat, total: nat)
    requires 0 < n <= CHUNK_SIZE && k <= |Decimal(n)|
    ensures !Receive(Decimal(n)[..k], total).ok
  {
    hide ReadHead, ParseInt, TrimSpace;
    var p := Decimal(n)[..k];
    DecimalIsShortLine(n);
    assert OneLine(p) by { assert forall i :: 0 <= i < |p| ==> IsDigit(p[i]); }
    LastHead(p);
    if k > 0 { CutDecimalIsNotZero(n, k); }
  }

  lemma CutFrame(data: seq<Byte>, p: seq<Byte>, total: nat)
    requires 0 < |data| <= CHUNK_SIZE && p <= Frame(data) && p != Frame(data)
    ensures !Receive(p, total).ok
  {
    hide ReadHead;
    var n := |data|;
    if |p| <= |Decimal(n)| {
      assert p == Decimal(n)[..|p|];
      CutHeader(n, |p|, total);
    } else {
      var part := p[|Decimal(n)| + 1..];
      assert p == Header(n) + part;
      HeaderIsRead(n, part);
    }
  }

  lemma CutEnd(p: seq<Byte>, total: nat)
    requires p <= Header(0)
    ensures Receive(p, total).payload == []
  {
    hide ReadHead, ParseInt, TrimSpace;
    if p == Header(0) {
      assert p == Header(0) + [];
      EndIsReceived([], total);
    } else {
      assert p == [] || p == Decimal(0);
      LastHead(p);
      if p != [] { DecimalRoundTrip(0); }
    }
  }

  lemma NothingComesOfNothing(total: nat)
    ensures !Receive([], total).ok
  {
    hide ReadHead;
    LastHead([]);
  }

  /** A cut falls inside the first frame or after it. */
  lemma CutFalls(frame: seq<Byte>, rest: seq<Byte>, p: seq<Byte>)
    requires p <= frame + rest
    ensures if |p| < |frame| then p <= frame && p != frame else p == frame + p[|frame|..] && p[|frame|..] <= rest
  {
  }

  /**
    An upload cut off anywhere, or one whose source failed, is never taken for a whole one:
    what is received as complete is the complete payload.
  */
  lemma {:induction false} CutNeverPassesForWhole(pieces: seq<Read>, p: seq<Byte>, total: nat)
    requires FitsTheBuffer(pieces) && p <= Sent(pieces) && Receive(p, total).ok
    ensures Completes(pieces) && Receive(p, total).payload == Payload(pieces)
    decreases |pieces|
  {
    hide Receive, Header, Frame;
    if pieces == [] {
      CutEnd(p, total);
    } else {
      var data := pieces[0].data;
      var frame := Frame(data);
      var rest := SentAfter(pieces[0], pieces[1..]);
      NothingIsFramed();
      assert Sent(pieces) == frame + rest;
      CutFalls(frame, rest, p);
      if |p| < |frame| {
        CutFrame(data, p, total);
      } else {
        var q := p[|frame|..];
        var next := total + |data|;
        if data == [] {
          assert p == q;
        } else {
          FrameIsReceived(data, q, total);
        }
        match pieces[0].end
        case More => CutNeverPassesForWhole(pieces[1..], q, next);
        case Eof => CutEnd(q, next);
        case Failed => NothingComesOfNothing(next);
      }
    }
  }

  // The reader -----------------------------------------------------------------------------

  function Upto(input: seq<Byte>, n: nat): seq<Byte> {
    if n <= |input| then input[..n] else input
  }

  /** Copies `n` bytes. A sink that fails leaves the reader somewhere among them. */
  method CopyN(r: Reader, w: Sink, n: nat) returns (ok: bool, ghost wrote: seq<Byte>)
    requires !w.broken
    modifies r, w
    ensures w.bytes == old(w.bytes) + wrote && wrote <= Upto(old(r.unread), n)
    ensures !w.broken ==>
              && ok == (n <= |old(r.unread)|)
              && r.unread == old(r.unread)[|Upto(old(r.unread), n)|..]
              && wrote == Upto(old(r.unread), n)
    ensures w.broken ==> !ok && !w.reliable && |r.unread| + n >= |old(r.unread)| >= |r.unread|
  {
    var data := Upto(r.unread, n);
    ok, wrote := w.Write(data);
    var taken: int := *;
    if ok || !(0 <= taken <= |data|) { taken := |data|; }
    r.unread := r.unread[taken..];
    ok := ok && |data| == n;
  }

  /**
    Passes the chunks on until the end marker. Unless the sink fails, it does what `Receive`
    says; a success is always a sink that did not fail and a reader right after the marker.
  */
  method ReadChunks(r: Reader, w: Sink) returns (total: nat, ok: bool, ghost wrote: seq<Byte>)
    requires !w.broken
    modifies r, w
    ensures w.bytes == old(w.bytes) + wrote && wrote <= Receive(old(r.unread), 0).payload
    ensures !w.broken ==> Outcome(ok, total, wrote, r.unread) == Receive(old(r.unread), 0)
    // A sink that fails leaves at least the end marker unread.
    ensures w.broken ==> !ok && !w.reliable
    ensures |r.unread| <= |old(r.unread)|
    ensures w.broken && Receive(old(r.unread), 0).ok ==> |r.unread| > |Receive(old(r.unread), 0).rest|
  {
    hide ReadHead, Receive;
    ghost var whole := Receive(r.unread, 0);
    total, wrote := 0, [];
    while true
      invariant !w.broken && w.bytes == old(w.bytes) + wrote && |r.unread| <= |old(r.unread)|
      invariant Prefixed(wrote, Receive(r.unread, total)) == whole
      decreases |r.unread|
    {
      ghost var input, done := r.unread, wrote;
      ReceiveStops(input, total);
      var got, size := NextLength(r);
      if !got { return total, false, wrote; }
      if size == 0 { return total, true, wrote; }
      if size < 0 || size > CHUNK_SIZE { return total, false, wrote; }
      total := total + size;
      if total > MAX_UPLOAD_BYTES { return total, false, wrote; }
      ghost var after, part := r.unread, [];
      ReceiveOne(input, total - size, size, after);
      var copied;
      copied, part := CopyN(r, w, size);
      Joins(old(w.bytes), done, part);
      wrote := done + part;
      JoinsOutcome(done, part, Upto(after, size), Receive(input, total - size), whole);
      if !copied { return total, false, wrote; }
      NextTurn(done, part, input, total - size, size, after, whole);
    }
  }

  /** Where a turn of the loop ends the reading. */
  lemma ReceiveStops(input: seq<Byte>, total: nat)
    ensures var head := ReadHead(input);
            && (head.Bad? || head.size < 0 || head.size > CHUNK_SIZE ==> Receive(input, total) == Outcome(false, total, [], head.rest))
            && (head.Length? && head.size == 0 ==> Receive(input, total) == Outcome(true, total, [], head.rest))
            && (head.Length? && 0 < head.size <= CHUNK_SIZE && total + head.size > MAX_UPLOAD_BYTES ==>
                  Receive(input, total) == Outcome(false, total + head.size, [], head.rest))
  {
    hide ReadHead;
  }

  function Prefixed(done: seq<Byte>, o: Outcome): Outcome {
    o.(payload := done + o.payload)
  }

  lemma JoinsOutcome(done: seq<Byte>, part: seq<Byte>, frame: seq<Byte>, o: Outcome, whole: Outcome)
    requires part <= frame <= o.payload && whole == Prefixed(done, o)
    ensures done + part <= whole.payload
    ensures part == o.payload ==> done + part == whole.payload
  {
  }

  lemma NextTurn(done: seq<Byte>, frame: seq<Byte>, input: seq<Byte>, total: nat, size: nat, after: seq<Byte>, whole: Outcome)
    requires 0 < size <= |after| && frame == Upto(after, size) && whole == Prefixed(done, Receive(input, total))
    requires Receive(input, total) == Prefixed(frame, Receive(after[size..], total + size))
    ensures Prefixed(done + frame, Receive(after[size..], total + size)) == whole
  {
    hide Receive;
    Joins(done, frame, Receive(after[size..], total + size).payload);
  }

  /** The line of a chunk, as a number. */
  method NextLength(r: Reader) returns (ok: bool, size: int)
    modifies r
    ensures r.unread == ReadHead(old(r.unread)).rest
    ensures ok == ReadHead(old(r.unread)).Length? && (ok ==> size == ReadHead(old(r.unread)).size)
  {
    hide FirstLine, ParseInt, TrimSpace;
    var got, line := ReadLimitedLine(r);
    if !got { return false, 0; }
    var parsed := ParseInt(TrimSpace(line));
    if parsed.None? { return false, 0; }
    return true, parsed.value;
  }

  /** One turn of the loop, against the whole. */
  lemma ReceiveOne(input: seq<Byte>, total: nat, size: nat, after: seq<Byte>)
    requires ReadHead(input) == Length(size, after)
    requires 0 < size <= CHUNK_SIZE && total + size <= MAX_UPLOAD_BYTES
    ensures Upto(after, size) <= Receive(input, total).payload
    ensures size <= |after| ==>
              var o := Receive(after[size..], total + size);
              Receive(input, total) == Prefixed(Upto(after, size), o) && (o.ok ==> |o.rest| < |after| - size)
    ensures size > |after| ==> Receive(input, total) == Outcome(false, total + size, after, [])
  {
    hide ReadHead;
    if size <= |after| { CeilingHolds(after[size..], total + size); }
  }
}
