/**
  Lines and numbers on the connection (api/protocol.go): the buffered reader hands a line out
  in pieces of its buffer's size, and `ReadLimitedLine` puts them together again under a
  ceiling. Bytes are numbers below 256.
*/
module Wire {
  import opened Options

  type Byte = b: int | 0 <= b < 256

  const NEWLINE: Byte := 10
  const RETURN: Byte := 13
  const BUFFER_SIZE: nat := 4096
  const MAX_REQUEST_BYTES: nat := 1_048_576

  // Numbers ------------------------------------------------------------------------------

  predicate IsDigit(b: Byte) {
    48 <= b <= 57
  }

  predicate AllDigits(s: seq<Byte>) {
    forall i :: 0 <= i < |s| ==> IsDigit(s[i])
  }

  /** What `%d` writes. */
  function Decimal(n: nat): seq<Byte> {
    if n < 10 then [48 + n] else Decimal(n / 10) + [48 + n % 10]
  }

  function Value(digits: seq<Byte>): nat
    requires AllDigits(digits)
  {
    if digits == [] then 0 else Value(digits[..|digits| - 1]) * 10 + (digits[|digits| - 1] - 48)
  }

  /** A sign is allowed; what does not fit 64 bits is an error. */
  function ParseInt(s: seq<Byte>): Option<int> {
    var negative := s != [] && s[0] == 45;
    var digits := if s != [] && (s[0] == 43 || s[0] == 45) then s[1..] else s;
    if digits == [] || !AllDigits(digits) then None
    else
      var value: int := Value(digits);
      if negative then (if value > 0x8000_0000_0000_0000 then None else Some(-value))
      else if value >= 0x8000_0000_0000_0000 then None
      else Some(value)
  }

  /** How many bytes of white space, ASCII or not, a text begins with. */
  function SpaceAt(a: Byte, b: Byte, c: Byte): nat {
    if 9 <= a <= 13 || a == 32 then 1
    else if a == 0xC2 && (b == 0x85 || b == 0xA0) then 2
    else if a == 0xE1 && b == 0x9A && c == 0x80 then 3
    else if a == 0xE2 && b == 0x80 && (0x80 <= c <= 0x8A || c == 0xA8 || c == 0xA9 || c == 0xAF) then 3
    else if a == 0xE2 && b == 0x81 && c == 0x9F then 3
    else if a == 0xE3 && b == 0x80 && c == 0x80 then 3
    else 0
  }

  function At(s: seq<Byte>, i: int): Byte {
    if 0 <= i < |s| then s[i] else 0
  }

  function TrimLeft(s: seq<Byte>): seq<Byte>
    decreases |s|
  {
    var n := SpaceAt(At(s, 0), At(s, 1), At(s, 2));
    if 0 < n <= |s| then TrimLeft(s[n..]) else s
  }

  function TrimRight(s: seq<Byte>): seq<Byte>
    decreases |s|
  {
    var n := |s|;
    if n >= 1 && SpaceAt(s[n - 1], 0, 0) == 1 then TrimRight(s[..n - 1])
    else if n >= 2 && SpaceAt(s[n - 2], s[n - 1], 0) == 2 then TrimRight(s[..n - 2])
    else if n >= 3 && SpaceAt(s[n - 3], s[n - 2], s[n - 1]) == 3 then TrimRight(s[..n - 3])
    else s
  }

  function TrimSpace(s: seq<Byte>): seq<Byte> {
    TrimRight(TrimLeft(s))
  }

  lemma {:induction false} DecimalIsRead(n: nat)
    ensures Decimal(n) != [] && AllDigits(Decimal(n)) && Value(Decimal(n)) == n
  {
    if n >= 10 {
      DecimalIsRead(n / 10);
      var d := Decimal(n);
      assert d[..|d| - 1] == Decimal(n / 10);
    } else {
      assert Decimal(n)[..0] == [];
    }
  }

  /** A length that is written is the length that is read. */
  lemma DecimalRoundTrip(n: nat)
    requires n < 0x8000_0000_0000_0000
    ensures ParseInt(TrimSpace(Decimal(n))) == Some(n)
  {
    DecimalIsRead(n);
    DigitsAreNotTrimmed(Decimal(n));
  }

  lemma DigitsAreNotTrimmed(s: seq<Byte>)
    requires AllDigits(s)
    ensures TrimSpace(s) == s
  {
    if s != [] {
      assert IsDigit(s[0]) && IsDigit(s[|s| - 1]);
    }
  }

  /** Cut anywhere but at its start, a number that is not zero still reads as one. */
  lemma {:induction false} CutDecimalIsNotZero(n: nat, k: nat)
    requires 0 < k <= |Decimal(n)| && 0 < n < 0x8000_0000_0000_0000
    ensures ParseInt(TrimSpace(Decimal(n)[..k])).Some? && ParseInt(TrimSpace(Decimal(n)[..k])).value > 0
  {
    if k == |Decimal(n)| {
      assert Decimal(n)[..k] == Decimal(n);
      DecimalRoundTrip(n);
    } else {
      assert Decimal(n)[..k] == Decimal(n / 10)[..k];
      CutDecimalIsNotZero(n / 10, k);
    }
  }

  lemma {:induction false} DecimalIsShort(n: nat, digits: nat, bound: nat)
    requires digits >= 1 && n < bound && bound == Power10(digits)
    ensures |Decimal(n)| <= digits
  {
    if n < 10 {
    } else {
      DecimalIsShort(n / 10, digits - 1, Power10(digits - 1));
    }
  }

  function Power10(n: nat): nat {
    if n == 0 then 1 else 10 * Power10(n - 1)
  }

  // Lines ---------------------------------------------------------------------------------

  function NewlineAt(input: seq<Byte>): (i: nat)
    ensures i <= |input| && (forall j :: 0 <= j < i ==> input[j] != NEWLINE) && (i < |input| ==> input[i] == NEWLINE)
  {
    if input == [] || input[0] == NEWLINE then 0 else 1 + NewlineAt(input[1..])
  }

  datatype Chunk =
    | Piece(line: seq<Byte>, more: bool, rest: seq<Byte>)
    | Ended

  /**
    One call of the buffered reader's ReadLine: a line without its end, or as much of it as
    the buffer holds. A return at the end of a full buffer stays for the next call, since a
    newline may follow it. What the connection ends with counts as a line.
  */
  function NextChunk(input: seq<Byte>): Chunk {
    var i := NewlineAt(input);
    if i < |input| && i < BUFFER_SIZE then
      Piece(if i > 0 && input[i - 1] == RETURN then input[..i - 1] else input[..i], false, input[i + 1..])
    else if |input| >= BUFFER_SIZE then
      var n := if input[BUFFER_SIZE - 1] == RETURN then BUFFER_SIZE - 1 else BUFFER_SIZE;
      Piece(input[..n], true, input[n..])
    else if input == [] then Ended
    else Piece(input, false, [])
  }

  datatype LineRead =
    | GotLine(line: seq<Byte>, rest: seq<Byte>)
    | NoLine(rest: seq<Byte>)
    | TooLong(rest: seq<Byte>)

  /** The pieces put together, after `got`. */
  function LineAfter(got: seq<Byte>, input: seq<Byte>): (r: LineRead)
    ensures |r.rest| <= |input| && (r.GotLine? ==> |r.rest| < |input|)
    decreases |input|
  {
    match NextChunk(input)
    case Ended => NoLine([])
    case Piece(line, more, rest) =>
      if |got| + |line| > MAX_REQUEST_BYTES then TooLong(rest)
      else if more then LineAfter(got + line, rest)
      else GotLine(got + line, rest)
  }

  function FirstLine(input: seq<Byte>): (r: LineRead)
    ensures |r.rest| <= |input| && (r.GotLine? ==> |r.rest| < |input|)
  {
    LineAfter([], input)
  }

  predicate OneLine(body: seq<Byte>) {
    NEWLINE !in body
  }

  function WithoutReturn(body: seq<Byte>): seq<Byte> {
    if body != [] && body[|body| - 1] == RETURN then body[..|body| - 1] else body
  }

  lemma NewlineIsAt(body: seq<Byte>, tail: seq<Byte>)
    requires OneLine(body)
    ensures NewlineAt(body + [NEWLINE] + tail) == |body|
  {
    var input := body + [NEWLINE] + tail;
    assert input[|body|] == NEWLINE;
    assert forall j :: 0 <= j < |body| ==> input[j] == body[j] && body[j] in body;
  }

  lemma ShortLine(body: seq<Byte>, tail: seq<Byte>)
    requires OneLine(body) && |body| < BUFFER_SIZE
    ensures NextChunk(body + [NEWLINE] + tail) == Piece(WithoutReturn(body), false, tail)
  {
    var input := body + [NEWLINE] + tail;
    NewlineIsAt(body, tail);
    assert input[|body| + 1..] == tail && input[..|body|] == body;
    if body != [] {
      assert input[|body| - 1] == body[|body| - 1];
      assert input[..|body| - 1] == body[..|body| - 1];
    }
  }

  /** A full buffer: `a` is handed out and `b` stays. */
  lemma LongLine(a: seq<Byte>, b: seq<Byte>, tail: seq<Byte>)
    requires OneLine(a + b) && |a + b| >= BUFFER_SIZE
    requires |a| == if (a + b)[BUFFER_SIZE - 1] == RETURN then BUFFER_SIZE - 1 else BUFFER_SIZE
    ensures NextChunk(a + b + [NEWLINE] + tail) == Piece(a, true, b + [NEWLINE] + tail)
  {
    var input := a + b + [NEWLINE] + tail;
    NewlineIsAt(a + b, tail);
    assert input[BUFFER_SIZE - 1] == (a + b)[BUFFER_SIZE - 1];
    assert input == a + (b + [NEWLINE] + tail);
    assert input[..|a|] == a && input[|a|..] == b + [NEWLINE] + tail;
  }

  /** A return that ends the front of a line is not what ends the line. */
  lemma ReturnIsKept(a: seq<Byte>, b: seq<Byte>)
    requires b != [] || a == [] || a[|a| - 1] != RETURN
    ensures a + WithoutReturn(b) == WithoutReturn(a + b)
  {
    if b != [] { assert (a + b)[|a + b| - 1] == b[|b| - 1]; }
  }

  /**
    However long the line and wherever the buffer happens to end in it: what is read is the
    text up to the newline, without a return before it, and the reader stops right after.
  */
  lemma {:induction false} LineIsWhole(got: seq<Byte>, body: seq<Byte>, tail: seq<Byte>)
    requires OneLine(body)
    ensures var r := LineAfter(got, body + [NEWLINE] + tail);
            if |got| + |WithoutReturn(body)| <= MAX_REQUEST_BYTES then r == GotLine(got + WithoutReturn(body), tail)
            else r.TooLong?
    decreases |body|
  {
    hide NextChunk, WithoutReturn;
    if |body| < BUFFER_SIZE {
      ShortLine(body, tail);
    } else {
      var n := if body[BUFFER_SIZE - 1] == RETURN then BUFFER_SIZE - 1 else BUFFER_SIZE;
      var a, b := body[..n], body[n..];
      assert body == a + b;
      LongLine(a, b, tail);
      ReturnIsKept(a, b);
      if |got| + n <= MAX_REQUEST_BYTES {
        LineIsWhole(got + a, b, tail);
        assert got + a + WithoutReturn(b) == got + (a + WithoutReturn(b));
      }
    }
  }

  /** A short end of the connection without a newline is read whole, and nothing is left. */
  lemma EndIsRead(body: seq<Byte>)
    requires OneLine(body) && |body| < BUFFER_SIZE
    ensures FirstLine(body) == if body == [] then NoLine([]) else GotLine(body, [])
  {
    assert forall i :: 0 <= i < |body| ==> body[i] in body;
    assert [] + body == body;
  }

  /** The connection, and what of it has not been read. */
  class Reader {
    var unread: seq<Byte>

    constructor (input: seq<Byte>)
      ensures unread == input
    {
      unread := input;
    }

    method ReadLine() returns (chunk: Chunk)
      modifies this
      ensures chunk == NextChunk(old(unread))
      ensures unread == if chunk.Ended? then old(unread) else chunk.rest
    {
      chunk := NextChunk(unread);
      if chunk.Piece? { unread := chunk.rest; }
    }
  }

  /** However much comes without a newline, no more than the ceiling is kept. */
  method ReadLimitedLine(r: Reader) returns (ok: bool, line: seq<Byte>)
    modifies r
    ensures r.unread == FirstLine(old(r.unread)).rest
    ensures ok == FirstLine(old(r.unread)).GotLine?
    ensures ok ==> line == FirstLine(old(r.unread)).line
    ensures |line| <= MAX_REQUEST_BYTES
  {
    var built: seq<Byte> := [];
    while true
      invariant LineAfter(built, r.unread) == FirstLine(old(r.unread)) && |built| <= MAX_REQUEST_BYTES
      decreases |r.unread|
    {
      var chunk := r.ReadLine();
      if chunk.Ended? { return false, []; }
      if |built| + |chunk.line| > MAX_REQUEST_BYTES { return false, []; }
      built := built + chunk.line;
      if !chunk.more { return true, built; }
    }
  }
}
