/**
  The loop that serves one connection (api/server.go, api/files.go): a request line a turn,
  and the chunks that follow an upload, read whether it is refused or taken. How a line
  decodes is a parameter; so is every reason to refuse.
*/
module ServerLoop {
  import opened Options
  import opened Wire
  import opened Framing

  /** What the loop tells apart. */
  datatype Op = Plain | LogFollow | Backup | FileGet | FilePut | ImagePush

  predicate Carries(op: Op) {
    op.FilePut? || op.ImagePush?
  }

  type Decoder = seq<Byte> -> Option<Op>

  // What a connection asks ----------------------------------------------------------------

  /** The connection ends, or a request is taken and the next turn begins at `rest`. */
  datatype Turn = Over | Takes(line: seq<Byte>, op: Op, rest: seq<Byte>)

  function TurnOf(decode: Decoder, input: seq<Byte>): (t: Turn)
    ensures t.Takes? ==> |t.rest| < |input|
  {
    var read := FirstLine(input);
    if !read.GotLine? then Over
    else
      var op := decode(read.line);
      if op.None? then Over
      else Takes(read.line, op.value, if Carries(op.value) then Receive(read.rest, 0).rest else read.rest)
  }

  /** The requests of a connection, in order. Following the log owns the connection from there on. */
  function Requests(decode: Decoder, input: seq<Byte>): seq<seq<Byte>>
    decreases |input|
  {
    var turn := TurnOf(decode, input);
    if turn.Over? then []
    else if turn.op.LogFollow? then [turn.line]
    else [turn.line] + Requests(decode, turn.rest)
  }

  // What a client sends -------------------------------------------------------------------

  datatype Message = Message(text: seq<Byte>, pieces: seq<Read>)

  /** A line break inside would split the message in two; the sender refuses to send one. */
  predicate Sendable(text: seq<Byte>) {
    NEWLINE !in text && RETURN !in text
  }

  /** A request the far end writes whole: a line that decodes, and an upload that ends. */
  predicate WholeMessage(decode: Decoder, m: Message) {
    && Sendable(m.text) && |m.text| <= MAX_REQUEST_BYTES && decode(m.text).Some?
    && (Carries(decode(m.text).value) ==> FitsTheBuffer(m.pieces) && Completes(m.pieces))
  }

  /** Its upload, if it carries one, is under the ceiling. */
  predicate UnderCeiling(decode: Decoder, m: Message)
    requires WholeMessage(decode, m)
  {
    Carries(decode(m.text).value) ==> |Payload(m.pieces)| <= MAX_UPLOAD_BYTES
  }

  predicate WellFormed(decode: Decoder, m: Message) {
    WholeMessage(decode, m) && UnderCeiling(decode, m)
  }

  function Upload(decode: Decoder, m: Message): seq<Byte> {
    if decode(m.text).Some? && Carries(decode(m.text).value) then Sent(m.pieces) else []
  }

  function Encoded(decode: Decoder, m: Message): seq<Byte> {
    m.text + [NEWLINE] + Upload(decode, m)
  }

  function AllEncoded(decode: Decoder, messages: seq<Message>): seq<Byte> {
    if messages == [] then [] else Encoded(decode, messages[0]) + AllEncoded(decode, messages[1..])
  }

  /** The texts of the messages, up to one that follows the log. */
  function Texts(decode: Decoder, messages: seq<Message>): seq<seq<Byte>> {
    if messages == [] then []
    else if decode(messages[0].text) == Some(LogFollow) then [messages[0].text]
    else [messages[0].text] + Texts(decode, messages[1..])
  }

  /** Writes one message as one line: `text` without the newlines it ends with, if that is one. */
  method WriteMessage(w: Sink, text: seq<Byte>) returns (ok: bool, ghost body: seq<Byte>)
    requires !w.broken
    modifies w
    ensures body <= text && (forall i :: |body| <= i < |text| ==> text[i] == NEWLINE)
    ensures body == [] || body[|body| - 1] != NEWLINE
    ensures ok ==> Sendable(body) && w.bytes == old(w.bytes) + (body + [NEWLINE])
    ensures !Sendable(body) ==> !ok && w.bytes == old(w.bytes)
  {
    var n := |text|;
    while n > 0 && text[n - 1] == NEWLINE
      invariant 0 <= n <= |text| && forall i :: n <= i < |text| ==> text[i] == NEWLINE
    {
      n := n - 1;
    }
    var line := text[..n];
    body := line;
    if NEWLINE in line || RETURN in line { return false, body; }
    ghost var wrote;
    ok, wrote := w.Write(line + [NEWLINE]);
  }

  lemma MessageIsOneLine(text: seq<Byte>, tail: seq<Byte>)
    requires Sendable(text) && |text| <= MAX_REQUEST_BYTES
    ensures FirstLine(text + [NEWLINE] + tail) == GotLine(text, tail)
  {
    hide LineAfter;
    LineIsWhole([], text, tail);
    assert WithoutReturn(text) == text by {
      if text != [] { assert text[|text| - 1] in text; }
    }
    assert [] + text == text;
  }

  /**
    Whatever follows it, a message is taken in one turn, and the next turn begins right after
    it exactly when the upload it may carry is under the ceiling. Past the ceiling the next turn
    begins inside the upload, and asks for whatever the payload left unread says.
  */
  lemma OneMessageATurn(decode: Decoder, m: Message, tail: seq<Byte>)
    requires WholeMessage(decode, m)
    ensures TurnOf(decode, Encoded(decode, m) + tail) == Takes(m.text, decode(m.text).value, tail) <==> UnderCeiling(decode, m)
    ensures !UnderCeiling(decode, m) ==>
              TurnOf(decode, Encoded(decode, m) + tail) == Takes(m.text, decode(m.text).value, LeftUnread(m.pieces, 0) + tail)
  {
    hide FirstLine, Receive, Sent, LeftUnread;
    var after := Upload(decode, m) + tail;
    assert Encoded(decode, m) + tail == m.text + [NEWLINE] + after;
    MessageIsOneLine(m.text, after);
    if !UnderCeiling(decode, m) {
      TooMuchIsRefused(m.pieces, tail, 0);
      assert |LeftUnread(m.pieces, 0) + tail| > |tail|;
    } else if Carries(decode(m.text).value) {
      RoundTrip(m.pieces, tail, 0);
    } else {
      assert [] + tail == tail;
    }
  }

  /** A connection that sends messages, then `tail`, asks for exactly those, then what `tail` asks. */
  lemma {:induction false} EveryMessageIsOneRequest(decode: Decoder, messages: seq<Message>, tail: seq<Byte>)
    requires forall i :: 0 <= i < |messages| ==> WellFormed(decode, messages[i])
    ensures Requests(decode, AllEncoded(decode, messages) + tail) ==
            Texts(decode, messages) + if FollowsLog(decode, messages) then [] else Requests(decode, tail)
    decreases |messages|
  {
    hide TurnOf, Encoded, WholeMessage, UnderCeiling;
    if messages == [] {
      assert [] + tail == tail;
      assert [] + Requests(decode, tail) == Requests(decode, tail);
    } else {
      var m, rest := messages[0], messages[1..];
      OneMessageATurn(decode, m, AllEncoded(decode, rest) + tail);
      assert AllEncoded(decode, messages) + tail == Encoded(decode, m) + (AllEncoded(decode, rest) + tail);
      HasOp(decode, m);
      if decode(m.text) != Some(LogFollow) {
        EveryMessageIsOneRequest(decode, rest, tail);
      }
    }
  }

  lemma HasOp(decode: Decoder, m: Message)
    requires WellFormed(decode, m)
    ensures decode(m.text).Some?
  {
  }

  predicate FollowsLog(decode: Decoder, messages: seq<Message>) {
    exists i :: 0 <= i < |messages| && decode(messages[i].text) == Some(LogFollow)
  }

  // Serving -------------------------------------------------------------------------------

  /** Reads an upload that nobody wants to its end, so that the next request is read from its first byte. */
  method Discard(r: Reader)
    modifies r
    ensures r.unread == Receive(old(r.unread), 0).rest
  {
    var nowhere := new Sink(true);
    var total, ok;
    ghost var wrote;
    total, ok, wrote := ReadChunks(r, nowhere);
  }

  /**
    An image push: refused before it is read, or streamed into the runtime, which may stop
    taking it. `took` is what the runtime got; it is told how the upload ended.
  */
  method LoadImage(r: Reader) returns (loaded: bool, ghost took: seq<Byte>, ghost broke: bool)
    modifies r
    ensures !broke ==> r.unread == Receive(old(r.unread), 0).rest
    ensures |r.unread| <= |old(r.unread)|
    ensures broke ==> !loaded && (Receive(old(r.unread), 0).ok ==> |r.unread| > |Receive(old(r.unread), 0).rest|)
    ensures loaded ==> Receive(old(r.unread), 0).ok && took == Receive(old(r.unread), 0).payload
    ensures took <= Receive(old(r.unread), 0).payload
  {
    hide Receive;
    broke, took := false, [];
    var refused := *;
    if refused {
      Discard(r);
      return false, took, broke;
    }
    var pipe := new Sink(false);
    var total;
    total, loaded, took := ReadChunks(r, pipe);
    broke := pipe.broken;
    if !loaded { return; }
    loaded := *;
  }

  /** Files under one volume, by name. */
  class Volume {
    var files: map<string, seq<Byte>>

    constructor (held: map<string, seq<Byte>>)
      ensures files == held
    {
      files := held;
    }
  }

  const UPLOAD_SUFFIX: string := ".hostd-upload"

  /** What a volume holds under every name but one. */
  function Besides(files: map<string, seq<Byte>>, name: string): map<string, seq<Byte>> {
    files - {name}
  }

  /**
    An upload of a file: refused, or written beside its name and renamed into place when it
    is whole. Half an upload is never there under the name.
  */
  method PutFile(r: Reader, volume: Volume, name: string) returns (ok: bool, ghost broke: bool)
    modifies r, volume
    ensures !broke ==> r.unread == Receive(old(r.unread), 0).rest
    ensures |r.unread| <= |old(r.unread)|
    ensures broke ==> !ok && (Receive(old(r.unread), 0).ok ==> |r.unread| > |Receive(old(r.unread), 0).rest|)
    ensures ok ==> Receive(old(r.unread), 0).ok
                   && volume.files == Besides(old(volume.files), name + UPLOAD_SUFFIX)[name := Receive(old(r.unread), 0).payload]
    ensures !ok ==> Besides(volume.files, name + UPLOAD_SUFFIX) == Besides(old(volume.files), name + UPLOAD_SUFFIX)
  {
    hide Receive;
    ok, broke := false, false;
    var refused := *;
    if refused {
      Discard(r);
      return;
    }
    var temporary := name + UPLOAD_SUFFIX;
    var file := new Sink(false);
    var total;
    ghost var wrote;
    total, ok, wrote := ReadChunks(r, file);
    volume.files := volume.files[temporary := file.bytes];
    broke := file.broken;
    // Flushing, closing and renaming may each fail.
    var lands := *;
    assert file.bytes == wrote;
    if ok && lands {
      assert wrote == Receive(old(r.unread), 0).payload;
      volume.files := Besides(volume.files[name := file.bytes], temporary);
      assert name != temporary;
      assert volume.files == Besides(old(volume.files), temporary)[name := file.bytes];
      return;
    }
    ok := false;
    var removed := *;
    if removed { volume.files := Besides(volume.files, temporary); }
  }

  /**
    Serves a connection until it ends, hangs up or follows the log. As long as no sink that
    took an upload failed (`lost`), the requests handled are those the connection asks for,
    in order, none skipped and none made up.
  */
  method Handle(r: Reader, decode: Decoder, volume: Volume)
    returns (ghost handled: seq<seq<Byte>>, ghost lost: bool, ghost hungUp: bool)
    modifies r, volume
    ensures !lost ==> handled <= Requests(decode, old(r.unread))
    ensures !lost && !hungUp ==> handled == Requests(decode, old(r.unread))
  {
    hide Requests, FirstLine, Receive;
    handled, lost, hungUp := [], false, false;
    while true
      invariant !hungUp && (lost || handled + Requests(decode, r.unread) == Requests(decode, old(r.unread)))
      decreases |r.unread|
    {
      ghost var before := handled;
      AskedNext(decode, r.unread);
      var got, line := ReadLimitedLine(r);
      if !got { return; }
      var op := decode(line);
      if op.None? { return; }
      handled := handled + [line];
      if op.value.LogFollow? { return; }
      ghost var broke := false;
      if op.value.FilePut? {
        var ok;
        var name: string := *;
        ok, broke := PutFile(r, volume, name);
      } else if op.value.ImagePush? {
        var ok;
        ghost var took;
        ok, took, broke := LoadImage(r);
      }
      lost := lost || broke;
      assert before + ([line] + Requests(decode, r.unread)) == handled + Requests(decode, r.unread);
      var answered := *;
      if !answered { hungUp := true; return; }
    }
  }

  /** What a connection asks for, one turn at a time. */
  lemma AskedNext(decode: Decoder, input: seq<Byte>)
    ensures var read := FirstLine(input);
            Requests(decode, input) ==
            if !read.GotLine? || decode(read.line).None? then []
            else if decode(read.line).value.LogFollow? then [read.line]
            else [read.line] + Requests(decode, if Carries(decode(read.line).value) then Receive(read.rest, 0).rest else read.rest)
  {
    hide FirstLine, Receive;
  }
}
