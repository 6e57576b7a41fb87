/**
 * Receiving over a byte stream: one recv_frame call reassembles fragments, one recv_msg
 * call answers pings until a data message arrives (sections 5.4 and 5.5 of RFC 6455).
 */
module WsMessages {
  import opened Options
  import opened WsFrames

  /** What read_some finds when it waits for the first byte of a frame: one entry per call. */
  datatype Poll = Ready | TimedOut | Broken
  type Polls = nat -> Poll

  predicate IsControl(opcode: int) {
    opcode == OP_PING || opcode == OP_PONG || opcode == OP_CLOSE
  }

  // ----- one recv_frame call ----------------------------------------------------

  /** at counts the polls used so far. */
  datatype FrameResult = FrameError | Frame(op: int, out: Bytes, rest: Bytes, at: nat)

  /** The loop of recv_frame, from what it has assembled so far; it starts from ([], -1). */
  function RecvFrom(bytes: Bytes, poll: Polls, at: nat, assembled: Bytes, finalOpcode: int): (r: FrameResult)
    requires !IsControl(finalOpcode)
    ensures r.Frame? && r.op >= 0 ==> |r.rest| < |bytes|
    ensures r.Frame? && r.op == OP_PING ==> |r.out| < TWO_31
    decreases |bytes|
  {
    match poll(at)
    case TimedOut => Frame(-1, [], bytes, at + 1)
    case Broken => FrameError
    case Ready =>
      if bytes == [] then FrameError
      else match ParseBody(bytes[0], bytes[1..])
           case Bad => FrameError
           case Parsed(fin, opcode, fragment, rest) =>
             if IsControl(opcode) then Frame(opcode, fragment, rest, at + 1)
             else
               var op := if opcode != OP_CONTINUATION then opcode else finalOpcode;
               if fin then Frame(op, assembled + fragment, rest, at + 1)
               else RecvFrom(rest, poll, at + 1, assembled + fragment, op)
  }

  function RecvFrame(bytes: Bytes, poll: Polls, at: nat): FrameResult {
    RecvFrom(bytes, poll, at, [], -1)
  }

  // ----- one recv_msg call ------------------------------------------------------

  /** pongs are the payloads answered, in order. An exception ends the connection. */
  datatype MsgResult = MsgError | Msg(text: Bytes, pongs: seq<Bytes>, rest: Bytes, at: nat)

  function WithPong(payload: Bytes, r: MsgResult): MsgResult {
    if r.Msg? then r.(pongs := [payload] + r.pongs) else r
  }

  function RecvMsg(bytes: Bytes, poll: Polls, at: nat): (r: MsgResult)
    ensures r.Msg? ==> forall i :: 0 <= i < |r.pongs| ==> |r.pongs[i]| < TWO_31
    decreases |bytes|
  {
    match RecvFrame(bytes, poll, at)
    case FrameError => MsgError
    case Frame(op, out, rest, at') =>
      if op < 0 then Msg([], [], rest, at')
      else if op == OP_PING then WithPong(out, RecvMsg(rest, poll, at'))
      else if op == OP_PONG then RecvMsg(rest, poll, at')
      else if op == OP_CLOSE then MsgError
      else if op == OP_TEXT || op == OP_BINARY then Msg(out, [], rest, at')
      else RecvMsg(rest, poll, at')
  }

  /** A number of successive recv_msg calls. */
  datatype CallsResult = CallsError | Calls(texts: seq<Bytes>, pongs: seq<Bytes>, rest: Bytes, at: nat)

  function RecvCalls(bytes: Bytes, poll: Polls, at: nat, n: nat): CallsResult
    decreases n
  {
    if n == 0 then Calls([], [], bytes, at)
    else match RecvMsg(bytes, poll, at)
         case MsgError => CallsError
         case Msg(text, pongs, rest, at') => Prefix([text], pongs, RecvCalls(rest, poll, at', n - 1))
  }

  /** Results that come before those of the later calls. */
  function Prefix(texts: seq<Bytes>, pongs: seq<Bytes>, later: CallsResult): CallsResult {
    if later.Calls? then later.(texts := texts + later.texts, pongs := pongs + later.pongs) else later
  }

  // ----- single frames ----------------------------------------------------------

  /** One turn of the loop on a printed frame. */
  lemma OneFrame(w: Wire, rest: Bytes, poll: Polls, at: nat, assembled: Bytes, finalOpcode: int)
    requires ValidWire(w) && !IsControl(finalOpcode) && poll(at) == Ready
    ensures RecvFrom(Print(w) + rest, poll, at, assembled, finalOpcode)
         == if |w.payload| >= TWO_31 then FrameError
            else if IsControl(w.opcode) then Frame(w.opcode, w.payload, rest, at + 1)
            else var op := if w.opcode != OP_CONTINUATION then w.opcode as int else finalOpcode;
              if w.fin then Frame(op, assembled + w.payload, rest, at + 1)
              else RecvFrom(rest, poll, at + 1, assembled + w.payload, op)
  {
    hide ParseBody, Print;
    var bytes := Print(w) + rest;
    assert bytes[1..] == Print(w)[1..] + rest;
    FrameRoundTrip(w, rest);
  }

  predicate SentOpcode(op: Byte) {
    op == OP_TEXT || op == OP_BINARY || IsControl(op)
  }

  /**
   * recv_frame on the bytes of send_frame returns the opcode and payload and consumes
   * exactly those bytes, for every mask, if and only if the payload is shorter than
   * 2^31 bytes; a longer one is an error.
   */
  lemma RecvOfSend(op: Byte, data: Bytes, mask: Mask, rest: Bytes, poll: Polls, at: nat)
    requires SentOpcode(op) && |data| < TWO_64 && poll(at) == Ready
    ensures RecvFrame(ClientFrame(op, data, mask) + rest, poll, at)
         == if |data| < TWO_31 then Frame(op, data, rest, at + 1) else FrameError
  {
    hide RecvFrom, Print;
    OneFrame(Wire(true, op, Some(mask), data), rest, poll, at, [], -1);
    assert [] + data == data;
  }

  /** Frames with an opcode that is not in use are dropped, with all they carry. */
  lemma UnknownOpcodeIsSkipped(w: Wire, rest: Bytes, poll: Polls, at: nat)
    requires ValidWire(w) && w.fin && |w.payload| < TWO_31 && poll(at) == Ready
    requires !SentOpcode(w.opcode) && w.opcode != OP_CONTINUATION
    ensures RecvMsg(Print(w) + rest, poll, at) == RecvMsg(rest, poll, at + 1)
  {
    hide RecvFrom, Print;
    OneFrame(w, rest, poll, at, [], -1);
    assert [] + w.payload == w.payload;
  }

  datatype Sent = Sent(opcode: Byte, data: Bytes, mask: Mask)

  predicate Sendable(s: Sent) {
    SentOpcode(s.opcode) && |s.data| < TWO_31
  }

  function FrameOf(s: Sent): Bytes
    requires Sendable(s)
  {
    ClientFrame(s.opcode, s.data, s.mask)
  }

  predicate AllSendable(s: seq<Sent>) {
    forall i :: 0 <= i < |s| ==> Sendable(s[i])
  }

  function SentBytes(s: seq<Sent>): Bytes
    requires AllSendable(s)
  {
    if s == [] then [] else FrameOf(s[0]) + SentBytes(s[1..])
  }

  predicate AllReady(poll: Polls, at: nat, n: nat) {
    forall i :: at <= i < at + n ==> poll(i) == Ready
  }

  /** n successive recv_frame calls succeed with these opcodes and payloads and leave rest. */
  predicate Receives(bytes: Bytes, poll: Polls, at: nat, s: seq<Sent>, rest: Bytes)
    decreases |s|
  {
    if s == [] then bytes == rest
    else
      var r := RecvFrame(bytes, poll, at);
      r.Frame? && r.op == s[0].opcode && r.out == s[0].data && Receives(r.rest, poll, r.at, s[1..], rest)
  }

  /** Concatenated frames decode in the order they were sent. */
  lemma {:induction false} FramesDecodeInOrder(s: seq<Sent>, rest: Bytes, poll: Polls, at: nat)
    requires AllSendable(s) && AllReady(poll, at, |s|)
    ensures Receives(SentBytes(s) + rest, poll, at, s, rest)
  {
    if s == [] {
      assert SentBytes(s) + rest == rest;
    } else {
      hide RecvFrame, FrameOf, Sendable, AllReady;
      var more := SentBytes(s[1..]) + rest;
      assert SentBytes(s) + rest == FrameOf(s[0]) + more;
      FirstSent(s[0], more, poll, at, |s|);
      FramesDecodeInOrder(s[1..], rest, poll, at + 1);
    }
  }

  lemma FirstSent(s: Sent, rest: Bytes, poll: Polls, at: nat, n: nat)
    requires Sendable(s) && AllReady(poll, at, n) && n > 0
    ensures RecvFrame(FrameOf(s) + rest, poll, at) == Frame(s.opcode, s.data, rest, at + 1)
    ensures AllReady(poll, at + 1, n - 1)
  {
    hide RecvFrame, ClientFrame;
    RecvOfSend(s.opcode, s.data, s.mask, rest, poll, at);
  }

  // ----- fragmented messages ----------------------------------------------------

  datatype Fragment = Fragment(mask: Option<Mask>, payload: Bytes)

  /** What can come between two data frames: a control frame, or a wait that times out. */
  datatype Note =
    | Ping(payload: Bytes, mask: Option<Mask>)
    | Pong(payload: Bytes, mask: Option<Mask>)
    | Silence

  /** One event in the course of a message. */
  datatype Piece = Part(f: Fragment) | Between(n: Note)

  predicate ValidNote(n: Note) {
    n.Silence? || |n.payload| < TWO_31
  }

  predicate ValidPiece(p: Piece) {
    match p
    case Part(f) => |f.payload| < TWO_31
    case Between(n) => ValidNote(n)
  }

  /** A message, or the rest of one: the last piece is a fragment and carries the FIN bit. */
  predicate Closed(pieces: seq<Piece>) {
    && pieces != [] && pieces[|pieces| - 1].Part?
    && forall i :: 0 <= i < |pieces| ==> ValidPiece(pieces[i])
  }

  predicate Unbroken(pieces: seq<Piece>) {
    forall i :: 0 <= i < |pieces| ==> pieces[i].Part?
  }

  function Concat(pieces: seq<Piece>): Bytes {
    if pieces == [] then []
    else if pieces[0].Part? then pieces[0].f.payload + Concat(pieces[1..])
    else Concat(pieces[1..])
  }

  function NoteBytes(n: Note): Bytes
    requires ValidNote(n)
  {
    match n
    case Ping(payload, mask) => Print(Wire(true, OP_PING, mask, payload))
    case Pong(payload, mask) => Print(Wire(true, OP_PONG, mask, payload))
    case Silence => []
  }

  function PartBytes(fin: bool, op: Byte, f: Fragment): Bytes
    requires op < 0x10 && |f.payload| < TWO_31
  {
    Print(Wire(fin, op, f.mask, f.payload))
  }

  /** A piece that is not the last one. */
  function OpenBytes(op: Byte, p: Piece): Bytes
    requires op < 0x10 && ValidPiece(p)
  {
    match p
    case Part(f) => PartBytes(false, op, f)
    case Between(n) => NoteBytes(n)
  }

  function NextOp(op: Byte, p: Piece): Byte {
    if p.Part? then OP_CONTINUATION else op
  }

  /** The first fragment carries the opcode, the others continue it, the last one has the FIN bit. */
  function MessageBytes(op: Byte, pieces: seq<Piece>): Bytes
    requires op < 0x10 && Closed(pieces)
    decreases |pieces|
  {
    if |pieces| == 1 then PartBytes(true, op, pieces[0].f)
    else
      assert ValidPiece(pieces[0]);
      OpenBytes(op, pieces[0]) + MessageBytes(NextOp(op, pieces[0]), pieces[1..])
  }

  /** What the wait finds: only a silence times out, and nothing breaks. */
  function PollOf(p: Piece): Poll {
    if p == Between(Silence) then TimedOut else Ready
  }

  predicate PollsFit(poll: Polls, at: nat, pieces: seq<Piece>) {
    forall i :: 0 <= i < |pieces| ==> poll(at + i) == PollOf(pieces[i])
  }

  /** The opcode the loop remembers after a data frame. */
  function Remembered(op: Byte, finalOpcode: int): int {
    if op != OP_CONTINUATION then op else finalOpcode
  }

  lemma OnePart(fin: bool, op: Byte, f: Fragment, rest: Bytes, poll: Polls, at: nat,
                assembled: Bytes, finalOpcode: int)
    requires op < 0x10 && !IsControl(op) && |f.payload| < TWO_31
    requires !IsControl(finalOpcode) && poll(at) == Ready
    ensures RecvFrom(PartBytes(fin, op, f) + rest, poll, at, assembled, finalOpcode)
         == if fin then Frame(Remembered(op, finalOpcode), assembled + f.payload, rest, at + 1)
            else RecvFrom(rest, poll, at + 1, assembled + f.payload, Remembered(op, finalOpcode))
  {
    hide RecvFrom, Print;
    OneFrame(Wire(fin, op, f.mask, f.payload), rest, poll, at, assembled, finalOpcode);
  }

  /** Whatever has been assembled, a control frame or a timeout ends the recv_frame call without it. */
  lemma OneNote(n: Note, rest: Bytes, poll: Polls, at: nat, assembled: Bytes, finalOpcode: int)
    requires ValidNote(n) && poll(at) == PollOf(Between(n)) && !IsControl(finalOpcode)
    ensures RecvFrom(NoteBytes(n) + rest, poll, at, assembled, finalOpcode)
         == match n
            case Ping(payload, _) => Frame(OP_PING, payload, rest, at + 1)
            case Pong(payload, _) => Frame(OP_PONG, payload, rest, at + 1)
            case Silence => Frame(-1, [], rest, at + 1)
  {
    hide Print;
    match n
    case Ping(payload, mask) =>
      OneFrame(Wire(true, OP_PING, mask, payload), rest, poll, at, assembled, finalOpcode);
    case Pong(payload, mask) =>
      OneFrame(Wire(true, OP_PONG, mask, payload), rest, poll, at, assembled, finalOpcode);
    case Silence =>
      assert [] + rest == rest;
  }

  /** The first piece, and what is left after it. */
  lemma FirstPiece(op: Byte, pieces: seq<Piece>, poll: Polls, at: nat)
    requires op < 0x10 && Closed(pieces) && PollsFit(poll, at, pieces)
    ensures pieces != [] && ValidPiece(pieces[0]) && poll(at) == PollOf(pieces[0])
    ensures |pieces| == 1 ==>
              pieces[0].Part? && pieces == [pieces[0]] && MessageBytes(op, pieces) == PartBytes(true, op, pieces[0].f)
    ensures |pieces| > 1 ==>
              && Closed(pieces[1..]) && PollsFit(poll, at + 1, pieces[1..])
              && (Unbroken(pieces) <==> pieces[0].Part? && Unbroken(pieces[1..]))
              && MessageBytes(op, pieces)
                 == OpenBytes(op, pieces[0]) + MessageBytes(NextOp(op, pieces[0]), pieces[1..])
  {
    hide PartBytes, OpenBytes;
    assert poll(at + 0) == PollOf(pieces[0]);
    forall i | 0 <= i < |pieces| - 1 ensures poll(at + 1 + i) == PollOf(pieces[1..][i]) {
      assert poll(at + (i + 1)) == PollOf(pieces[i + 1]);
    }
    if |pieces| > 1 && pieces[0].Part? && Unbroken(pieces[1..]) {
      forall i | 0 <= i < |pieces| ensures pieces[i].Part? {
        assert i > 0 ==> pieces[i] == pieces[1..][i - 1];
      }
    }
  }

  lemma Regroup(a: Bytes, b: Bytes, c: Bytes)
    ensures a + b + c == a + (b + c)
  {
  }

  lemma {:induction false} ReassembleFrom(op: Byte, pieces: seq<Piece>, rest: Bytes, poll: Polls, at: nat,
                                          assembled: Bytes, finalOpcode: int)
    requires op < 0x10 && !IsControl(op) && !IsControl(finalOpcode)
    requires Closed(pieces) && Unbroken(pieces) && PollsFit(poll, at, pieces)
    ensures RecvFrom(MessageBytes(op, pieces) + rest, poll, at, assembled, finalOpcode)
         == Frame(Remembered(op, finalOpcode), assembled + Concat(pieces), rest, at + |pieces|)
    decreases |pieces|
  {
    hide RecvFrom, PartBytes, MessageBytes, Closed, PollsFit;
    FirstPiece(op, pieces, poll, at);
    var f := pieces[0].f;
    if |pieces| == 1 {
      OnePart(true, op, f, rest, poll, at, assembled, finalOpcode);
      assert Concat(pieces) == f.payload + [] == f.payload;
    } else {
      var more := MessageBytes(OP_CONTINUATION, pieces[1..]);
      Regroup(PartBytes(false, op, f), more, rest);
      OnePart(false, op, f, more + rest, poll, at, assembled, finalOpcode);
      ReassembleFrom(OP_CONTINUATION, pieces[1..], rest, poll, at + 1, assembled + f.payload,
                     Remembered(op, finalOpcode));
      Regroup(assembled, f.payload, Concat(pieces[1..]));
    }
  }

  /**
   * A message split into any number of fragments, with any masks, decodes to its first
   * opcode and the concatenated payloads. A message of continuations only has opcode -1.
   */
  lemma FragmentsReassemble(op: Byte, pieces: seq<Piece>, rest: Bytes, poll: Polls, at: nat)
    requires op < 0x10 && !IsControl(op)
    requires Closed(pieces) && Unbroken(pieces) && PollsFit(poll, at, pieces)
    ensures RecvFrame(MessageBytes(op, pieces) + rest, poll, at)
         == Frame(if op == OP_CONTINUATION then -1 else op, Concat(pieces), rest, at + |pieces|)
  {
    hide RecvFrom, MessageBytes, Concat;
    ReassembleFrom(op, pieces, rest, poll, at, [], -1);
    assert [] + Concat(pieces) == Concat(pieces);
  }

  // ----- what recv_msg makes of a frame --------------------------------------------

  /** The rest of a recv_msg call, once recv_frame has returned f. */
  function Handled(f: FrameResult, poll: Polls): MsgResult {
    match f
    case FrameError => MsgError
    case Frame(op, out, rest, at') =>
      if op < 0 then Msg([], [], rest, at')
      else if op == OP_PING then WithPong(out, RecvMsg(rest, poll, at'))
      else if op == OP_PONG then RecvMsg(rest, poll, at')
      else if op == OP_CLOSE then MsgError
      else if op == OP_TEXT || op == OP_BINARY then Msg(out, [], rest, at')
      else RecvMsg(rest, poll, at')
  }

  /** That call and n - 1 more. */
  function CallsAfter(f: FrameResult, poll: Polls, n: nat): CallsResult
    requires n > 0
  {
    match Handled(f, poll)
    case MsgError => CallsError
    case Msg(text, pongs, rest, at') => Prefix([text], pongs, RecvCalls(rest, poll, at', n - 1))
  }

  lemma CallsStartWithAFrame(bytes: Bytes, poll: Polls, at: nat, n: nat)
    requires n > 0
    ensures RecvCalls(bytes, poll, at, n) == CallsAfter(RecvFrom(bytes, poll, at, [], -1), poll, n)
  {
    hide RecvFrom;
  }

  lemma PrefixLaws(a: seq<Bytes>, b: seq<Bytes>, c: seq<Bytes>, d: seq<Bytes>, r: CallsResult)
    ensures Prefix([], [], r) == r
    ensures Prefix(a, b, Prefix(c, d, r)) == Prefix(a + c, b + d, r)
  {
    if r.Calls? {
      assert [] + r.texts == r.texts && [] + r.pongs == r.pongs;
      assert a + (c + r.texts) == a + c + r.texts && b + (d + r.pongs) == b + d + r.pongs;
    }
  }

  lemma AfterPing(payload: Bytes, more: Bytes, poll: Polls, at: nat, n: nat)
    requires n > 0
    ensures CallsAfter(Frame(OP_PING, payload, more, at), poll, n) == Prefix([], [payload], RecvCalls(more, poll, at, n))
  {
    hide RecvMsg;
    var r := RecvMsg(more, poll, at);
    if r.Msg? {
      var later := RecvCalls(r.rest, poll, r.at, n - 1);
      if later.Calls? {
        assert [payload] + r.pongs + later.pongs == [payload] + (r.pongs + later.pongs);
        assert [] + ([r.text] + later.texts) == [r.text] + later.texts;
      }
    }
  }

  lemma AfterPong(payload: Bytes, more: Bytes, poll: Polls, at: nat, n: nat)
    requires n > 0
    ensures CallsAfter(Frame(OP_PONG, payload, more, at), poll, n) == RecvCalls(more, poll, at, n)
  {
    hide RecvMsg;
  }

  /** A negative opcode ends the call with "", a data opcode with the payload. */
  lemma AfterEnd(op: int, out: Bytes, more: Bytes, poll: Polls, at: nat, n: nat)
    requires n > 0 && (op < 0 || op == OP_TEXT || op == OP_BINARY)
    ensures CallsAfter(Frame(op, out, more, at), poll, n)
         == Prefix([if op < 0 then [] else out], [], RecvCalls(more, poll, at, n - 1))
  {
    hide RecvMsg;
  }

  function NoteTexts(n: Note): seq<Bytes> {
    if n.Silence? then [[]] else []
  }

  function NotePings(n: Note): seq<Bytes> {
    if n.Ping? then [n.payload] else []
  }

  /** A ping is answered, a pong ignored and a silence ends the call with "", whatever was assembled. */
  lemma NoteThenCalls(n: Note, more: Bytes, poll: Polls, at: nat, assembled: Bytes, finalOpcode: int, calls: nat)
    requires ValidNote(n) && poll(at) == PollOf(Between(n)) && !IsControl(finalOpcode) && calls > 0
    ensures CallsAfter(RecvFrom(NoteBytes(n) + more, poll, at, assembled, finalOpcode), poll, calls)
         == Prefix(NoteTexts(n), NotePings(n), RecvCalls(more, poll, at + 1, calls - |NoteTexts(n)|))
  {
    hide RecvFrom, CallsAfter, RecvCalls, NoteBytes;
    OneNote(n, more, poll, at, assembled, finalOpcode);
    match n
    case Ping(payload, _) => AfterPing(payload, more, poll, at + 1, calls);
    case Pong(payload, _) =>
      AfterPong(payload, more, poll, at + 1, calls);
      PrefixLaws([], [], [], [], RecvCalls(more, poll, at + 1, calls));
    case Silence => AfterEnd(-1, [], more, poll, at + 1, calls);
  }

  /** A CLOSE frame throws, also in the middle of a message. */
  lemma CloseThrows(payload: Bytes, mask: Option<Mask>, rest: Bytes, poll: Polls, at: nat,
                    assembled: Bytes, finalOpcode: int, calls: nat)
    requires |payload| < TWO_31 && poll(at) == Ready && !IsControl(finalOpcode) && calls > 0
    ensures CallsAfter(RecvFrom(Print(Wire(true, OP_CLOSE, mask, payload)) + rest, poll, at, assembled, finalOpcode),
                       poll, calls)
         == CallsError
  {
    hide RecvFrom, Print;
    OneFrame(Wire(true, OP_CLOSE, mask, payload), rest, poll, at, assembled, finalOpcode);
  }

  // ----- interrupted messages --------------------------------------------------------

  function Silences(pieces: seq<Piece>): nat {
    if pieces == [] then 0
    else (if pieces[0] == Between(Silence) then 1 else 0) + Silences(pieces[1..])
  }

  function PingsIn(pieces: seq<Piece>): seq<Bytes> {
    if pieces == [] then []
    else (if pieces[0].Between? then NotePings(pieces[0].n) else []) + PingsIn(pieces[1..])
  }

  function Blanks(n: nat): (r: seq<Bytes>)
    ensures |r| == n && forall i :: 0 <= i < n ==> r[i] == []
  {
    if n == 0 then [] else [[]] + Blanks(n - 1)
  }

  /**
   * From the middle of a message that is interrupted later on, or whose first fragments
   * have been lost already: the calls return "" once for every silence and once at the
   * end, and the pings are answered in order.
   */
  lemma {:induction false} InterruptedFrom(op: Byte, pieces: seq<Piece>, rest: Bytes, poll: Polls, at: nat,
                                           assembled: Bytes, finalOpcode: int, m: nat)
    requires op < 0x10 && !IsControl(op) && !IsControl(finalOpcode)
    requires Closed(pieces) && PollsFit(poll, at, pieces)
    requires pieces[0].Between? ==> op == OP_CONTINUATION
    requires (op == OP_CONTINUATION && finalOpcode == -1) || !Unbroken(pieces)
    ensures CallsAfter(RecvFrom(MessageBytes(op, pieces) + rest, poll, at, assembled, finalOpcode), poll,
                       Silences(pieces) + 1 + m)
         == Prefix(Blanks(Silences(pieces) + 1), PingsIn(pieces), RecvCalls(rest, poll, at + |pieces|, m))
    decreases |pieces|
  {
    hide RecvFrom, CallsAfter, RecvCalls, PartBytes, NoteBytes, MessageBytes, Closed, PollsFit, Unbroken, Prefix;
    FirstPiece(op, pieces, poll, at);
    if |pieces| == 1 {
      LoneIsUnbroken(pieces);
      OnePart(true, op, pieces[0].f, rest, poll, at, assembled, finalOpcode);
      AfterEnd(-1, assembled + pieces[0].f.payload, rest, poll, at + 1, 1 + m);
      LonePiece(pieces);
    } else {
      var tail := pieces[1..];
      var calls := Silences(pieces) + 1 + m;
      match pieces[0]
      case Part(f) =>
        var more := MessageBytes(OP_CONTINUATION, tail);
        Regroup(PartBytes(false, op, f), more, rest);
        OnePart(false, op, f, more + rest, poll, at, assembled, finalOpcode);
        InterruptedFrom(OP_CONTINUATION, tail, rest, poll, at + 1, assembled + f.payload,
                        Remembered(op, finalOpcode), m);
        assert [] + PingsIn(tail) == PingsIn(tail);
      case Between(n) =>
        var more := MessageBytes(op, tail);
        Regroup(NoteBytes(n), more, rest);
        NoteThenCalls(n, more + rest, poll, at, assembled, finalOpcode, calls);
        CallsStartWithAFrame(more + rest, poll, at + 1, Silences(tail) + 1 + m);
        InterruptedFrom(op, tail, rest, poll, at + 1, [], -1, m);
        PrefixLaws(NoteTexts(n), NotePings(n), Blanks(Silences(tail) + 1), PingsIn(tail),
                   RecvCalls(rest, poll, at + |pieces|, m));
        assert [] + Blanks(Silences(tail) + 1) == Blanks(Silences(tail) + 1);
    }
  }

  lemma LoneIsUnbroken(pieces: seq<Piece>)
    requires |pieces| == 1 && pieces[0].Part?
    ensures Unbroken(pieces)
  {
  }

  lemma LonePiece(pieces: seq<Piece>)
    requires |pieces| == 1 && pieces[0].Part?
    ensures Silences(pieces) == 0 && PingsIn(pieces) == [] && Blanks(1) == [[]]
  {
    assert pieces[1..] == [];
    assert Blanks(1) == [[]] + Blanks(0) == [[]];
  }

  lemma {:induction false} UnbrokenIsQuiet(pieces: seq<Piece>)
    requires Unbroken(pieces)
    ensures Silences(pieces) == 0 && PingsIn(pieces) == []
  {
    if pieces != [] {
      UnbrokenIsQuiet(pieces[1..]);
    }
  }

  predicate IsMessage(op: Byte, pieces: seq<Piece>) {
    (op == OP_TEXT || op == OP_BINARY) && Closed(pieces) && pieces[0].Part?
  }

  /** What the calls spent on a message return. */
  function MessageTexts(pieces: seq<Piece>): seq<Bytes> {
    if Unbroken(pieces) then [Concat(pieces)] else Blanks(Silences(pieces) + 1)
  }

  /** The calls spent on a message, interrupted or not, and m more. */
  lemma MessageThenCalls(op: Byte, pieces: seq<Piece>, rest: Bytes, poll: Polls, at: nat, m: nat)
    requires IsMessage(op, pieces) && PollsFit(poll, at, pieces)
    ensures |MessageTexts(pieces)| == Silences(pieces) + 1
    ensures RecvCalls(MessageBytes(op, pieces) + rest, poll, at, |MessageTexts(pieces)| + m)
         == Prefix(MessageTexts(pieces), PingsIn(pieces), RecvCalls(rest, poll, at + |pieces|, m))
  {
    hide RecvFrom, CallsAfter, RecvCalls, MessageBytes, Closed, PollsFit, Unbroken, Prefix, Concat, Silences, PingsIn;
    if Unbroken(pieces) {
      UnbrokenIsQuiet(pieces);
      FragmentsReassemble(op, pieces, rest, poll, at);
      AfterEnd(op, Concat(pieces), rest, poll, at + |pieces|, 1 + m);
    } else {
      InterruptedFrom(op, pieces, rest, poll, at, [], -1, m);
    }
    CallsStartWithAFrame(MessageBytes(op, pieces) + rest, poll, at, |MessageTexts(pieces)| + m);
  }

  /**
   * A message with a payload is delivered if and only if nothing comes between its
   * fragments. Otherwise, whatever pings, pongs and silences come and wherever, the calls
   * return only "", once for every silence and once at the end; the pings are answered.
   */
  lemma DeliveredIffUninterrupted(op: Byte, pieces: seq<Piece>, rest: Bytes, poll: Polls, at: nat)
    requires IsMessage(op, pieces) && PollsFit(poll, at, pieces) && Concat(pieces) != []
    ensures var r := RecvCalls(MessageBytes(op, pieces) + rest, poll, at, Silences(pieces) + 1);
            && r.Calls? && r.rest == rest && r.at == at + |pieces| && r.pongs == PingsIn(pieces)
            && (Concat(pieces) in r.texts <==> Unbroken(pieces))
            && (!Unbroken(pieces) ==> r.texts == Blanks(Silences(pieces) + 1))
  {
    hide RecvCalls, MessageBytes, Closed, PollsFit, Unbroken, Concat, Silences, PingsIn, MessageTexts;
    MessageThenCalls(op, pieces, rest, poll, at, 0);
    NoCalls(rest, poll, at + |pieces|);
    assert MessageTexts(pieces) + [] == MessageTexts(pieces);
    assert PingsIn(pieces) + [] == PingsIn(pieces);
    TextsTell(pieces);
  }

  lemma TextsTell(pieces: seq<Piece>)
    requires Concat(pieces) != []
    ensures Concat(pieces) in MessageTexts(pieces) <==> Unbroken(pieces)
    ensures !Unbroken(pieces) ==> MessageTexts(pieces) == Blanks(Silences(pieces) + 1)
  {
    hide Concat, Unbroken, Silences;
  }

  lemma NoCalls(bytes: Bytes, poll: Polls, at: nat)
    ensures RecvCalls(bytes, poll, at, 0) == Calls([], [], bytes, at)
  {
  }

  // ----- streams of deliveries ---------------------------------------------------

  /** What the peer and the clock put in front of recv_msg. */
  datatype Delivery = Alone(n: Note) | Data(op: Byte, pieces: seq<Piece>)

  predicate ValidDelivery(d: Delivery) {
    match d
    case Alone(n) => ValidNote(n)
    case Data(op, pieces) => IsMessage(op, pieces)
  }

  predicate ValidStream(s: seq<Delivery>) {
    forall i :: 0 <= i < |s| ==> ValidDelivery(s[i])
  }

  function DeliveryBytes(d: Delivery): Bytes
    requires ValidDelivery(d)
  {
    match d
    case Alone(n) => NoteBytes(n)
    case Data(op, pieces) => MessageBytes(op, pieces)
  }

  function StreamBytes(s: seq<Delivery>): Bytes
    requires ValidStream(s)
  {
    if s == [] then [] else DeliveryBytes(s[0]) + StreamBytes(s[1..])
  }

  /** Its events, one for every wait. */
  function Events(d: Delivery): (r: seq<Piece>)
    ensures d.Alone? ==> r == [Between(d.n)]
  {
    if d.Alone? then [Between(d.n)] else d.pieces
  }

  function StreamEvents(s: seq<Delivery>): nat {
    if s == [] then 0 else |Events(s[0])| + StreamEvents(s[1..])
  }

  predicate StreamFits(poll: Polls, at: nat, s: seq<Delivery>)
    decreases |s|
  {
    s != [] ==> PollsFit(poll, at, Events(s[0])) && StreamFits(poll, at + |Events(s[0])|, s[1..])
  }

  /** The payload of an uninterrupted message; "" for a silence, and for an interrupted message. */
  function DeliveryTexts(d: Delivery): seq<Bytes> {
    if d.Alone? then NoteTexts(d.n) else MessageTexts(d.pieces)
  }

  function DeliveryPings(d: Delivery): seq<Bytes> {
    if d.Alone? then NotePings(d.n) else PingsIn(d.pieces)
  }

  function Texts(s: seq<Delivery>): seq<Bytes> {
    if s == [] then [] else DeliveryTexts(s[0]) + Texts(s[1..])
  }

  function Pings(s: seq<Delivery>): seq<Bytes> {
    if s == [] then [] else DeliveryPings(s[0]) + Pings(s[1..])
  }

  /** A message or a silence ends at least one call; a ping or pong belongs to the next one. */
  predicate EndsCall(d: Delivery) {
    d.Data? || d.n.Silence?
  }

  lemma FirstDelivery(d: Delivery, rest: Bytes, poll: Polls, at: nat, m: nat)
    requires ValidDelivery(d) && PollsFit(poll, at, Events(d)) && (EndsCall(d) || m > 0)
    ensures EndsCall(d) ==> |DeliveryTexts(d)| > 0
    ensures RecvCalls(DeliveryBytes(d) + rest, poll, at, |DeliveryTexts(d)| + m)
         == Prefix(DeliveryTexts(d), DeliveryPings(d), RecvCalls(rest, poll, at + |Events(d)|, m))
  {
    hide RecvFrom, CallsAfter, RecvCalls, MessageBytes, NoteBytes, Prefix, Concat;
    match d
    case Alone(n) =>
      assert poll(at + 0) == PollOf(Events(d)[0]);
      NoteThenCalls(n, rest, poll, at, [], -1, |NoteTexts(n)| + m);
      CallsStartWithAFrame(NoteBytes(n) + rest, poll, at, |NoteTexts(n)| + m);
    case Data(op, pieces) =>
      hide PollsFit;
      MessageThenCalls(op, pieces, rest, poll, at, m);
  }

  lemma {:induction false} EndsGiveCalls(s: seq<Delivery>)
    requires s != [] && EndsCall(s[|s| - 1])
    ensures Texts(s) != []
  {
    if |s| > 1 {
      EndsGiveCalls(s[1..]);
    }
  }

  /**
   * Over any stream of pings, pongs, silences and messages, interrupted or not,
   * successive recv_msg calls return the payloads of the uninterrupted messages in order
   * (and "" for each silence and each interrupted message), answer every ping once and in
   * order, and consume exactly the bytes of the stream.
   */
  lemma {:induction false} StreamDelivered(s: seq<Delivery>, rest: Bytes, poll: Polls, at: nat)
    requires ValidStream(s) && StreamFits(poll, at, s)
    requires s != [] ==> EndsCall(s[|s| - 1])
    ensures RecvCalls(StreamBytes(s) + rest, poll, at, |Texts(s)|)
         == Calls(Texts(s), Pings(s), rest, at + StreamEvents(s))
  {
    hide RecvCalls, DeliveryBytes, PollsFit, ValidDelivery, ValidStream, DeliveryTexts, DeliveryPings, Events, EndsCall;
    if s == [] {
      assert StreamBytes(s) + rest == rest;
      NoCalls(rest, poll, at);
    } else {
      var d := s[0];
      FirstValid(s);
      Regroup(DeliveryBytes(d), StreamBytes(s[1..]), rest);
      var more := StreamBytes(s[1..]) + rest;
      StreamDelivered(s[1..], rest, poll, at + |Events(d)|);
      if !EndsCall(d) {
        EndsGiveCalls(s[1..]);
      }
      FirstDelivery(d, more, poll, at, |Texts(s[1..])|);
    }
  }

  lemma FirstValid(s: seq<Delivery>)
    requires ValidStream(s) && s != []
    ensures ValidDelivery(s[0]) && ValidStream(s[1..])
  {
  }
}
