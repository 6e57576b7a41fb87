/** The WebSocket client: socket loops, the frame writer and the receive loops, on byte buffers changed in place. */
module WsClient {
  import opened Masks
  import opened WsFrames
  import opened WsMessages

  const TLS_CHUNK: nat := 16384

  /** A request that is cut short by the cast can never be completed. */
  lemma StillTooLong(left: nat, r: nat)
    requires left >= TWO_31 && r <= ToInt32(left)
    ensures left - r >= TWO_31
  {
    var q := (left + TWO_31) / TWO_32;
    assert q >= 1;
    assert ToInt32(left) == left - q * TWO_32;
  }

  /** The TLS connection; reads and writes may be short, and a write may fail at any time. */
  class TlsConn {
    /** What the peer sends before the connection ends. */
    var inbox: Bytes
    /** What the peer has been sent. */
    var outbox: Bytes
    /** The waits in read_some, decided outside; polled counts them. */
    const poll: Polls
    var polled: nat
    var writeFailed: bool

    constructor (bytes: Bytes, waits: Polls)
      ensures inbox == bytes && outbox == [] && polled == 0 && poll == waits && !writeFailed
    {
      inbox, outbox, polled, poll, writeFailed := bytes, [], 0, waits, false;
    }

    method SslRead(n: int) returns (r: int, data: Bytes)
      modifies `inbox
      ensures r > 0 <==> n > 0 && old(inbox) != []
      ensures r > 0 ==> r <= n && r <= |old(inbox)| && data == old(inbox)[..r] && inbox == old(inbox)[r..]
      ensures r <= 0 ==> inbox == old(inbox)
    {
      if n <= 0 || inbox == [] {
        return -1, [];
      }
      assert 1 <= n && 1 <= |inbox|;
      r :| 1 <= r <= n && r <= |inbox|;
      data := inbox[..r];
      inbox := inbox[r..];
    }

    method SslWrite(data: Bytes) returns (n: int)
      requires data != []
      modifies `outbox, `writeFailed
      ensures n <= |data|
      ensures n > 0 ==> outbox == old(outbox) + data[..n] && writeFailed == old(writeFailed)
      ensures n <= 0 ==> outbox == old(outbox) && writeFailed
    {
      n :| -1 <= n <= |data|;
      if n > 0 {
        outbox := outbox + data[..n];
      } else {
        writeFailed := true;
      }
    }

    method WriteAll(data: Bytes) returns (ok: bool)
      modifies `outbox, `writeFailed
      ensures ok ==> outbox == old(outbox) + data && writeFailed == old(writeFailed)
      ensures !ok ==> writeFailed && exists k :: 0 <= k <= |data| && outbox == old(outbox) + data[..k]
    {
      var done := 0;
      while done < |data|
        invariant 0 <= done <= |data|
        invariant outbox == old(outbox) + data[..done]
        invariant writeFailed == old(writeFailed)
      {
        var left := |data| - done;
        var n := SslWrite(data[done..done + (if left < TLS_CHUNK then left else TLS_CHUNK)]);
        if n <= 0 {
          return false;
        }
        assert data[..done] + data[done..done + n] == data[..done + n];
        done := done + n;
      }
      assert data[..done] == data;
      return true;
    }

    /** However the reads are cut up, this is Take. */
    method ReadExact(n: nat) returns (ok: bool, data: Bytes)
      modifies `inbox
      ensures ok <==> Take(old(inbox), n).Taken?
      ensures ok ==> Take(old(inbox), n) == Taken(data, inbox)
    {
      data := [];
      while |data| < n
        invariant |data| <= n && |data| <= |old(inbox)|
        invariant n >= TWO_31 ==> n - |data| >= TWO_31
        invariant data == old(inbox)[..|data|] && inbox == old(inbox)[|data|..]
        decreases n - |data|
      {
        var r, chunk := SslRead(ToInt32(n - |data|));
        if r <= 0 {
          return false, data;
        }
        if n >= TWO_31 {
          StillTooLong(n - |data|, r);
        }
        data := data + chunk;
      }
      return true, data;
    }

    /** One byte at most: 1 and the byte, 0 on a timeout, -1 on an error. */
    method ReadSome() returns (r: int, b: Byte)
      modifies `inbox, `polled
      ensures polled == old(polled) + 1
      ensures r == (match poll(old(polled))
                    case TimedOut => 0
                    case Broken => -1
                    case Ready => if old(inbox) == [] then -1 else 1)
      ensures r == 1 ==> old(inbox) != [] && b == old(inbox)[0] && inbox == old(inbox)[1..]
      ensures r != 1 ==> inbox == old(inbox)
    {
      b := 0;
      var wait := poll(polled);
      polled := polled + 1;
      match wait
      case TimedOut => r := 0;
      case Broken => r := -1;
      case Ready =>
        var data;
        r, data := SslRead(1);
        if r <= 0 {
          r := -1;
        } else {
          b := data[0];
        }
    }
  }

  /** The pong frames that answer pings, with the masks drawn from the generator. */
  function PongBytes(pongs: seq<Bytes>, random: nat -> Mask, drawn: nat): Bytes
    requires AllShort(pongs)
  {
    if pongs == [] then [] else ClientFrame(OP_PONG, pongs[0], random(drawn)) + PongBytes(pongs[1..], random, drawn + 1)
  }

  class WsClient {
    const tls: TlsConn
    /** RAND_bytes, decided outside; drawn counts the calls. */
    const random: nat -> Mask
    var drawn: nat

    constructor (conn: TlsConn, masks: nat -> Mask)
      ensures tls == conn && random == masks && drawn == 0
    {
      tls, random, drawn := conn, masks, 0;
    }

    /** The bytes of one frame, or a failed write. */
    method SendFrame(opcode: Byte, data: Bytes) returns (ok: bool)
      requires |data| < TWO_64
      modifies `drawn, tls`outbox, tls`writeFailed
      ensures drawn == old(drawn) + 1
      ensures ok ==> tls.outbox == old(tls.outbox) + ClientFrame(opcode, data, random(old(drawn)))
      ensures ok ==> tls.writeFailed == old(tls.writeFailed)
      ensures !ok ==> tls.writeFailed
    {
      hide ClientFrame, LengthField, Masked, WithHighBit, LowFour;
      var len := |data|;
      var hdr := HeaderStart(opcode, len);
      var mask := random(drawn);
      drawn := drawn + 1;
      ghost var before := tls.outbox;
      ClientFrameParts(opcode, data, mask, before);
      hdr := hdr + mask;
      ok := tls.WriteAll(hdr);
      if !ok || len == 0 {
        return;
      }
      var masked := XorMask(data, mask);
      ok := tls.WriteAll(masked[..]);
    }

    /** The frame header up to the masking key. */
    static method HeaderStart(opcode: Byte, len: nat) returns (hdr: Bytes)
      requires len < TWO_64
      ensures hdr == [WithHighBit(true, LowFour(opcode))] + LengthField(len, true)
    {
      hide Digit;
      hdr := [WithHighBit(true, LowFour(opcode))];
      if len < 126 {
        hdr := hdr + [WithHighBit(true, len)];
      } else if len < 65536 {
        hdr := hdr + [WithHighBit(true, 126)];
        hdr := hdr + [Digit(len, 1)];
        hdr := hdr + [Digit(len, 0)];
        assert hdr[1..] == LengthField(len, true);
      } else {
        hdr := hdr + [WithHighBit(true, 127)];
        var digits := PushLength(len);
        hdr := hdr + digits;
        assert hdr[1..] == LengthField(len, true);
      }
    }

    /** The 64-bit length, most significant byte first. */
    static method PushLength(len: nat) returns (digits: Bytes)
      ensures digits == BigEndian(len, 8)
    {
      digits := [];
      for i := 8 downto 0
        invariant |digits| == 8 - i
        invariant forall j :: 0 <= j < |digits| ==> digits[j] == Digit(len, 7 - j)
      {
        digits := digits + [Digit(len, i)];
      }
    }

    /** The masking loop of both directions (section 5.3 of RFC 6455). */
    static method XorMask(data: Bytes, mask: Mask) returns (masked: array<Byte>)
      ensures fresh(masked) && masked[..] == Masked(data, mask)
    {
      masked := new Byte[|data|];
      for i := 0 to |data|
        invariant forall j :: 0 <= j < i ==> masked[j] == Xor(data[j], mask[j % 4])
      {
        masked[i] := Xor(data[i], mask[i % 4]);
      }
    }

    /** Everything after the first byte of a frame. */
    method ReadBody(b0: Byte) returns (ok: bool, fin: bool, opcode: Byte, fragment: Bytes)
      modifies tls`inbox
      ensures ok <==> ParseBody(b0, old(tls.inbox)).Parsed?
      ensures ok ==> ParseBody(b0, old(tls.inbox)) == Parsed(fin, opcode, fragment, tls.inbox)
    {
      fin, opcode, fragment := HighBit(b0), LowFour(b0), [];
      var b1, ext, key;
      ok, b1 := tls.ReadExact(1);
      if !ok { return; }
      var serverMasked := HighBit(b1[0]);
      var len: nat := LowSeven(b1[0]);
      if len == 126 {
        ok, ext := tls.ReadExact(2);
        if !ok { return; }
        len := Gather(ext);
      } else if len == 127 {
        ok, ext := tls.ReadExact(8);
        if !ok { return; }
        len := Gather(ext);
      }
      assert ParseLength(old(tls.inbox)) == Length(len, serverMasked, tls.inbox);
      key := [];
      if serverMasked {
        ok, key := tls.ReadExact(4);
        if !ok { return; }
      } else {
        assert Take(tls.inbox, 0) == Taken([], tls.inbox);
      }
      ok, fragment := tls.ReadExact(len);
      if ok && serverMasked {
        var unmasked := XorMask(fragment, key);
        fragment := unmasked[..];
      }
    }

    static method Gather(ext: Bytes) returns (len: nat)
      ensures len == FromBytes(ext)
    {
      len := 0;
      for i := 0 to |ext|
        invariant len == FromBytes(ext[..i])
      {
        assert ext[..i + 1][..i] == ext[..i];
        len := len * 256 + ext[i];
      }
      assert ext[..|ext|] == ext;
    }

    /** The opcode and payload that the specification gives; -1 and "" on a timeout. */
    method RecvFrame(ghost bytes: Bytes, ghost at: nat) returns (ok: bool, op: int, out: Bytes)
      requires bytes == tls.inbox && at == tls.polled
      modifies tls`inbox, tls`polled
      ensures ok <==> WsMessages.RecvFrame(bytes, tls.poll, at).Frame?
      ensures ok ==> WsMessages.RecvFrame(bytes, tls.poll, at) == Frame(op, out, tls.inbox, tls.polled)
    {
      hide ParseBody;
      out := [];
      var assembled: Bytes := [];
      var finalOpcode: int := -1;
      while true
        invariant !IsControl(finalOpcode) && out == []
        invariant WsMessages.RecvFrame(bytes, tls.poll, at)
               == RecvFrom(tls.inbox, tls.poll, tls.polled, assembled, finalOpcode)
        decreases |tls.inbox|
      {
        var r, b0 := tls.ReadSome();
        if r == 0 {
          return true, -1, [];
        }
        if r < 0 {
          return false, -1, [];
        }
        var good, fin, opcode, fragment := ReadBody(b0);
        if !good {
          return false, -1, [];
        }
        if opcode == OP_PING || opcode == OP_PONG || opcode == OP_CLOSE {
          return true, opcode, fragment;
        }
        if opcode != OP_CONTINUATION {
          finalOpcode := opcode;
        }
        assembled := assembled + fragment;
        if fin {
          return true, finalOpcode, assembled;
        }
      }
    }

    /**
     * The text that the specification gives, with every ping answered on the wire. An
     * exception comes only from the specification's errors or from a failed write.
     */
    method RecvMsg() returns (ok: bool, text: Bytes)
      requires !tls.writeFailed
      modifies `drawn, tls`inbox, tls`polled, tls`outbox, tls`writeFailed
      ensures !tls.writeFailed ==> (ok <==> WsMessages.RecvMsg(old(tls.inbox), tls.poll, old(tls.polled)).Msg?)
      ensures ok ==>
        && !tls.writeFailed
        && var r := WsMessages.RecvMsg(old(tls.inbox), tls.poll, old(tls.polled));
          && r == Msg(text, r.pongs, tls.inbox, tls.polled)
          && drawn == old(drawn) + |r.pongs|
          && tls.outbox == old(tls.outbox) + PongBytes(r.pongs, random, old(drawn))
    {
      hide WsMessages.RecvMsg, WsMessages.RecvFrame, ClientFrame, PongBytes, AllShort;
      ghost var spec := WsMessages.RecvMsg(tls.inbox, tls.poll, tls.polled);
      ghost var answered: seq<Bytes> := [];
      NoPongs(tls.outbox, random, drawn, spec);
      while true
        invariant !tls.writeFailed && AllShort(answered)
        invariant drawn == old(drawn) + |answered|
        invariant tls.outbox == old(tls.outbox) + PongBytes(answered, random, old(drawn))
        invariant spec == WithPongs(answered, WsMessages.RecvMsg(tls.inbox, tls.poll, tls.polled))
        decreases |tls.inbox|
      {
        ghost var before, at := tls.inbox, tls.polled;
        var good, op, payload := RecvFrame(tls.inbox, tls.polled);
        OneTurn(before, tls.poll, at, answered);
        if !good {
          return false, [];
        }
        if op < 0 {
          return true, [];
        }
        if op == OP_PING {
          var sent := SendFrame(OP_PONG, payload);
          if !sent {
            return false, [];
          }
          PongSnoc(answered, payload, random, old(drawn), old(tls.outbox));
          answered := answered + [payload];
          continue;
        }
        if op == OP_PONG {
          continue;
        }
        if op == OP_CLOSE {
          return false, [];
        }
        if op == OP_TEXT || op == OP_BINARY {
          return true, payload;
        }
      }
    }
  }

  /** The two writes of send_frame make one frame. */
  lemma ClientFrameParts(opcode: Byte, data: Bytes, mask: Mask, before: Bytes)
    requires |data| < TWO_64
    ensures var hdr := [WithHighBit(true, LowFour(opcode))] + LengthField(|data|, true) + mask;
            && before + hdr + Masked(data, mask) == before + ClientFrame(opcode, data, mask)
            && (data == [] ==> before + hdr == before + ClientFrame(opcode, data, mask))
  {
    hide LengthField, Masked;
    var hdr := [WithHighBit(true, LowFour(opcode))] + LengthField(|data|, true) + mask;
    assert ClientFrame(opcode, data, mask) == hdr + Masked(data, mask);
    Regroup(before, hdr, Masked(data, mask));
    if data == [] {
      assert hdr + Masked(data, mask) == hdr;
    }
  }

  predicate AllShort(pongs: seq<Bytes>) {
    forall i :: 0 <= i < |pongs| ==> |pongs[i]| < TWO_31
  }

  function WithPongs(pongs: seq<Bytes>, r: MsgResult): MsgResult {
    if r.Msg? then r.(pongs := pongs + r.pongs) else r
  }

  /** What the specification makes of the frame that comes next. */
  lemma OneTurn(bytes: Bytes, poll: Polls, at: nat, answered: seq<Bytes>)
    requires AllShort(answered)
    ensures var r := WithPongs(answered, WsMessages.RecvMsg(bytes, poll, at));
            r.Msg? ==> AllShort(r.pongs)
    ensures var r := WithPongs(answered, WsMessages.RecvMsg(bytes, poll, at));
            match WsMessages.RecvFrame(bytes, poll, at)
            case FrameError => r == MsgError
            case Frame(op, out, rest, at') =>
              if op < 0 then r == Msg([], answered, rest, at')
              else
                && |rest| < |bytes|
                && if op == OP_PING then
                     |out| < TWO_31 && r == WithPongs(answered + [out], WsMessages.RecvMsg(rest, poll, at'))
                   else if op == OP_CLOSE then r == MsgError
                   else if op == OP_TEXT || op == OP_BINARY then r == Msg(out, answered, rest, at')
                   else r == WithPongs(answered, WsMessages.RecvMsg(rest, poll, at'))
  {
    hide WsMessages.RecvFrame;
    var f := WsMessages.RecvFrame(bytes, poll, at);
    AtMostLeft(bytes, poll, at);
    assert answered + [] == answered;
    if f.Frame? && f.op == OP_PING {
      var later := WsMessages.RecvMsg(f.rest, poll, f.at);
      if later.Msg? {
        assert answered + ([f.out] + later.pongs) == answered + [f.out] + later.pongs;
      }
    }
  }

  lemma AtMostLeft(bytes: Bytes, poll: Polls, at: nat)
    ensures var f := WsMessages.RecvFrame(bytes, poll, at);
            && (f.Frame? && f.op >= 0 ==> |f.rest| < |bytes|)
            && (f.Frame? && f.op == OP_PING ==> |f.out| < TWO_31)
  {
  }

  lemma NoPongs(outbox: Bytes, random: nat -> Mask, drawn: nat, r: MsgResult)
    ensures AllShort([]) && outbox == outbox + PongBytes([], random, drawn) && WithPongs([], r) == r
  {
    if r.Msg? {
      assert [] + r.pongs == r.pongs;
    }
  }

  lemma PongSnoc(pongs: seq<Bytes>, payload: Bytes, random: nat -> Mask, drawn: nat, before: Bytes)
    requires AllShort(pongs) && |payload| < TWO_31
    ensures AllShort(pongs + [payload])
    ensures before + PongBytes(pongs, random, drawn) + ClientFrame(OP_PONG, payload, random(drawn + |pongs|))
         == before + PongBytes(pongs + [payload], random, drawn)
  {
    hide ClientFrame, PongBytes;
    PongBytesSnoc(pongs, payload, random, drawn);
    Regroup(before, PongBytes(pongs, random, drawn), ClientFrame(OP_PONG, payload, random(drawn + |pongs|)));
  }

  lemma {:induction false} PongBytesSnoc(pongs: seq<Bytes>, payload: Bytes, random: nat -> Mask, drawn: nat)
    requires AllShort(pongs) && |payload| < TWO_31 && AllShort(pongs + [payload])
    ensures PongBytes(pongs + [payload], random, drawn)
         == PongBytes(pongs, random, drawn) + ClientFrame(OP_PONG, payload, random(drawn + |pongs|))
    decreases |pongs|
  {
    hide ClientFrame;
    if pongs == [] {
      assert [payload][1..] == [];
    } else {
      assert (pongs + [payload])[1..] == pongs[1..] + [payload];
      PongBytesSnoc(pongs[1..], payload, random, drawn + 1);
    }
  }
}
