/** WebSocket frames as byte strings (sections 5.2 to 5.5 of RFC 6455): a printer, and a parser of what it prints. */
module WsFrames {
  import opened Masks
  import opened Options

  type Byte = b: nat | b < 256
  type Bytes = seq<Byte>

  const OP_CONTINUATION: Byte := 0x00
  const OP_TEXT: Byte := 0x01
  const OP_BINARY: Byte := 0x02
  const OP_CLOSE: Byte := 0x08
  const OP_PING: Byte := 0x09
  const OP_PONG: Byte := 0x0A

  const TWO_31: nat := 0x8000_0000
  const TWO_32: nat := 0x1_0000_0000
  const TWO_64: nat := 0x1_0000_0000_0000_0000

  type Mask = m: Bytes | |m| == 4 witness [0, 0, 0, 0]

  // ----- bits of a byte --------------------------------------------------------

  /** b & 0x80 */
  predicate HighBit(b: Byte) {
    b >= 0x80
  }

  /** b | 0x80 if the flag is set, for b below 0x80 */
  function WithHighBit(flag: bool, b: Byte): Byte
    requires b < 0x80
  {
    if flag then 0x80 + b else b
  }

  /** b & 0x7F */
  function LowSeven(b: Byte): Byte {
    b % 0x80
  }

  /** b & 0x0F */
  function LowFour(b: Byte): Byte {
    b % 0x10
  }

  function Xor(x: Byte, y: Byte): Byte {
    assert Pow2(8) == 256 by { assert Pow2(4) == 16; }
    XorBound(x, y, 8);
    BitXor(x, y)
  }

  // ----- printing --------------------------------------------------------------

  function Pow256(k: nat): (p: nat)
    ensures p > 0
  {
    if k == 0 then 1 else 256 * Pow256(k - 1)
  }

  /** (len >> 8 * k) & 0xFF */
  function Digit(len: nat, k: nat): Byte {
    len / Pow256(k) % 256
  }

  /** The low n bytes of len, most significant first. */
  function BigEndian(len: nat, n: nat): (r: Bytes)
    ensures |r| == n && forall i :: 0 <= i < n ==> r[i] == Digit(len, n - 1 - i)
  {
    seq(n, i requires 0 <= i < n => Digit(len, n - 1 - i))
  }

  /** The length field, with the mask bit: 1, 3 or 9 bytes. */
  function LengthField(len: nat, masked: bool): (r: Bytes)
    requires len < TWO_64
    ensures r != []
  {
    if len < 126 then [WithHighBit(masked, len)]
    else if len < 65536 then [WithHighBit(masked, 126)] + BigEndian(len, 2)
    else [WithHighBit(masked, 127)] + BigEndian(len, 8)
  }

  function Masked(data: Bytes, mask: Mask): (r: Bytes)
    ensures |r| == |data| && forall i :: 0 <= i < |data| ==> r[i] == Xor(data[i], mask[i % 4])
  {
    seq(|data|, i requires 0 <= i < |data| => Xor(data[i], mask[i % 4]))
  }

  /** One frame on the wire: clients mask, servers need not. */
  datatype Wire = Wire(fin: bool, opcode: Byte, mask: Option<Mask>, payload: Bytes)

  predicate ValidWire(w: Wire) {
    w.opcode < 0x10 && |w.payload| < TWO_64
  }

  function Print(w: Wire): (r: Bytes)
    requires ValidWire(w)
    ensures r != []
  {
    var b0 := WithHighBit(w.fin, w.opcode);
    match w.mask
    case None => [b0] + LengthField(|w.payload|, false) + w.payload
    case Some(m) => [b0] + LengthField(|w.payload|, true) + m + Masked(w.payload, m)
  }

  /** What send_frame puts on the wire. */
  function ClientFrame(opcode: Byte, data: Bytes, mask: Mask): Bytes
    requires |data| < TWO_64
  {
    Print(Wire(true, LowFour(opcode), Some(mask), data))
  }

  // ----- parsing ---------------------------------------------------------------

  datatype Taken = Short | Taken(data: Bytes, rest: Bytes)

  /**
   * read_exact: the count still wanted is cast to a 32-bit int for every SSL_read, so
   * a request of 2^31 bytes or more cannot complete.
   */
  function Take(bytes: Bytes, n: nat): Taken {
    if n < TWO_31 && n <= |bytes| then Taken(bytes[..n], bytes[n..]) else Short
  }

  function FromBytes(b: Bytes): nat {
    if b == [] then 0 else FromBytes(b[..|b| - 1]) * 256 + b[|b| - 1]
  }

  datatype Length = BadLength | Length(len: nat, masked: bool, rest: Bytes)

  function ParseLength(bytes: Bytes): Length {
    match Take(bytes, 1)
    case Short => BadLength
    case Taken(b, rest) =>
      var masked := HighBit(b[0]);
      var short := LowSeven(b[0]);
      var extra := if short == 126 then 2 else if short == 127 then 8 else 0;
      if extra == 0 then Length(short, masked, rest)
      else match Take(rest, extra)
           case Short => BadLength
           case Taken(ext, tail) => Length(FromBytes(ext), masked, tail)
  }

  datatype Parsed = Bad | Parsed(fin: bool, opcode: Byte, payload: Bytes, rest: Bytes)

  /** Everything after the first byte b0 of a frame. */
  function ParseBody(b0: Byte, bytes: Bytes): (p: Parsed)
    ensures p.Parsed? ==> |p.rest| < |bytes| && |p.payload| < TWO_31 && p.opcode < 0x10
  {
    match ParseLength(bytes)
    case BadLength => Bad
    case Length(len, masked, afterLen) =>
      match Take(afterLen, if masked then 4 else 0)
      case Short => Bad
      case Taken(key, afterKey) =>
        match Take(afterKey, len)
        case Short => Bad
        case Taken(body, rest) =>
          Parsed(HighBit(b0), LowFour(b0), if masked then Masked(body, key) else body, rest)
  }

  // ----- the two undo each other -----------------------------------------------

  lemma MaskTwice(data: Bytes, mask: Mask)
    ensures Masked(Masked(data, mask), mask) == data
  {
    forall i | 0 <= i < |data| ensures Masked(Masked(data, mask), mask)[i] == data[i] {
      XorTwice(data[i], mask[i % 4]);
    }
  }

  lemma DivDiv(a: nat, b: nat, c: nat)
    requires b > 0 && c > 0
    ensures b * c > 0 && a / b / c == a / (b * c)
  {
    var q, r := a / b, a % b;
    var q', r' := q / c, q % c;
    assert a == (q' * c + r') * b + r;
    Nested(b, c, q', r', r);
    Remainder(a, b * c, q', r' * b + r);
  }

  lemma Nested(b: nat, c: nat, q: nat, r': nat, r: nat)
    requires b > 0 && r' < c && r < b
    ensures b * c > 0 && r' * b + r < b * c
    ensures (q * c + r') * b + r == q * (b * c) + (r' * b + r)
  {
    AtLeast(c - r', b);
    assert (c - r') * b == b * c - r' * b;
    assert (q * c + r') * b == q * c * b + r' * b;
    assert q * c * b == q * (b * c);
  }

  lemma BigEndianSnoc(len: nat, n: nat)
    requires n > 0
    ensures BigEndian(len, n)[..n - 1] == BigEndian(len / 256, n - 1)
    ensures BigEndian(len, n)[n - 1] == Digit(len, 0)
  {
    forall i | 0 <= i < n - 1 ensures BigEndian(len, n)[i] == BigEndian(len / 256, n - 1)[i] {
      var k := n - 2 - i;
      DivDiv(len, 256, Pow256(k));
      assert Digit(len, k + 1) == Digit(len / 256, k);
    }
  }

  lemma {:induction false} BigEndianRoundTrip(len: nat, n: nat)
    requires len < Pow256(n)
    ensures FromBytes(BigEndian(len, n)) == len
  {
    if n > 0 {
      BigEndianSnoc(len, n);
      BigEndianRoundTrip(len / 256, n - 1);
    }
  }

  /** The length field round-trips, whatever follows it. */
  lemma LengthRoundTrip(len: nat, masked: bool, rest: Bytes)
    requires len < TWO_64
    ensures ParseLength(LengthField(len, masked) + rest) == Length(len, masked, rest)
  {
    hide Digit, FromBytes, BigEndian, Pow256;
    if len < 126 {
      assert (LengthField(len, masked) + rest)[1..] == rest;
    } else {
      var n := if len < 65536 then 2 else 8;
      PowersOf256();
      BigEndianRoundTrip(len, n);
      LongLength(WithHighBit(masked, if n == 2 then 126 else 127), BigEndian(len, n), rest);
    }
  }

  lemma LongLength(b: Byte, ext: Bytes, rest: Bytes)
    requires LowSeven(b) == (if |ext| == 2 then 126 else 127) && (|ext| == 2 || |ext| == 8)
    ensures ParseLength([b] + ext + rest) == Length(FromBytes(ext), HighBit(b), rest)
  {
    hide FromBytes, Take, HighBit, LowSeven;
    assert [b] + ext + rest == [b] + (ext + rest);
    TakeFront([b], ext + rest);
    TakeFront(ext, rest);
  }

  lemma TakeFront(front: Bytes, rest: Bytes)
    ensures Take(front + rest, |front|) == if |front| < TWO_31 then Taken(front, rest) else Short
  {
    assert (front + rest)[..|front|] == front && (front + rest)[|front|..] == rest;
  }

  lemma PowersOf256()
    ensures Pow256(2) == 65536 && Pow256(8) == TWO_64
  {
    assert Pow256(4) == TWO_32;
    assert Pow256(6) == 65536 * TWO_32;
  }

  function FirstByteOf(w: Wire): Byte
    requires ValidWire(w)
  {
    WithHighBit(w.fin, w.opcode)
  }

  /**
   * Printing a frame and parsing it back gives its flag, opcode and payload and stops
   * exactly at its last byte, provided the payload is shorter than 2^31 bytes; a longer
   * one cannot be read at all.
   */
  lemma FrameRoundTrip(w: Wire, rest: Bytes)
    requires ValidWire(w)
    ensures Print(w)[0] == FirstByteOf(w)
    ensures ParseBody(FirstByteOf(w), Print(w)[1..] + rest)
         == if |w.payload| < TWO_31 then Parsed(w.fin, w.opcode, w.payload, rest) else Bad
  {
    hide LengthField, ParseLength, Masked, Take;
    var len := |w.payload|;
    match w.mask
    case None =>
      LengthRoundTrip(len, false, w.payload + rest);
      assert Print(w)[1..] + rest == LengthField(len, false) + (w.payload + rest);
      TakeFront([], w.payload + rest);
      assert [] + (w.payload + rest) == w.payload + rest;
      TakeFront(w.payload, rest);
    case Some(m) =>
      var body := Masked(w.payload, m);
      LengthRoundTrip(len, true, m + (body + rest));
      assert Print(w)[1..] + rest == LengthField(len, true) + (m + (body + rest));
      TakeFront(m, body + rest);
      TakeFront(body, rest);
      MaskTwice(w.payload, m);
  }

  // ----- the bytes of a client frame ----------------------------------------------

  /** The number of bytes after the second header byte that hold the length. */
  function Extra(len: nat): nat {
    if len < 126 then 0 else if len < 65536 then 2 else 8
  }

  /**
   * A frame of send_frame byte by byte: FIN and the opcode; the mask bit and the length; the
   * mask; and the payload, each byte with the bits that the mask has set in it flipped.
   */
  lemma ClientFrameLayout(opcode: Byte, data: Bytes, mask: Mask, i: nat)
    requires opcode < 0x10 && |data| < TWO_64
    ensures var f, extra := ClientFrame(opcode, data, mask), Extra(|data|);
            && |f| == 6 + extra + |data|
            && f[0] == 0x80 + opcode
            && f[1] == 0x80 + (if extra == 0 then |data| else if extra == 2 then 126 else 127)
            && (extra == 2 ==> f[2] == |data| / 256 && f[3] == |data| % 256)
            && f[2 + extra..6 + extra] == mask
            && (i < |data| ==> f[6 + extra + i] == Xor(data[i], mask[i % 4]))
  {
    hide Digit, Xor;
    var len := |data|;
    var l := LengthField(len, true);
    assert |l| == 1 + Extra(len);
    var f := ClientFrame(opcode, data, mask);
    assert f == [WithHighBit(true, opcode)] + l + mask + Masked(data, mask);
    if Extra(len) == 2 {
      TwoDigits(len);
    }
  }

  lemma TwoDigits(len: nat)
    requires len < 65536
    ensures Digit(len, 1) == len / 256 && Digit(len, 0) == len % 256
  {
    assert Pow256(0) == 1 && Pow256(1) == 256;
  }

  /** The eight bytes of a long length hold it, the first the most significant: each is worth 256 times the next. */
  lemma LongLengthBytes(len: nat, masked: bool)
    requires 65536 <= len < TWO_64
    ensures var f := LengthField(len, masked);
            |f| == 9 && WorthOf(f[1..]) == len
  {
    hide Digit;
    PowersOf256();
    BigEndianRoundTrip(len, 8);
    var b := BigEndian(len, 8);
    assert LengthField(len, masked)[1..] == b;
    EightBytes(b);
  }

  function WorthOf(b: Bytes): nat
    requires |b| == 8
  {
    var high: nat := ((b[0] as nat * 256 + b[1] as nat) * 256 + b[2] as nat) * 256 + b[3] as nat;
    (((high * 256 + b[4] as nat) * 256 + b[5] as nat) * 256 + b[6] as nat) * 256 + b[7] as nat
  }

  lemma EightBytes(b: Bytes)
    requires |b| == 8
    ensures FromBytes(b) == WorthOf(b)
  {
    FromPrefix(b, 0);
    FromPrefix(b, 1);
    FromPrefix(b, 2);
    FromPrefix(b, 3);
    FromPrefix(b, 4);
    FromPrefix(b, 5);
    FromPrefix(b, 6);
    FromPrefix(b, 7);
    assert b[..8] == b;
  }

  lemma FromPrefix(b: Bytes, k: nat)
    requires k < |b|
    ensures FromBytes(b[..k + 1]) == FromBytes(b[..k]) * 256 + b[k]
    ensures FromBytes(b[..0]) == 0
  {
    assert b[..k + 1][..k] == b[..k];
  }

  // ----- the shortest length form ----------------------------------------------

  /** The three forms of section 5.2, by the bytes they take after the second header byte. */
  predicate CanHold(extra: nat, len: nat) {
    (extra == 0 && len <= 125) || (extra == 2 && len < 65536) || (extra == 8 && len < TWO_64)
  }

  /** The printed form can hold the length, and no shorter form can. */
  lemma LengthFormIsShortest(len: nat, masked: bool)
    requires len < TWO_64
    ensures var extra := |LengthField(len, masked)| - 1;
            CanHold(extra, len) && forall e :: 0 <= e < extra ==> !CanHold(e, len)
  {
  }
}
