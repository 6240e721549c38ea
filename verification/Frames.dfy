/**
 * The byte stream between bridge and game server: plain frames sized by registered descriptors
 * (Source/Raw/raw_data.cpp) up to the key exchange, `[size][IV][ciphertext]` frames after it
 * (Source/Raw/raw_session.cpp, Source/Raw/Network/crypto_helper.cpp). AES-256-CBC is a parameter.
 */
module Frames {
  import opened Common

  const HEADER_SIZE: nat := 1
  const SIZE_SIZE: nat := 4
  const IV_SIZE: nat := 16
  const BLOCK_SIZE: nat := 16
  const SIZE_RANGE: nat := 0x1_0000_0000 // TSIZE is uint32_t
  const MAX_SIZE_PACKET: nat := 0xFFFF_FFFF

  // ----- Little-endian sizes -----

  function Le32(n: nat): (b: Bytes)
    ensures |b| == SIZE_SIZE
  {
    [(n % 256) as Byte, (n / 256 % 256) as Byte, (n / 65536 % 256) as Byte, (n / 16777216 % 256) as Byte]
  }

  function FromLe32(b: Bytes): (n: nat)
    requires |b| == SIZE_SIZE
    ensures n < SIZE_RANGE
  {
    b[0] as nat + 256 * b[1] as nat + 65536 * b[2] as nat + 16777216 * b[3] as nat
  }

  lemma SizeRoundTrip(n: nat)
    ensures FromLe32(Le32(n)) == n % SIZE_RANGE
  {
    var a := n / 256;
    var b := a / 256;
    var c := b / 256;
    var q := c / 256;
    Quotient16(n, b, 256 * (a % 256) + n % 256);
    Quotient24(n, c, 65536 * (b % 256) + 256 * (a % 256) + n % 256);
    Quotient32(n, q, 16777216 * (c % 256) + 65536 * (b % 256) + 256 * (a % 256) + n % 256);
  }

  lemma Quotient16(n: nat, k: nat, r: nat)
    requires n == 65536 * k + r && r < 65536
    ensures n / 65536 == k
  {}

  lemma Quotient24(n: nat, k: nat, r: nat)
    requires n == 16777216 * k + r && r < 16777216
    ensures n / 16777216 == k
  {}

  lemma Quotient32(n: nat, k: nat, r: nat)
    requires n == SIZE_RANGE * k + r && r < SIZE_RANGE
    ensures n % SIZE_RANGE == r
  {}

  /** The number a sequence of bytes stands for, the least significant first. */
  function Value(b: Bytes): nat { if b == [] then 0 else b[0] as nat + 256 * Value(b[1..]) }

  lemma FromLe32IsValue(b: Bytes)
    requires |b| == SIZE_SIZE
    ensures FromLe32(b) == Value(b)
  {
    assert b[1..][1..] == b[2..] && b[2..][1..] == b[3..] && b[3..][1..] == [];
    assert Value(b[3..]) == b[3] as nat;
    assert Value(b[2..]) == b[2] as nat + 256 * b[3] as nat;
  }

  lemma FirstDigit(x: nat, p: nat, y: nat, q: nat)
    requires x < 256 && y < 256 && x + 256 * p == y + 256 * q
    ensures x == y && p == q
  {}

  lemma {:induction false} ValueDeterminesBytes(a: Bytes, b: Bytes)
    requires |a| == |b| && Value(a) == Value(b)
    ensures a == b
  {
    if a != [] {
      FirstDigit(a[0] as nat, Value(a[1..]), b[0] as nat, Value(b[1..]));
      ValueDeterminesBytes(a[1..], b[1..]);
      assert a == [a[0]] + a[1..] && b == [b[0]] + b[1..];
    }
  }

  /** Four bytes announce `n` exactly if they are its little-endian form. */
  lemma AnnouncesIff(b: Bytes, n: nat)
    requires |b| == SIZE_SIZE
    ensures FromLe32(b) == n <==> n < SIZE_RANGE && b == Le32(n)
  {
    hide Value, FromLe32, Le32;
    SizeRoundTrip(n);
    if FromLe32(b) == n {
      FromLe32IsValue(b);
      FromLe32IsValue(Le32(n));
      ValueDeterminesBytes(b, Le32(n));
    }
  }

  // ----- The keyed cipher -----

  /** Encryption and decryption under the session key: IV and text in, text out. */
  datatype Cipher = Cipher(enc: (Bytes, Bytes) -> Bytes, dec: (Bytes, Bytes) -> Option<Bytes>)

  function PaddedLength(n: nat): nat { (n / BLOCK_SIZE + 1) * BLOCK_SIZE }

  ghost predicate Sound(c: Cipher) {
    forall iv: Bytes, p: Bytes :: |iv| == IV_SIZE && p != [] ==>
      c.dec(iv, c.enc(iv, p)) == Some(p) && |c.enc(iv, p)| == PaddedLength(|p|)
  }

  /** CryptoHelper::encrypt on success. */
  function Seal(c: Cipher, iv: Bytes, p: Bytes): Bytes {
    var ct := c.enc(iv, p);
    Le32((IV_SIZE + |ct|) % SIZE_RANGE) + iv + ct
  }

  /** CryptoHelper::decrypt on the bytes behind the size field. */
  function Unseal(c: Cipher, data: Bytes): Option<Bytes> {
    if |data| <= IV_SIZE then None else c.dec(data[..IV_SIZE], data[IV_SIZE..])
  }

  /** What is opened is more than an IV, and what the cipher makes of the bytes behind the IV. */
  lemma OpensIff(c: Cipher, iv: Bytes, ct: Bytes, short: Bytes, p: Bytes)
    requires |iv| == IV_SIZE && |short| <= IV_SIZE
    ensures Unseal(c, iv + ct) == Some(p) <==> ct != [] && c.dec(iv, ct) == Some(p)
    ensures Unseal(c, short).None?
  {
    assert (iv + ct)[..IV_SIZE] == iv && (iv + ct)[IV_SIZE..] == ct;
  }

  /** A packet whose sealed frame the size field can announce. */
  predicate Sealable(p: Bytes) { p != [] && IV_SIZE + PaddedLength(|p|) < MAX_SIZE_PACKET }

  lemma UnsealSeal(c: Cipher, iv: Bytes, p: Bytes)
    requires Sound(c) && |iv| == IV_SIZE && p != []
    ensures Unseal(c, Seal(c, iv, p)[SIZE_SIZE..]) == Some(p)
    ensures |Seal(c, iv, p)| == SIZE_SIZE + IV_SIZE + PaddedLength(|p|)
  {
    var ct := c.enc(iv, p);
    assert Seal(c, iv, p)[SIZE_SIZE..] == iv + ct;
  }

  /** A sealed frame is the size of the rest, the IV and the ciphertext, in this order. */
  lemma SealedLayout(c: Cipher, iv: Bytes, p: Bytes)
    requires |iv| == IV_SIZE && IV_SIZE + |c.enc(iv, p)| < SIZE_RANGE
    ensures var f := Seal(c, iv, p);
            && |f| >= SIZE_SIZE + IV_SIZE
            && Value(f[..SIZE_SIZE]) == |f| - SIZE_SIZE
            && f[SIZE_SIZE..SIZE_SIZE + IV_SIZE] == iv && f[SIZE_SIZE + IV_SIZE..] == c.enc(iv, p)
  {
    hide Le32, FromLe32, Value;
    var f, n := Seal(c, iv, p), IV_SIZE + |c.enc(iv, p)|;
    assert f[..SIZE_SIZE] == Le32(n);
    SizeRoundTrip(n);
    FromLe32IsValue(Le32(n));
  }

  lemma TruncationExact(total: nat)
    requires total > 0
    ensures 0 < total % SIZE_RANGE < MAX_SIZE_PACKET && total % SIZE_RANGE == total <==> total < MAX_SIZE_PACKET
  {}

  lemma SealedSize(c: Cipher, iv: Bytes, p: Bytes)
    requires Sound(c) && |iv| == IV_SIZE && p != []
    ensures var f, total := Seal(c, iv, p), IV_SIZE + PaddedLength(|p|);
            && |f| == SIZE_SIZE + total && FromLe32(f[..SIZE_SIZE]) == total % SIZE_RANGE
  {
    hide PaddedLength, FromLe32, Le32;
    UnsealSeal(c, iv, p);
    var total := IV_SIZE + PaddedLength(|p|);
    assert |c.enc(iv, p)| == PaddedLength(|p|);
    assert Seal(c, iv, p)[..SIZE_SIZE] == Le32(total % SIZE_RANGE);
    SizeRoundTrip(total % SIZE_RANGE);
  }

  /** The reader accepts the size field of a sealed frame, and it spans the rest, exactly for sealable packets. */
  lemma SizeFieldExact(c: Cipher, iv: Bytes, p: Bytes)
    requires Sound(c) && |iv| == IV_SIZE && p != []
    ensures var f := Seal(c, iv, p);
            |f| >= SIZE_SIZE
            && var size := FromLe32(f[..SIZE_SIZE]);
               (0 < size < MAX_SIZE_PACKET && SIZE_SIZE + size == |f| <==> Sealable(p))
  {
    hide Seal, FromLe32, PaddedLength;
    SealedSize(c, iv, p);
    TruncationExact(IV_SIZE + PaddedLength(|p|));
  }

  // ----- Descriptors -----

  /** TPacketDescriptor; `fixedSize` includes the header. */
  datatype Descriptor = Fixed(fixedSize: nat) | Dynamic(fixedSize: nat, sizeOffset: nat)

  type Registry = map<Byte, Descriptor>

  /** What registration has to give for the reads to stay inside the packet buffer. */
  predicate ReadableDescriptor(d: Descriptor) {
    HEADER_SIZE <= d.fixedSize && (d.Dynamic? ==> d.sizeOffset + SIZE_SIZE <= d.fixedSize)
  }

  ghost predicate Readable(reg: Registry) { forall h :: h in reg ==> ReadableDescriptor(reg[h]) }

  /** Everything the reader is configured with; `enables` are the key-exchange packets that succeed. */
  datatype Config = Config(reg: Registry, headerMax: nat, cipher: Cipher, enables: Bytes -> bool)

  /** GameClientBase::IsValidHeader */
  predicate IsValidHeader(cfg: Config, h: Byte) { 0 < h && h as nat <= cfg.headerMax }

  predicate Known(cfg: Config, h: Byte) { IsValidHeader(cfg, h) && h in cfg.reg }

  /** The whole length of the plain packet that starts `input`, once its fixed part is there. */
  function PlainLength(d: Descriptor, input: Bytes): nat
    requires ReadableDescriptor(d) && d.fixedSize <= |input|
  {
    match d
    case Fixed(n) => n
    case Dynamic(n, at) => n + FromLe32(input[at..at + SIZE_SIZE])
  }

  /** A plain packet as its sender lays it out: the size field, where there is one, tells what follows the fixed part. */
  predicate IsPlainFrame(d: Descriptor, p: Bytes)
    requires ReadableDescriptor(d)
  {
    match d
    case Fixed(n) => |p| == n
    case Dynamic(n, at) => |p| >= n && |p| - n < SIZE_RANGE && p[at..at + SIZE_SIZE] == Le32(|p| - n)
  }

  /** The length the reader computes is the one the sender announced. */
  lemma PlainLengthIff(d: Descriptor, p: Bytes)
    requires ReadableDescriptor(d)
    ensures IsPlainFrame(d, p) <==> d.fixedSize <= |p| && |p| == PlainLength(d, p)
  {
    hide FromLe32, Le32;
    if d.Dynamic? && d.fixedSize <= |p| {
      AnnouncesIff(p[d.sizeOffset..d.sizeOffset + SIZE_SIZE], |p| - d.fixedSize);
    }
  }

  // ----- One frame -----

  datatype Mode = Plain | Sealed

  /** What one turn of the read chain does with the bytes that have arrived. */
  datatype Turn =
    | Waits                               // the read is still pending
    | Ends(rest: Bytes)                   // the chain is not continued
    | Skips(rest: Bytes)                  // recoverable error: the chain is continued behind it
    | Delivers(packet: Bytes, rest: Bytes)

  /** session_read and packet_process */
  function ReadPlain(cfg: Config, input: Bytes): Turn
    requires Readable(cfg.reg)
  {
    if |input| < HEADER_SIZE then Waits
    else if !Known(cfg, input[0]) then Ends(input[HEADER_SIZE..])
    else
      var d := cfg.reg[input[0]];
      if |input| < d.fixedSize || |input| < PlainLength(d, input) then Waits
      else Delivers(input[..PlainLength(d, input)], input[PlainLength(d, input)..])
  }

  /** session_read_encrypted and packet_process_decrypted */
  function ReadSealed(cfg: Config, input: Bytes): Turn {
    if |input| < SIZE_SIZE then Waits
    else
      var size := FromLe32(input[..SIZE_SIZE]);
      if size == 0 || size >= MAX_SIZE_PACKET then Skips(input[SIZE_SIZE..])
      else if |input| < SIZE_SIZE + size then Waits
      else
        var rest := input[SIZE_SIZE + size..];
        match Unseal(cfg.cipher, input[SIZE_SIZE..SIZE_SIZE + size])
        case None => Skips(rest)
        case Some(p) => if p == [] || !Known(cfg, p[0]) then Ends(rest) else Delivers(p, rest)
  }

  function ReadTurn(cfg: Config, mode: Mode, input: Bytes): (t: Turn)
    requires Readable(cfg.reg)
    ensures !t.Waits? ==> |t.rest| < |input|
  {
    if mode == Sealed then ReadSealed(cfg, input) else ReadPlain(cfg, input)
  }

  // ----- The read chain -----

  datatype Result = Result(delivered: seq<Bytes>, mode: Mode, rest: Bytes, ended: bool)

  /** `r`, with `ps` delivered before it. */
  function After(ps: seq<Bytes>, r: Result): Result { r.(delivered := ps + r.delivered) }

  lemma AfterAfter(ps: seq<Bytes>, qs: seq<Bytes>, r: Result)
    ensures After(ps, After(qs, r)) == After(ps + qs, r)
    ensures After([], r) == r
  {
    assert ps + (qs + r.delivered) == (ps + qs) + r.delivered;
    assert [] + r.delivered == r.delivered;
  }

  function NextMode(cfg: Config, mode: Mode, p: Bytes): Mode {
    if mode == Sealed || cfg.enables(p) then Sealed else Plain
  }

  /** All that happens once `input` has arrived. */
  function ReadAll(cfg: Config, mode: Mode, input: Bytes): Result
    requires Readable(cfg.reg)
    decreases |input|
  {
    match ReadTurn(cfg, mode, input)
    case Waits => Result([], mode, input, false)
    case Ends(rest) => Result([], mode, rest, true)
    case Skips(rest) => ReadAll(cfg, mode, rest)
    case Delivers(p, rest) =>
      After([p], ReadAll(cfg, NextMode(cfg, mode, p), rest))
  }

  // ----- The peer's side -----

  /** A packet as the peer puts it on the wire: with the IV drawn for it. */
  datatype Outgoing = Outgoing(packet: Bytes, iv: Bytes)

  function Frame(cfg: Config, mode: Mode, o: Outgoing): Bytes {
    if mode == Sealed then Seal(cfg.cipher, o.iv, o.packet) else o.packet
  }

  function FrameAll(cfg: Config, mode: Mode, os: seq<Outgoing>): Bytes
    decreases |os|
  {
    if os == [] then []
    else Frame(cfg, mode, os[0]) + FrameAll(cfg, NextMode(cfg, mode, os[0].packet), os[1..])
  }

  function FinalMode(cfg: Config, mode: Mode, os: seq<Outgoing>): Mode
    decreases |os|
  {
    if os == [] then mode else FinalMode(cfg, NextMode(cfg, mode, os[0].packet), os[1..])
  }

  /** A packet the mode can carry: registered header, and the length its frame announces. */
  predicate WellFormed(cfg: Config, mode: Mode, o: Outgoing)
    requires Readable(cfg.reg)
  {
    && o.packet != [] && Known(cfg, o.packet[0]) && |o.iv| == IV_SIZE
    && (mode == Sealed ==> Sealable(o.packet))
    && (mode == Plain ==> IsPlainFrame(cfg.reg[o.packet[0]], o.packet))
  }

  predicate AllWellFormed(cfg: Config, mode: Mode, os: seq<Outgoing>)
    requires Readable(cfg.reg)
    decreases |os|
  {
    os != [] ==> WellFormed(cfg, mode, os[0]) && AllWellFormed(cfg, NextMode(cfg, mode, os[0].packet), os[1..])
  }

  function Packets(os: seq<Outgoing>): seq<Bytes> {
    if os == [] then [] else [os[0].packet] + Packets(os[1..])
  }

  /** One frame is read back whole, whatever follows it. */
  lemma ReadFrame(cfg: Config, mode: Mode, o: Outgoing, tail: Bytes)
    requires Readable(cfg.reg) && Sound(cfg.cipher) && WellFormed(cfg, mode, o)
    ensures ReadTurn(cfg, mode, Frame(cfg, mode, o) + tail) == Delivers(o.packet, tail)
  {
    hide IsPlainFrame;
    var f := Frame(cfg, mode, o);
    var input := f + tail;
    if mode == Plain {
      var d := cfg.reg[o.packet[0]];
      PlainLengthIff(d, o.packet);
      if d.Dynamic? {
        assert input[d.sizeOffset..d.sizeOffset + SIZE_SIZE] == f[d.sizeOffset..d.sizeOffset + SIZE_SIZE];
      }
      assert input[..|f|] == f && input[|f|..] == tail;
    } else {
      UnsealSeal(cfg.cipher, o.iv, o.packet);
      SizeFieldExact(cfg.cipher, o.iv, o.packet);
      assert input[..SIZE_SIZE] == f[..SIZE_SIZE];
      assert input[SIZE_SIZE..|f|] == f[SIZE_SIZE..] && input[|f|..] == tail;
    }
  }

  /** A dynamic packet is read to the end of its announced part, a fixed one to its registered length. */
  lemma PlainPacketIsRead(cfg: Config, head: Bytes, body: Bytes, tail: Bytes)
    requires Readable(cfg.reg) && head != [] && Known(cfg, head[0]) && |head| == cfg.reg[head[0]].fixedSize
    requires var d := cfg.reg[head[0]];
             if d.Dynamic? then |body| < SIZE_RANGE && head[d.sizeOffset..d.sizeOffset + SIZE_SIZE] == Le32(|body|)
             else body == []
    ensures ReadTurn(cfg, Plain, head + body + tail) == Delivers(head + body, tail)
  {
    hide Le32, FromLe32;
    var d, p := cfg.reg[head[0]], head + body;
    if d.Dynamic? {
      Slices(head, body, d.sizeOffset, d.sizeOffset + SIZE_SIZE);
    }
    PlainLengthIff(d, p);
    PlainLengthIgnoresLater(d, p, tail);
    assert (p + tail)[..|p|] == p && (p + tail)[|p|..] == tail;
  }

  /** A plain header ends the reading exactly if it is zero, beyond the largest, or not registered. */
  lemma EndsAtHeaderIff(cfg: Config, input: Bytes)
    requires Readable(cfg.reg) && input != []
    ensures ReadTurn(cfg, Plain, input).Ends? <==> input[0] == 0 || input[0] as nat > cfg.headerMax || input[0] !in cfg.reg
  {
    hide PlainLength;
  }

  lemma ReadOneThenRest(cfg: Config, mode: Mode, o: Outgoing, rest: Bytes)
    requires Readable(cfg.reg) && Sound(cfg.cipher) && WellFormed(cfg, mode, o)
    ensures ReadAll(cfg, mode, Frame(cfg, mode, o) + rest)
            == After([o.packet], ReadAll(cfg, NextMode(cfg, mode, o.packet), rest))
  {
    ReadFrame(cfg, mode, o, rest);
  }

  /**
   * The reader delivers exactly the packets the peer framed, in order, across the switch to
   * encryption, and goes on with exactly the bytes behind them.
   */
  lemma {:induction false} ReaderDelivers(cfg: Config, mode: Mode, os: seq<Outgoing>, tail: Bytes)
    requires Readable(cfg.reg) && Sound(cfg.cipher) && AllWellFormed(cfg, mode, os)
    ensures ReadAll(cfg, mode, FrameAll(cfg, mode, os) + tail)
            == After(Packets(os), ReadAll(cfg, FinalMode(cfg, mode, os), tail))
    decreases |os|
  {
    var r := ReadAll(cfg, FinalMode(cfg, mode, os), tail);
    if os == [] {
      assert FrameAll(cfg, mode, os) + tail == tail;
      AfterAfter([], [], r);
    } else {
      var o, mode' := os[0], NextMode(cfg, mode, os[0].packet);
      var rest := FrameAll(cfg, mode', os[1..]) + tail;
      assert FrameAll(cfg, mode, os) + tail == Frame(cfg, mode, o) + rest;
      ReadOneThenRest(cfg, mode, o, rest);
      ReaderDelivers(cfg, mode', os[1..], tail);
      AfterAfter([o.packet], Packets(os[1..]), r);
    }
  }

  // ----- The switch to encryption -----

  predicate PlainPacket(cfg: Config, p: Bytes)
    requires Readable(cfg.reg)
  {
    p != [] && Known(cfg, p[0]) && IsPlainFrame(cfg.reg[p[0]], p)
  }

  predicate SealedPacket(cfg: Config, o: Outgoing) {
    o.packet != [] && Known(cfg, o.packet[0]) && |o.iv| == IV_SIZE && Sealable(o.packet)
  }

  function Concat(ps: seq<Bytes>): Bytes { if ps == [] then [] else ps[0] + Concat(ps[1..]) }

  function SealAll(c: Cipher, os: seq<Outgoing>): Bytes {
    if os == [] then [] else Seal(c, os[0].iv, os[0].packet) + SealAll(c, os[1..])
  }

  lemma {:induction false} SealedAllRead(cfg: Config, os: seq<Outgoing>, tail: Bytes)
    requires Readable(cfg.reg) && Sound(cfg.cipher) && forall i :: 0 <= i < |os| ==> SealedPacket(cfg, os[i])
    ensures ReadAll(cfg, Sealed, SealAll(cfg.cipher, os) + tail) == After(Packets(os), ReadAll(cfg, Sealed, tail))
  {
    hide Sound, Seal, Sealable;
    var r := ReadAll(cfg, Sealed, tail);
    if os == [] {
      assert SealAll(cfg.cipher, os) + tail == tail;
      AfterAfter([], [], r);
    } else {
      var rest := SealAll(cfg.cipher, os[1..]) + tail;
      assert SealAll(cfg.cipher, os) + tail == Seal(cfg.cipher, os[0].iv, os[0].packet) + rest;
      assert SealedPacket(cfg, os[0]);
      ReadOneThenRest(cfg, Sealed, os[0], rest);
      SealedAllRead(cfg, os[1..], tail);
      AfterAfter([os[0].packet], Packets(os[1..]), r);
    }
  }

  lemma PlainOneThenRest(cfg: Config, p: Bytes, rest: Bytes)
    requires Readable(cfg.reg) && Sound(cfg.cipher) && PlainPacket(cfg, p)
    ensures ReadAll(cfg, Plain, p + rest) == After([p], ReadAll(cfg, if cfg.enables(p) then Sealed else Plain, rest))
  {
    hide Sound, IsPlainFrame, ReadAll;
    ReadOneThenRest(cfg, Plain, Outgoing(p, seq(IV_SIZE, _ => 0)), rest);
  }

  /**
   * The packet that enables encryption is the last one read in the clear, and the first byte behind it
   * the first of a sealed frame: plain packets before it and sealed ones after it are all delivered.
   */
  lemma {:induction false} SwitchesAtKeyExchange(cfg: Config, before: seq<Bytes>, key: Bytes, os: seq<Outgoing>, tail: Bytes)
    requires Readable(cfg.reg) && Sound(cfg.cipher)
    requires forall i :: 0 <= i < |before| ==> PlainPacket(cfg, before[i]) && !cfg.enables(before[i])
    requires PlainPacket(cfg, key) && cfg.enables(key)
    requires forall i :: 0 <= i < |os| ==> SealedPacket(cfg, os[i])
    ensures ReadAll(cfg, Plain, Concat(before) + (key + (SealAll(cfg.cipher, os) + tail)))
            == After(before + [key] + Packets(os), ReadAll(cfg, Sealed, tail))
  {
    hide Sound, ReadAll, PlainPacket, SealedPacket;
    var r := ReadAll(cfg, Sealed, tail);
    var behind := SealAll(cfg.cipher, os) + tail;
    if before == [] {
      assert Concat(before) + (key + behind) == key + behind;
      PlainOneThenRest(cfg, key, behind);
      SealedAllRead(cfg, os, tail);
      AfterAfter([key], Packets(os), r);
      assert before + [key] == [key];
    } else {
      var rest := Concat(before[1..]) + (key + behind);
      assert Concat(before) + (key + behind) == before[0] + rest;
      PlainOneThenRest(cfg, before[0], rest);
      SwitchesAtKeyExchange(cfg, before[1..], key, os, tail);
      AfterAfter([before[0]], before[1..] + [key] + Packets(os), r);
      assert [before[0]] + (before[1..] + [key] + Packets(os)) == before + [key] + Packets(os);
    }
  }

  lemma UnknownEnds(cfg: Config, mode: Mode, bad: Outgoing, tail: Bytes)
    requires Readable(cfg.reg) && Sound(cfg.cipher)
    requires bad.packet != [] && !Known(cfg, bad.packet[0]) && Sealable(bad.packet) && |bad.iv| == IV_SIZE
    ensures var t := ReadTurn(cfg, mode, Frame(cfg, mode, bad) + tail);
            t == Ends((if mode == Plain then bad.packet[HEADER_SIZE..] else []) + tail)
  {
    hide Seal, FromLe32, Le32, Sealable, PaddedLength;
    if mode == Sealed {
      var f := Frame(cfg, mode, bad);
      UnsealSeal(cfg.cipher, bad.iv, bad.packet);
      SizeFieldExact(cfg.cipher, bad.iv, bad.packet);
      Slices(f, tail, 0, SIZE_SIZE);
      Slices(f, tail, SIZE_SIZE, |f|);
    }
  }

  /** At the first packet with an unknown header the chain ends: all that is behind that header stays unread. */
  lemma StopsAtUnknown(cfg: Config, mode: Mode, os: seq<Outgoing>, bad: Outgoing, tail: Bytes)
    requires Readable(cfg.reg) && Sound(cfg.cipher) && AllWellFormed(cfg, mode, os)
    requires bad.packet != [] && !Known(cfg, bad.packet[0]) && Sealable(bad.packet) && |bad.iv| == IV_SIZE
    ensures var m := FinalMode(cfg, mode, os);
            var r := ReadAll(cfg, mode, FrameAll(cfg, mode, os) + (Frame(cfg, m, bad) + tail));
            && r.delivered == Packets(os) && r.ended
            && r.rest == (if m == Plain then bad.packet[HEADER_SIZE..] else []) + tail
  {
    hide ReadTurn, Frame, FrameAll, FinalMode, Packets, Sound, AllWellFormed, Sealable;
    var m := FinalMode(cfg, mode, os);
    ReaderDelivers(cfg, mode, os, Frame(cfg, m, bad) + tail);
    UnknownEnds(cfg, m, bad, tail);
    assert Packets(os) + [] == Packets(os);
  }

  // ----- What arrives when does not matter -----

  lemma Slices(a: Bytes, b: Bytes, i: nat, j: nat)
    requires i <= j <= |a|
    ensures (a + b)[i..j] == a[i..j] && (a + b)[j..] == a[j..] + b
  {}

  /** What a turn makes of `input` it makes of it when `more` follows, too. */
  ghost predicate SameTurn(t: Turn, later: Turn, more: Bytes) {
    match t
    case Waits => true
    case Ends(rest) => later == Ends(rest + more)
    case Skips(rest) => later == Skips(rest + more)
    case Delivers(p, rest) => later == Delivers(p, rest + more)
  }

  lemma PlainLengthIgnoresLater(d: Descriptor, input: Bytes, more: Bytes)
    requires ReadableDescriptor(d) && d.fixedSize <= |input|
    ensures PlainLength(d, input + more) == PlainLength(d, input)
  {
    if d.Dynamic? {
      Slices(input, more, d.sizeOffset, d.sizeOffset + SIZE_SIZE);
    }
  }

  lemma PlainIgnoresLater(cfg: Config, input: Bytes, more: Bytes)
    requires Readable(cfg.reg)
    ensures SameTurn(ReadPlain(cfg, input), ReadPlain(cfg, input + more), more)
  {
    hide PlainLength;
    if |input| >= HEADER_SIZE {
      assert (input + more)[0] == input[0];
      Slices(input, more, 0, HEADER_SIZE);
      if Known(cfg, input[0]) && cfg.reg[input[0]].fixedSize <= |input| {
        var d := cfg.reg[input[0]];
        PlainLengthIgnoresLater(d, input, more);
        if PlainLength(d, input) <= |input| {
          Slices(input, more, 0, PlainLength(d, input));
        }
      }
    }
  }

  lemma SealedIgnoresLater(cfg: Config, input: Bytes, more: Bytes)
    ensures SameTurn(ReadSealed(cfg, input), ReadSealed(cfg, input + more), more)
  {
    hide FromLe32, Unseal;
    if |input| >= SIZE_SIZE {
      Slices(input, more, 0, SIZE_SIZE);
      var size := FromLe32(input[..SIZE_SIZE]);
      if |input| >= SIZE_SIZE + size {
        Slices(input, more, SIZE_SIZE, SIZE_SIZE + size);
      }
    }
  }

  lemma TurnIgnoresLater(cfg: Config, mode: Mode, input: Bytes, more: Bytes)
    requires Readable(cfg.reg)
    ensures SameTurn(ReadTurn(cfg, mode, input), ReadTurn(cfg, mode, input + more), more)
  {
    hide SameTurn, ReadPlain, ReadSealed;
    PlainIgnoresLater(cfg, input, more);
    SealedIgnoresLater(cfg, input, more);
  }

  /** Going on from `first` when `more` has arrived. */
  function Resume(cfg: Config, first: Result, more: Bytes): Result
    requires Readable(cfg.reg)
  {
    if first.ended then first.(rest := first.rest + more)
    else After(first.delivered, ReadAll(cfg, first.mode, first.rest + more))
  }

  lemma ResumeAfter(cfg: Config, p: Bytes, first: Result, more: Bytes)
    requires Readable(cfg.reg)
    ensures Resume(cfg, After([p], first), more) == After([p], Resume(cfg, first, more))
  {
    if !first.ended {
      AfterAfter([p], first.delivered, ReadAll(cfg, first.mode, first.rest + more));
    }
  }

  /** Reading what has arrived and then the rest delivers what reading all at once delivers. */
  lemma {:induction false} ArrivalDoesNotMatter(cfg: Config, mode: Mode, input: Bytes, more: Bytes)
    requires Readable(cfg.reg)
    ensures ReadAll(cfg, mode, input + more) == Resume(cfg, ReadAll(cfg, mode, input), more)
    decreases |input|
  {
    TurnIgnoresLater(cfg, mode, input, more);
    match ReadTurn(cfg, mode, input)
    case Waits => AfterAfter([], [], ReadAll(cfg, mode, input + more));
    case Ends(rest) =>
    case Skips(rest) => ArrivalDoesNotMatter(cfg, mode, rest, more);
    case Delivers(p, rest) =>
      var mode' := NextMode(cfg, mode, p);
      ArrivalDoesNotMatter(cfg, mode', rest, more);
      ResumeAfter(cfg, p, ReadAll(cfg, mode', rest), more);
  }

  // ----- Nothing else is ever delivered -----

  /** What one stretch of the input is to the reader. */
  datatype Piece =
    | PlainFrame(packet: Bytes)                  // a whole plain packet
    | SealedFrame(bytes: Bytes, packet: Bytes)   // size field and body of a packet that is delivered
    | Refused(bytes: Bytes)                      // an impossible size field, or a frame that does not decrypt
    | Unknown(bytes: Bytes)                      // an unknown plain header, or a sealed frame holding one

  function BytesOf(p: Piece): Bytes { if p.PlainFrame? then p.packet else p.bytes }

  function Delivered(p: Piece): seq<Bytes> { if p.PlainFrame? || p.SealedFrame? then [p.packet] else [] }

  /** `b` is a size field and as many bytes as it says. */
  predicate IsSealedFrame(b: Bytes) {
    |b| >= SIZE_SIZE && 0 < FromLe32(b[..SIZE_SIZE]) < MAX_SIZE_PACKET && |b| == SIZE_SIZE + FromLe32(b[..SIZE_SIZE])
  }

  /** Whether the piece may stand where the reader is in `mode`. */
  predicate Fits(cfg: Config, mode: Mode, p: Piece)
    requires Readable(cfg.reg)
  {
    match p
    case PlainFrame(packet) =>
      mode == Plain && packet != [] && Known(cfg, packet[0]) && IsPlainFrame(cfg.reg[packet[0]], packet)
    case SealedFrame(b, packet) =>
      mode == Sealed && IsSealedFrame(b) && Unseal(cfg.cipher, b[SIZE_SIZE..]) == Some(packet)
      && packet != [] && Known(cfg, packet[0])
    case Refused(b) =>
      mode == Sealed
      && if |b| == SIZE_SIZE then !(0 < FromLe32(b) < MAX_SIZE_PACKET)
         else IsSealedFrame(b) && Unseal(cfg.cipher, b[SIZE_SIZE..]).None?
    case Unknown(b) =>
      if mode == Plain then |b| == HEADER_SIZE && !Known(cfg, b[0])
      else IsSealedFrame(b) && Unseal(cfg.cipher, b[SIZE_SIZE..]).Some?
           && var p := Unseal(cfg.cipher, b[SIZE_SIZE..]).value; p == [] || !Known(cfg, p[0])
  }

  /** No piece is there as a whole. */
  ghost predicate Incomplete(cfg: Config, mode: Mode, input: Bytes)
    requires Readable(cfg.reg)
  {
    forall p :: Fits(cfg, mode, p) ==> !(BytesOf(p) <= input)
  }

  function ModeBehind(cfg: Config, mode: Mode, p: Piece): Mode {
    if p.PlainFrame? || p.SealedFrame? then NextMode(cfg, mode, p.packet) else mode
  }

  /**
   * `pieces`, followed by `r.rest`, are `input`, and `r` delivers what they hold. An unknown header
   * is the last piece, and then the reading has ended; otherwise it waits for more than the rest.
   */
  ghost predicate IsCut(cfg: Config, mode: Mode, input: Bytes, pieces: seq<Piece>, r: Result)
    requires Readable(cfg.reg)
    decreases |pieces|
  {
    if pieces == [] then r == Result([], mode, input, false) && Incomplete(cfg, mode, input)
    else
      var p := pieces[0];
      && Fits(cfg, mode, p)
      && BytesOf(p) <= input
      && if p.Unknown? then pieces == [p] && r == Result([], mode, input[|p.bytes|..], true)
         else
           exists r' :: IsCut(cfg, ModeBehind(cfg, mode, p), input[|BytesOf(p)|..], pieces[1..], r') && r == After(Delivered(p), r')
  }

  /** The piece at the front of the input. */
  function FrontPiece(cfg: Config, mode: Mode, input: Bytes): Piece
    requires Readable(cfg.reg) && !ReadTurn(cfg, mode, input).Waits?
  {
    var t := ReadTurn(cfg, mode, input);
    var bytes := input[..|input| - |t.rest|];
    match t
    case Ends(_) => Unknown(bytes)
    case Skips(_) => Refused(bytes)
    case Delivers(p, _) => if mode == Plain then PlainFrame(p) else SealedFrame(bytes, p)
  }

  lemma PlainLengthCovers(d: Descriptor, input: Bytes)
    requires ReadableDescriptor(d) && d.fixedSize <= |input|
    ensures d.fixedSize <= PlainLength(d, input)
  {}

  lemma PlainFront(cfg: Config, input: Bytes)
    requires Readable(cfg.reg) && !ReadPlain(cfg, input).Waits?
    ensures var p := FrontPiece(cfg, Plain, input);
            Fits(cfg, Plain, p) && BytesOf(p) + ReadPlain(cfg, input).rest == input
  {
    var t := ReadPlain(cfg, input);
    if t.Delivers? {
      hide PlainLength, IsPlainFrame;
      var n := PlainLength(cfg.reg[input[0]], input);
      assert input == input[..n] + input[n..];
      PlainLengthCovers(cfg.reg[input[0]], input);
      PlainLengthIgnoresLater(cfg.reg[input[0]], input[..n], input[n..]);
      PlainLengthIff(cfg.reg[input[0]], input[..n]);
    }
  }

  lemma SealedFront(cfg: Config, input: Bytes)
    requires Readable(cfg.reg) && !ReadSealed(cfg, input).Waits?
    ensures var p := FrontPiece(cfg, Sealed, input);
            Fits(cfg, Sealed, p) && BytesOf(p) + ReadSealed(cfg, input).rest == input
  {
    hide FromLe32, Unseal;
    var size := FromLe32(input[..SIZE_SIZE]);
    var n := if size == 0 || size >= MAX_SIZE_PACKET then SIZE_SIZE else SIZE_SIZE + size;
    assert ReadSealed(cfg, input).rest == input[n..];
    assert input[..n][..SIZE_SIZE] == input[..SIZE_SIZE] && input[..n][SIZE_SIZE..] == input[SIZE_SIZE..n];
    assert input[..n] + input[n..] == input && input[..SIZE_SIZE][..SIZE_SIZE] == input[..SIZE_SIZE];
  }

  lemma FrontFits(cfg: Config, mode: Mode, input: Bytes)
    requires Readable(cfg.reg) && !ReadTurn(cfg, mode, input).Waits?
    ensures var p := FrontPiece(cfg, mode, input);
            && Fits(cfg, mode, p) && BytesOf(p) <= input && input[|BytesOf(p)|..] == ReadTurn(cfg, mode, input).rest
  {
    var p := FrontPiece(cfg, mode, input);
    if mode == Plain {
      PlainFront(cfg, input);
    } else {
      SealedFront(cfg, input);
    }
  }

  lemma FitsIsRead(cfg: Config, mode: Mode, p: Piece, rest: Bytes)
    requires Readable(cfg.reg) && Fits(cfg, mode, p)
    ensures ReadTurn(cfg, mode, BytesOf(p) + rest)
            == if p.Unknown? then Ends(rest) else if p.Refused? then Skips(rest) else Delivers(p.packet, rest)
  {
    var b := BytesOf(p);
    Slices(b, rest, 0, |b|);
    assert (b + rest)[..|b|] == b;
    if mode == Plain {
      if p.PlainFrame? {
        PlainLengthIff(cfg.reg[b[0]], b);
        PlainLengthIgnoresLater(cfg.reg[b[0]], b, rest);
      }
    } else {
      hide FromLe32, Unseal;
      Slices(b, rest, 0, SIZE_SIZE);
      Slices(b, rest, SIZE_SIZE, |b|);
      assert b[..SIZE_SIZE] == b[0..SIZE_SIZE] && (b + rest)[..SIZE_SIZE] == (b + rest)[0..SIZE_SIZE];
      assert |b| == SIZE_SIZE ==> b[..SIZE_SIZE] == b;
      assert b[SIZE_SIZE..] == b[SIZE_SIZE..|b|];
    }
  }

  lemma FitsIsNoWait(cfg: Config, mode: Mode, p: Piece, input: Bytes)
    requires Readable(cfg.reg) && Fits(cfg, mode, p) && BytesOf(p) <= input
    ensures !ReadTurn(cfg, mode, input).Waits?
  {
    hide Fits, ReadTurn;
    FitsIsRead(cfg, mode, p, input[|BytesOf(p)|..]);
    assert BytesOf(p) + input[|BytesOf(p)|..] == input;
  }

  /** The reader waits exactly for the rest of a piece that is not there as a whole. */
  lemma WaitsIff(cfg: Config, mode: Mode, input: Bytes)
    requires Readable(cfg.reg)
    ensures ReadTurn(cfg, mode, input).Waits? <==> Incomplete(cfg, mode, input)
  {
    hide Fits, ReadTurn, FrontPiece;
    if ReadTurn(cfg, mode, input).Waits? {
      forall p | Fits(cfg, mode, p) ensures !(BytesOf(p) <= input) {
        if BytesOf(p) <= input {
          FitsIsNoWait(cfg, mode, p, input);
        }
      }
    } else {
      FrontFits(cfg, mode, input);
    }
  }

  /**
   * Whatever arrives, in either mode and across the switch to encryption, is cut without gap or
   * overlap into delivered packets of exactly their registered or announced length, refused frames,
   * at most one unknown header that ends the reading, and a rest that is not yet a whole frame.
   */
  lemma {:induction false} StreamIsCut(cfg: Config, mode: Mode, input: Bytes) returns (pieces: seq<Piece>)
    requires Readable(cfg.reg)
    ensures IsCut(cfg, mode, input, pieces, ReadAll(cfg, mode, input))
    decreases |input|
  {
    hide Fits, ReadTurn, FrontPiece, NextMode, Incomplete;
    var t := ReadTurn(cfg, mode, input);
    WaitsIff(cfg, mode, input);
    if t.Waits? {
      pieces := [];
    } else {
      var p := FrontPiece(cfg, mode, input);
      FrontFits(cfg, mode, input);
      FrontKind(cfg, mode, input);
      if t.Ends? {
        pieces := [p];
      } else {
        var mode' := ModeBehind(cfg, mode, p);
        var rest := StreamIsCut(cfg, mode', t.rest);
        pieces := [p] + rest;
        var r' := ReadAll(cfg, mode', t.rest);
        AfterAfter([], [], r');
        assert pieces[1..] == rest;
        assert IsCut(cfg, mode', input[|BytesOf(p)|..], pieces[1..], r') && ReadAll(cfg, mode, input) == After(Delivered(p), r');
      }
    }
  }

  lemma FrontKind(cfg: Config, mode: Mode, input: Bytes)
    requires Readable(cfg.reg) && !ReadTurn(cfg, mode, input).Waits?
    ensures var t, p := ReadTurn(cfg, mode, input), FrontPiece(cfg, mode, input);
            && (t.Ends? <==> p.Unknown?) && (t.Skips? <==> p.Refused?)
            && (t.Delivers? ==> (p.PlainFrame? || p.SealedFrame?) && p.packet == t.packet)
  {}

  function AllBytes(pieces: seq<Piece>): Bytes {
    if pieces == [] then [] else BytesOf(pieces[0]) + AllBytes(pieces[1..])
  }

  function AllDelivered(pieces: seq<Piece>): seq<Bytes> {
    if pieces == [] then [] else Delivered(pieces[0]) + AllDelivered(pieces[1..])
  }

  /** The pieces and the rest are the input and hold what is delivered; only an unknown header ends the reading. */
  ghost predicate AddsUp(cfg: Config, input: Bytes, pieces: seq<Piece>, r: Result)
    requires Readable(cfg.reg)
  {
    && AllBytes(pieces) + r.rest == input && AllDelivered(pieces) == r.delivered
    && (r.ended <==> pieces != [] && pieces[|pieces| - 1].Unknown?)
    && (!r.ended ==> Incomplete(cfg, r.mode, r.rest))
  }

  lemma AddsUpFront(cfg: Config, input: Bytes, p: Piece, pieces: seq<Piece>, r: Result)
    requires Readable(cfg.reg) && !p.Unknown? && AddsUp(cfg, input, pieces, r)
    ensures AddsUp(cfg, BytesOf(p) + input, [p] + pieces, After(Delivered(p), r))
  {
    hide ReadTurn;
    assert ([p] + pieces)[1..] == pieces;
    assert BytesOf(p) + AllBytes(pieces) + r.rest == BytesOf(p) + (AllBytes(pieces) + r.rest);
  }

  lemma UnknownAddsUp(cfg: Config, p: Piece, rest: Bytes, mode: Mode)
    requires Readable(cfg.reg) && p.Unknown?
    ensures AddsUp(cfg, p.bytes + rest, [p], Result([], mode, rest, true))
  {
    assert [p][1..] == [];
  }

  /** A cut is one in the plain sense. */
  lemma {:induction false} CutAddsUp(cfg: Config, mode: Mode, input: Bytes, pieces: seq<Piece>, r: Result)
    requires Readable(cfg.reg) && IsCut(cfg, mode, input, pieces, r)
    ensures AddsUp(cfg, input, pieces, r)
    decreases |pieces|
  {
    if pieces != [] {
      hide Fits, ReadTurn, AddsUp, After, Incomplete;
      var p := pieces[0];
      var rest := input[|BytesOf(p)|..];
      assert input == BytesOf(p) + rest && pieces == [p] + pieces[1..];
      if p.Unknown? {
        UnknownAddsUp(cfg, p, rest, mode);
      } else {
        var r' :| IsCut(cfg, ModeBehind(cfg, mode, p), rest, pieces[1..], r') && r == After(Delivered(p), r');
        CutAddsUp(cfg, ModeBehind(cfg, mode, p), rest, pieces[1..], r');
        AddsUpFront(cfg, rest, p, pieces[1..], r');
      }
    }
  }

  /** There is no other way to cut: whatever cuts the input this way is what the reader makes of it. */
  lemma {:induction false} CutIsUnique(cfg: Config, mode: Mode, input: Bytes, pieces: seq<Piece>, r: Result)
    requires Readable(cfg.reg) && IsCut(cfg, mode, input, pieces, r)
    ensures r == ReadAll(cfg, mode, input)
    decreases |pieces|
  {
    hide Fits, ReadTurn, Incomplete;
    if pieces == [] {
      WaitsIff(cfg, mode, input);
    } else {
      var p := pieces[0];
      var rest := input[|BytesOf(p)|..];
      assert input == BytesOf(p) + rest;
      FitsIsRead(cfg, mode, p, rest);
      if !p.Unknown? {
        var r' :| IsCut(cfg, ModeBehind(cfg, mode, p), rest, pieces[1..], r') && r == After(Delivered(p), r');
        CutIsUnique(cfg, ModeBehind(cfg, mode, p), rest, pieces[1..], r');
        AfterAfter([], [], r');
      }
    }
  }
}
