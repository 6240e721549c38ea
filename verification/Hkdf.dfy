/**
 * The HKDF fallback of Source/Core/openssl_compat.h (HMAC is a parameter) against RFC 5869,
 * and the AES key derivation of Source/Raw/Network/key_exchange.cpp that uses it.
 */
module Hkdf {
  import opened Common

  /** HMAC-SHA256 over a key and a message; `None` when the library call fails. */
  type Hmac = (Bytes, Bytes) -> Option<Bytes>

  const HASH_LEN: nat := 32
  const MAX_BLOCKS: nat := 255

  ghost predicate IsHmac(h: Hmac) { forall k: Bytes, m: Bytes :: h(k, m).Some? ==> |h(k, m).value| == HASH_LEN }

  function BlocksFor(len: nat): nat { (len + HASH_LEN - 1) / HASH_LEN }

  // ----- What the loop of hkdf_expand concatenates -----

  /** The HMAC message of block `i`. */
  function Message(info: Bytes, i: nat): Bytes
    requires i <= MAX_BLOCKS
  {
    info + [i as Byte]
  }

  function Blocks(h: Hmac, prk: Bytes, info: Bytes, n: nat): Option<Bytes>
    requires n <= MAX_BLOCKS
  {
    if n == 0 then Some([])
    else
      var before, block := Blocks(h, prk, info, n - 1), h(prk, Message(info, n));
      if before.Some? && block.Some? then Some(before.value + block.value) else None
  }

  lemma {:induction false} BlocksLength(h: Hmac, prk: Bytes, info: Bytes, n: nat)
    requires IsHmac(h) && n <= MAX_BLOCKS
    ensures Blocks(h, prk, info, n).Some? ==> |Blocks(h, prk, info, n).value| == n * HASH_LEN
  {
    if n > 0 {
      BlocksLength(h, prk, info, n - 1);
    }
  }

  /** Failure of an earlier block is failure of the whole; success only extends the bytes. */
  lemma {:induction false} BlocksExtend(h: Hmac, prk: Bytes, info: Bytes, m: nat, n: nat)
    requires m <= n <= MAX_BLOCKS
    ensures Blocks(h, prk, info, n).Some? ==>
              Blocks(h, prk, info, m).Some? && Blocks(h, prk, info, m).value <= Blocks(h, prk, info, n).value
    decreases n
  {
    if m < n {
      BlocksExtend(h, prk, info, m, n - 1);
    }
  }

  /** Block `i` of the output is the HMAC of the info and the byte `i`, whatever came before. */
  lemma {:induction false} BlockAt(h: Hmac, prk: Bytes, info: Bytes, n: nat, i: nat)
    requires IsHmac(h) && 1 <= i <= n <= MAX_BLOCKS && Blocks(h, prk, info, n).Some?
    ensures |Blocks(h, prk, info, n).value| == n * HASH_LEN
    ensures Some(Blocks(h, prk, info, n).value[(i - 1) * HASH_LEN..i * HASH_LEN]) == h(prk, info + [i as Byte])
  {
    BlocksLength(h, prk, info, n - 1);
    var before, block := Blocks(h, prk, info, n - 1).value, h(prk, Message(info, n)).value;
    if i < n {
      BlockAt(h, prk, info, n - 1, i);
      assert (before + block)[(i - 1) * HASH_LEN..i * HASH_LEN] == before[(i - 1) * HASH_LEN..i * HASH_LEN];
    } else {
      assert (before + block)[(i - 1) * HASH_LEN..i * HASH_LEN] == block;
    }
  }

  /** The one-byte counter never repeats, so no two blocks of one call hash the same message. */
  lemma CounterNeverReused(info: Bytes, i: nat, k: nat)
    requires 1 <= i < k <= MAX_BLOCKS
    ensures Message(info, i) != Message(info, k)
  {
    assert Message(info, i)[|info|] == i as Byte && Message(info, k)[|info|] == k as Byte;
  }

  // ----- RFC 5869 -----

  /** Section 2.3: `T(n) = HMAC-Hash(PRK, T(n-1) | info | n)`, `T(0)` empty. */
  function RfcT(h: Hmac, prk: Bytes, info: Bytes, n: nat): Option<Bytes>
    requires n <= MAX_BLOCKS
  {
    if n == 0 then Some([])
    else
      var before := RfcT(h, prk, info, n - 1);
      if before.None? then None else h(prk, before.value + info + [n as Byte])
  }

  /** `T(1) | T(2) | ... | T(n)` */
  function RfcBlocks(h: Hmac, prk: Bytes, info: Bytes, n: nat): Option<Bytes>
    requires n <= MAX_BLOCKS
  {
    if n == 0 then Some([])
    else
      var before, t := RfcBlocks(h, prk, info, n - 1), RfcT(h, prk, info, n);
      if before.Some? && t.Some? then Some(before.value + t.value) else None
  }

  /** The first `len` bytes of the blocks, when there are enough of them. */
  function Take(bytes: Option<Bytes>, len: nat): Option<Bytes> {
    if bytes.Some? && len <= |bytes.value| then Some(bytes.value[..len]) else None
  }

  function RfcExpand(h: Hmac, prk: Bytes, info: Bytes, len: nat): Option<Bytes>
    requires BlocksFor(len) <= MAX_BLOCKS
  {
    Take(RfcBlocks(h, prk, info, BlocksFor(len)), len)
  }

  /** Section 2.2: `PRK = HMAC-Hash(salt, IKM)`, the salt being the key of the HMAC. */
  function RfcExtract(h: Hmac, salt: Bytes, ikm: Bytes): Option<Bytes> {
    h(salt, ikm)
  }

  /** HKDF as sections 2.2 and 2.3 put it together. */
  function RfcHkdf(h: Hmac, salt: Bytes, ikm: Bytes, info: Bytes, len: nat): Option<Bytes>
    requires BlocksFor(len) <= MAX_BLOCKS
  {
    var prk := RfcExtract(h, salt, ikm);
    if prk.None? then None else RfcExpand(h, prk.value, info, len)
  }

  /** For one hash block this is an HMAC, under the HMAC of the key material under the salt, of the info and a one. */
  lemma OneBlockKey(h: Hmac, salt: Bytes, ikm: Bytes, info: Bytes)
    requires IsHmac(h)
    ensures RfcHkdf(h, salt, ikm, info, HASH_LEN)
            == if h(salt, ikm).Some? then h(h(salt, ikm).value, info + [1]) else None
  {
    if h(salt, ikm).Some? {
      var prk := h(salt, ikm).value;
      assert BlocksFor(HASH_LEN) == 1 && RfcT(h, prk, info, 0) == Some([]) && RfcBlocks(h, prk, info, 0) == Some([]);
      assert [] + info + [1] == info + [1];
      var t := h(prk, info + [1]);
      assert t.Some? ==> [] + t.value == t.value && t.value[..HASH_LEN] == t.value;
    }
  }

  function CodeExpand(h: Hmac, prk: Bytes, info: Bytes, len: nat): Option<Bytes>
    requires BlocksFor(len) <= MAX_BLOCKS
  {
    Take(Blocks(h, prk, info, BlocksFor(len)), len)
  }

  /** A hash that tells the chained message of block two from the unchained one. */
  function TellTale(info: Bytes): Hmac {
    (k: Bytes, m: Bytes) => Some(seq(HASH_LEN, _ => if |m| > |info| + 1 then 1 else 0))
  }

  lemma TwoBlocksDiffer(info: Bytes, n: nat)
    requires 2 <= n <= MAX_BLOCKS
    ensures var h := TellTale(info);
            && Blocks(h, [], info, n).Some? && |Blocks(h, [], info, n).value| == n * HASH_LEN
            && Blocks(h, [], info, n).value[HASH_LEN] == 0
            && RfcBlocks(h, [], info, n).Some? && |RfcBlocks(h, [], info, n).value| == n * HASH_LEN
            && RfcBlocks(h, [], info, n).value[HASH_LEN] == 1
            && RfcT(h, [], info, n).Some? && |RfcT(h, [], info, n).value| == HASH_LEN
  {
    var h := TellTale(info);
    if n == 2 {
      assert Blocks(h, [], info, 0) == Some([]) && RfcBlocks(h, [], info, 0) == Some([]);
      assert Blocks(h, [], info, 1).Some? && |Blocks(h, [], info, 1).value| == HASH_LEN;
      assert RfcT(h, [], info, 1).Some? && |RfcT(h, [], info, 1).value| == HASH_LEN;
      assert |RfcBlocks(h, [], info, 1).value| == HASH_LEN;
    } else {
      TwoBlocksDiffer(info, n - 1);
    }
  }

  /**
   * The fallback is HKDF-Expand exactly for outputs of at most one hash block: longer outputs
   * leave the previous block out of the HMAC message, and some hash shows the difference.
   */
  lemma ExpandIsRfcIffOneBlock(info: Bytes, len: nat)
    requires BlocksFor(len) <= MAX_BLOCKS
    ensures (forall h: Hmac, prk: Bytes :: IsHmac(h) ==> CodeExpand(h, prk, info, len) == RfcExpand(h, prk, info, len))
            <==> len <= HASH_LEN
  {
    if len <= HASH_LEN {
      forall h: Hmac, prk: Bytes | IsHmac(h)
        ensures CodeExpand(h, prk, info, len) == RfcExpand(h, prk, info, len)
      {
        OneBlockIsRfc(h, prk, info, len);
      }
    } else {
      var h := TellTale(info);
      var n := BlocksFor(len);
      TwoBlocksDiffer(info, n);
      assert CodeExpand(h, [], info, len).value[HASH_LEN] == 0;
      assert RfcExpand(h, [], info, len).value[HASH_LEN] == 1;
      assert IsHmac(h);
    }
  }

  lemma OneBlockIsRfc(h: Hmac, prk: Bytes, info: Bytes, len: nat)
    requires len <= HASH_LEN
    ensures BlocksFor(len) <= 1 && CodeExpand(h, prk, info, len) == RfcExpand(h, prk, info, len)
  {
    if len > 0 {
      assert BlocksFor(len) == 1;
      assert RfcT(h, prk, info, 0) == Some([]) && [] + info + [1] == Message(info, 1);
      assert Blocks(h, prk, info, 0) == RfcBlocks(h, prk, info, 0) == Some([]);
    }
  }

  // ----- The code -----

  lemma BlocksStep(h: Hmac, prk: Bytes, info: Bytes, n: nat, soFar: Bytes)
    requires n < MAX_BLOCKS && Blocks(h, prk, info, n) == Some(soFar)
    ensures var block := h(prk, Message(info, n + 1));
            Blocks(h, prk, info, n + 1) == if block.Some? then Some(soFar + block.value) else None
  {}

  lemma BlockFails(h: Hmac, prk: Bytes, info: Bytes, n: nat, len: nat)
    requires n <= BlocksFor(len) <= MAX_BLOCKS && Blocks(h, prk, info, n).None?
    ensures CodeExpand(h, prk, info, len).None?
  {
    if Blocks(h, prk, info, BlocksFor(len)).Some? {
      BlocksExtend(h, prk, info, n, BlocksFor(len));
    }
  }

  /** How many bytes `n` turns of the loop have written. */
  function Written(n: nat, len: nat): nat { if n * HASH_LEN <= len then n * HASH_LEN else len }

  lemma WrittenBounds(n: nat, len: nat)
    ensures n < BlocksFor(len) ==> Written(n, len) == n * HASH_LEN < len
    ensures n < BlocksFor(len) ==>
              Written(n + 1, len) == n * HASH_LEN + if HASH_LEN <= len - n * HASH_LEN then HASH_LEN else len - n * HASH_LEN
    ensures n == BlocksFor(len) ==> Written(n, len) == len
  {}

  /** hkdf_expand: writes `len` bytes into `okm`, or fails; `asked` are the messages it has hashed, in order. */
  method Expand(h: Hmac, prk: Bytes, info: Bytes, okm: array<Byte>, len: nat) returns (ok: bool, ghost asked: seq<Bytes>)
    requires IsHmac(h)
    requires len <= okm.Length
    modifies okm
    ensures okm[len..] == old(okm[len..])
    ensures BlocksFor(len) > MAX_BLOCKS ==> !ok && okm[..] == old(okm[..])
    ensures BlocksFor(len) <= MAX_BLOCKS ==>
              var out := CodeExpand(h, prk, info, len);
              ok == out.Some? && (ok ==> okm[..len] == out.value)
    ensures ok ==> |asked| == BlocksFor(len)
    ensures forall i, k :: 0 <= i < k < |asked| ==> asked[i] != asked[k]
  {
    asked := [];
    if len > 255 * HASH_LEN {
      return false, asked;
    }
    assert BlocksFor(len) <= MAX_BLOCKS;
    hide Blocks, BlocksFor, Written, InTurn;
    var counter: Byte := 1;
    var done := 0;
    ghost var n, soFar: Bytes := 0, [];
    NoBlocks(h, prk, info, len);
    NothingAsked(info);
    while done < len
      invariant n <= BlocksFor(len) && done == Written(n, len) <= len
      invariant n < BlocksFor(len) ==> counter == (n + 1) as Byte
      invariant Blocks(h, prk, info, n) == Some(soFar) && |soFar| == n * HASH_LEN
      invariant done <= |soFar| && okm[..done] == soFar[..done]
      invariant okm[len..] == old(okm[len..])
      invariant |asked| == n && InTurn(info, asked)
      decreases len - done
    {
      WrittenBounds(n, len);
      var tInput := info + [counter];
      var tOutput := h(prk, tInput);
      assert tInput == Message(info, n + 1);
      AskedNext(info, asked);
      asked := asked + [tInput];
      BlocksStep(h, prk, info, n, soFar);
      if tOutput.None? {
        BlockFails(h, prk, info, n + 1, len);
        NeverTwice(info, asked);
        return false, asked;
      }
      var toCopy := if HASH_LEN <= len - done then HASH_LEN else len - done;
      assert done == |soFar| && okm[..done] == soFar;
      CopyInto(okm, done, tOutput.value[..toCopy], len);
      assert okm[..done + toCopy] == soFar + tOutput.value[..toCopy];
      AppendTake(soFar, tOutput.value, toCopy);
      soFar := soFar + tOutput.value;
      n := n + 1;
      WrittenBounds(n, len);
      done := done + toCopy;
      counter := if counter == 255 then 0 else counter + 1; // unsigned char wraps
    }
    AllWritten(n, len);
    NeverTwice(info, asked);
    return true, asked;
  }

  /** The messages are those of blocks 1, 2 and so on. */
  ghost predicate InTurn(info: Bytes, asked: seq<Bytes>) {
    |asked| <= MAX_BLOCKS && forall i :: 0 <= i < |asked| ==> asked[i] == Message(info, i + 1)
  }

  lemma NothingAsked(info: Bytes)
    ensures InTurn(info, [])
  {}

  lemma AskedNext(info: Bytes, asked: seq<Bytes>)
    requires InTurn(info, asked) && |asked| < MAX_BLOCKS
    ensures InTurn(info, asked + [Message(info, |asked| + 1)])
  {}

  lemma NeverTwice(info: Bytes, asked: seq<Bytes>)
    requires |asked| <= MAX_BLOCKS && InTurn(info, asked)
    ensures forall i, k :: 0 <= i < k < |asked| ==> asked[i] != asked[k]
  {
    forall i, k | 0 <= i < k < |asked| ensures asked[i] != asked[k] {
      CounterNeverReused(info, i + 1, k + 1);
    }
  }

  lemma NoBlocks(h: Hmac, prk: Bytes, info: Bytes, len: nat)
    ensures Blocks(h, prk, info, 0) == Some([]) && Written(0, len) == 0
  {}

  lemma AllWritten(n: nat, len: nat)
    requires n <= BlocksFor(len) && Written(n, len) >= len
    ensures n == BlocksFor(len) && len <= n * HASH_LEN
  {}

  lemma AppendTake(a: Bytes, b: Bytes, k: nat)
    requires k <= |b|
    ensures (a + b)[..|a| + k] == a + b[..k]
  {}

  /** memcpy */
  method CopyInto(dst: array<Byte>, at: nat, src: Bytes, len: nat)
    requires at + |src| <= len <= dst.Length
    modifies dst
    ensures dst[..at + |src|] == old(dst[..at]) + src
    ensures dst[len..] == old(dst[len..])
  {
    forall k | 0 <= k < |src| {
      dst[at + k] := src[k];
    }
  }

  /** hkdf_extract */
  method Extract(h: Hmac, salt: Bytes, ikm: Bytes) returns (prk: Option<Bytes>)
    ensures prk == RfcExtract(h, salt, ikm)
  {
    prk := h(salt, ikm);
  }

  /** hkdf_derive in its OpenSSL 1.1.1 branch. */
  method Derive(h: Hmac, salt: Bytes, ikm: Bytes, info: Bytes, output: array<Byte>, len: nat) returns (ok: bool)
    requires IsHmac(h)
    requires len <= output.Length
    modifies output
    ensures output[len..] == old(output[len..])
    ensures len <= HASH_LEN ==>
              var out := RfcHkdf(h, salt, ikm, info, len);
              ok == out.Some? && (ok ==> output[..len] == out.value)
  {
    var prk := Extract(h, salt, ikm);
    if prk.None? {
      return false;
    }
    ghost var asked: seq<Bytes>;
    ok, asked := Expand(h, prk.value, info, output, len);
    if len <= HASH_LEN {
      OneBlockIsRfc(h, prk.value, info, len);
    }
  }

  const SALT: Bytes := [0x43, 0x72, 0x79, 0x70, 0x74, 0x6F, 0x48, 0x65, 0x6C, 0x70, 0x65, 0x72, 0x53, 0x61, 0x6C, 0x74] // CryptoHelperSalt
  const INFO: Bytes := [0x41, 0x45, 0x53, 0x2D, 0x32, 0x35, 0x36, 0x2D, 0x4B, 0x65, 0x79] // AES-256-Key

  /** deriveAESKey: both ends reach the RFC 5869 key of 32 bytes from the shared secret. */
  method DeriveAesKey(h: Hmac, secret: Bytes) returns (computed: Option<Bytes>)
    requires IsHmac(h)
    ensures computed == RfcHkdf(h, SALT, secret, INFO, 32)
    ensures computed == if h(SALT, secret).Some? then h(h(SALT, secret).value, INFO + [1]) else None
    ensures computed.Some? ==> |computed.value| == 32
  {
    OneBlockKey(h, SALT, secret, INFO);
    var derived := new Byte[32];
    var ok := Derive(h, SALT, secret, INFO, derived, 32);
    computed := if ok then Some(derived[..]) else None;
    assert derived[..32] == derived[..];
  }
}
