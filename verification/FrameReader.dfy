/**
 * The receiving half of NetworkClientImpl as an object: descriptor registry, read chain, and the
 * in-place encryption of CryptoHelper; operation by operation against module Frames.
 */
module FrameReader {
  import opened Common
  import opened Frames

  /** std::vector<uint8_t>, handed around by reference. */
  class ByteVector {
    var data: Bytes

    constructor (bytes: Bytes)
      ensures data == bytes
    {
      data := bytes;
    }
  }

  class CryptoHelper {
    const cipher: Cipher

    constructor (c: Cipher)
      ensures cipher == c
    {
      cipher := c;
    }

    /** `iv`: the random bytes drawn, if the generator and the cipher calls succeed. */
    method Encrypt(v: ByteVector, iv: Option<Bytes>) returns (ok: bool)
      modifies v
      ensures ok <==> old(v.data) != [] && iv.Some?
      ensures v.data == if ok then Seal(cipher, iv.value, old(v.data)) else old(v.data)
    {
      if |v.data| == 0 {
        return false;
      }
      if iv.None? {
        return false;
      }
      var encrypted := cipher.enc(iv.value, v.data);
      var totalSize := (IV_SIZE + |encrypted|) % SIZE_RANGE;
      var finalPacket := Le32(totalSize);
      finalPacket := finalPacket + iv.value;
      finalPacket := finalPacket + encrypted;
      v.data := finalPacket;
      return true;
    }

    method Decrypt(v: ByteVector) returns (ok: bool)
      modifies v
      ensures ok <==> Unseal(cipher, old(v.data)).Some?
      ensures v.data == if ok then Unseal(cipher, old(v.data)).value else old(v.data)
    {
      if |v.data| <= IV_SIZE {
        return false;
      }
      var receivedIv := v.data[..IV_SIZE];
      var encryptedData := v.data[IV_SIZE..];
      var decrypted := cipher.dec(receivedIv, encryptedData);
      if decrypted.None? {
        return false;
      }
      v.data := decrypted.value;
      return true;
    }
  }

  /** What the peer encrypts in place the reader decrypts in place, back to the same bytes. */
  method EncryptThenDecrypt(crypto: CryptoHelper, v: ByteVector, iv: Bytes)
    requires Sound(crypto.cipher) && |iv| == IV_SIZE && v.data != []
    modifies v
    ensures v.data == old(v.data)
  {
    var sent := crypto.Encrypt(v, Some(iv));
    UnsealSeal(crypto.cipher, iv, old(v.data));
    v.data := v.data[SIZE_SIZE..];
    var read := crypto.Decrypt(v);
  }

  class Reader {
    var packets: Registry
    const headerMax: nat
    const crypto: CryptoHelper
    const enables: Bytes -> bool
    /** is_encrypted_ */
    var isEncrypted: bool
    /** Bytes that have arrived and are not yet consumed. */
    var inbox: Bytes
    /** A read is pending or posted. */
    var reading: bool
    /** The packets handed to OnDataReceived. */
    var delivered: seq<Bytes>

    /** What reading needs of the registered descriptors. */
    ghost predicate Valid()
      reads this
    {
      Readable(packets)
    }

    ghost function Cfg(): Config
      reads this
    {
      Config(packets, headerMax, crypto.cipher, enables)
    }

    function CurrentMode(): Mode
      reads this
    {
      if isEncrypted then Sealed else Plain
    }

    constructor (max: nat, c: CryptoHelper, keyExchange: Bytes -> bool)
      ensures Valid() && packets == map[] && headerMax == max && crypto == c && enables == keyExchange
      ensures !isEncrypted && inbox == [] && reading && delivered == []
    {
      packets, headerMax, crypto, enables := map[], max, c, keyExchange;
      isEncrypted, inbox, reading, delivered := false, [], true, [];
    }

    /** packet_register_fixed */
    method PacketRegisterFixed(header: Byte, totalSize: nat) returns (ok: bool)
      modifies this`packets
      ensures ok <==> header !in old(packets)
      ensures old(Valid()) && ReadableDescriptor(Fixed(totalSize)) ==> Valid()
      ensures packets == if ok then old(packets)[header := Fixed(totalSize)] else old(packets)
    {
      if header in packets {
        return false;
      }
      packets := packets[header := Fixed(totalSize)];
      return true;
    }

    /** packet_register_dynamic */
    method PacketRegisterDynamic(header: Byte, headerSize: nat, sizeOffset: nat) returns (ok: bool)
      modifies this`packets
      ensures ok <==> header !in old(packets)
      ensures old(Valid()) && ReadableDescriptor(Dynamic(headerSize, sizeOffset)) ==> Valid()
      ensures packets == if ok then old(packets)[header := Dynamic(headerSize, sizeOffset)] else old(packets)
    {
      if header in packets {
        return false;
      }
      packets := packets[header := Dynamic(headerSize, sizeOffset)];
      return true;
    }

    /** packet_handle: OnDataReceived runs, and the chain goes on whether it succeeds or not. */
    method PacketHandle(data: Bytes)
      modifies this`delivered, this`isEncrypted
      ensures delivered == old(delivered) + [data]
      ensures CurrentMode() == NextMode(Cfg(), old(CurrentMode()), data)
    {
      delivered := delivered + [data];
      if enables(data) {
        isEncrypted := true;
      }
    }

    /** What one turn of the chain leaves behind. */
    ghost predicate Took(t: Turn, inbox0: Bytes, delivered0: seq<Bytes>, mode0: Mode)
      reads this
    {
      match t
      case Waits => inbox == inbox0 && reading && delivered == delivered0 && CurrentMode() == mode0
      case Ends(rest) => inbox == rest && !reading && delivered == delivered0 && CurrentMode() == mode0
      case Skips(rest) => inbox == rest && reading && delivered == delivered0 && CurrentMode() == mode0
      case Delivers(p, rest) =>
        inbox == rest && reading && delivered == delivered0 + [p] && CurrentMode() == NextMode(Cfg(), mode0, p)
    }

    /** session_read with packet_process. */
    method SessionRead() returns (waits: bool)
      requires Valid() && reading && !isEncrypted
      modifies this`inbox, this`reading, this`delivered, this`isEncrypted
      ensures waits <==> ReadTurn(Cfg(), Plain, old(inbox)).Waits?
      ensures Took(ReadTurn(Cfg(), Plain, old(inbox)), old(inbox), old(delivered), Plain)
    {
      if |inbox| < HEADER_SIZE {
        return true;
      }
      var header := inbox[0];
      if !(0 < header && header as nat <= headerMax) {
        inbox := inbox[HEADER_SIZE..];
        reading := false;
        return false;
      }
      if header !in packets {
        inbox := inbox[HEADER_SIZE..];
        reading := false;
        return false;
      }
      var desc := packets[header];
      if |inbox| < desc.fixedSize {
        return true;
      }
      var total := desc.fixedSize;
      if desc.Dynamic? {
        var dynamicSize := FromLe32(inbox[desc.sizeOffset..desc.sizeOffset + SIZE_SIZE]);
        total := total + dynamicSize;
        if |inbox| < total {
          return true;
        }
      }
      var packet := inbox[..total];
      inbox := inbox[total..];
      PacketHandle(packet);
      return false;
    }

    /** session_read_encrypted with packet_process_decrypted. */
    method SessionReadEncrypted() returns (waits: bool)
      requires Valid() && reading && isEncrypted
      modifies this`inbox, this`reading, this`delivered, this`isEncrypted
      ensures waits <==> ReadTurn(Cfg(), Sealed, old(inbox)).Waits?
      ensures Took(ReadTurn(Cfg(), Sealed, old(inbox)), old(inbox), old(delivered), Sealed)
    {
      if |inbox| < SIZE_SIZE {
        return true;
      }
      var packetSize := FromLe32(inbox[..SIZE_SIZE]);
      if packetSize <= 0 || packetSize >= MAX_SIZE_PACKET {
        inbox := inbox[SIZE_SIZE..];
        return false;
      }
      if |inbox| < SIZE_SIZE + packetSize {
        return true;
      }
      var buffer := new ByteVector(inbox[SIZE_SIZE..SIZE_SIZE + packetSize]);
      inbox := inbox[SIZE_SIZE + packetSize..];
      var decrypted := crypto.Decrypt(buffer);
      if !decrypted {
        return false;
      }
      if buffer.data == [] || !(0 < buffer.data[0] && buffer.data[0] as nat <= headerMax) || buffer.data[0] !in packets {
        reading := false;
        return false;
      }
      PacketHandle(buffer.data);
      return false;
    }

    /** Bytes arrive and the chain runs until it has to wait or ends. */
    method Receive(bytes: Bytes)
      requires Valid() && reading
      modifies this`inbox, this`reading, this`delivered, this`isEncrypted
      ensures Valid()
      ensures var r := ReadAll(Cfg(), old(CurrentMode()), old(inbox) + bytes);
              && delivered == old(delivered) + r.delivered
              && CurrentMode() == r.mode && inbox == r.rest && reading == !r.ended
    {
      inbox := inbox + bytes;
      ghost var cfg, mode0, input := Cfg(), CurrentMode(), inbox;
      AfterAfter([], [], ReadAll(cfg, mode0, input));
      ghost var done: seq<Bytes> := [];
      var waits := false;
      while reading && !waits
        invariant Valid() && cfg == Cfg()
        invariant delivered == old(delivered) + done
        invariant if !reading then ReadAll(cfg, mode0, input) == Result(done, CurrentMode(), inbox, true)
                  else ReadAll(cfg, mode0, input) == After(done, ReadAll(cfg, CurrentMode(), inbox))
        invariant waits ==> reading && ReadTurn(cfg, CurrentMode(), inbox).Waits?
        decreases reading, |inbox|, !waits
      {
        ghost var turn := ReadTurn(cfg, CurrentMode(), inbox);
        if isEncrypted {
          waits := SessionReadEncrypted();
        } else {
          waits := SessionRead();
        }
        if turn.Delivers? {
          AfterAfter(done, [turn.packet], ReadAll(cfg, CurrentMode(), inbox));
          done := done + [turn.packet];
        }
        assert done + [] == done;
      }
      assert done + [] == done;
    }
  }
}
