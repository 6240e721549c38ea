/**
 * The UTF-8 validator of Source/Core/Singletons/json_manager.cpp, proved exact against
 * RFC 3629: section 3 (the encoding of scalar values) and section 4 (the byte grammar).
 */
module Utf8 {
  import opened Common

  /** The bytes of a string, as the bit operations of the validator see them. */
  type Octet = bv8

  // ----- RFC 3629, section 3: scalar values and their encodings -----

  predicate IsScalar(v: bv32) { v < 0xD800 || 0xDFFF < v <= 0x10FFFF }

  type Scalar = v: bv32 | IsScalar(v) witness 0

  function Lead2(x: bv32): Octet requires x <= 0x1F { 0xC0 | (x as Octet) }
  function Lead3(x: bv32): Octet requires x <= 0x0F { 0xE0 | (x as Octet) }
  function Lead4(x: bv32): Octet requires x <= 0x07 { 0xF0 | (x as Octet) }
  function Tail(x: bv32): Octet requires x <= 0x3F { 0x80 | (x as Octet) }

  function EncodeScalar(v: Scalar): (bs: seq<Octet>)
    ensures 1 <= |bs| <= 4
  {
    if v < 0x80 then [v as Octet]
    else if v < 0x800 then [Lead2((v >> 6) & 0x1F), Tail(v & 0x3F)]
    else if v < 0x10000 then [Lead3((v >> 12) & 0x0F), Tail((v >> 6) & 0x3F), Tail(v & 0x3F)]
    else [Lead4((v >> 18) & 0x07), Tail((v >> 12) & 0x3F), Tail((v >> 6) & 0x3F), Tail(v & 0x3F)]
  }

  function EncodeAll(vs: seq<Scalar>): seq<Octet> {
    if vs == [] then [] else EncodeScalar(vs[0]) + EncodeAll(vs[1..])
  }

  /** `s` is the encoding of some sequence of scalar values. */
  ghost predicate Valid(s: seq<Octet>) { exists vs: seq<Scalar> :: EncodeAll(vs) == s }

  // ----- The validator's own reading of one character -----

  predicate IsTail(c: Octet) { (c & 0xC0) == 0x80 }

  function Code2(c: Octet, c1: Octet): bv32 { (((c & 0x1F) as bv32) << 6) | ((c1 & 0x3F) as bv32) }

  function Code3(c: Octet, c1: Octet, c2: Octet): bv32 {
    (((c & 0x0F) as bv32) << 12) | (((c1 & 0x3F) as bv32) << 6) | ((c2 & 0x3F) as bv32)
  }

  function Code4(c: Octet, c1: Octet, c2: Octet, c3: Octet): bv32 {
    (((c & 0x07) as bv32) << 18) | (((c1 & 0x3F) as bv32) << 12) | (((c2 & 0x3F) as bv32) << 6) | ((c3 & 0x3F) as bv32)
  }

  predicate Accepts2(c: Octet, c1: Octet) { (c & 0xE0) == 0xC0 && IsTail(c1) && 0x80 <= Code2(c, c1) }

  predicate Accepts3(c: Octet, c1: Octet, c2: Octet) {
    (c & 0xF0) == 0xE0 && IsTail(c1) && IsTail(c2) && IsScalar(Code3(c, c1, c2)) && 0x800 <= Code3(c, c1, c2)
  }

  predicate Accepts4(c: Octet, c1: Octet, c2: Octet, c3: Octet) {
    (c & 0xF8) == 0xF0 && IsTail(c1) && IsTail(c2) && IsTail(c3) && 0x10000 <= Code4(c, c1, c2, c3) <= 0x10FFFF
  }

  /** The scalar at the front of `s`, if the loop body accepts one there. */
  function DecodeFront(s: seq<Octet>): Option<bv32> {
    if s == [] then None
    else if s[0] < 0x80 then Some(s[0] as bv32)
    else if 2 <= |s| && Accepts2(s[0], s[1]) then Some(Code2(s[0], s[1]))
    else if 3 <= |s| && Accepts3(s[0], s[1], s[2]) then Some(Code3(s[0], s[1], s[2]))
    else if 4 <= |s| && Accepts4(s[0], s[1], s[2], s[3]) then Some(Code4(s[0], s[1], s[2], s[3]))
    else None
  }

  // ----- Bit-vector kernels -----

  lemma LeadBits(x: bv32)
    ensures x <= 0x1F ==> ((Lead2(x) & 0x1F) as bv32) == x && (Lead2(x) & 0xE0) == 0xC0
    ensures x <= 0x0F ==> ((Lead3(x) & 0x0F) as bv32) == x && (Lead3(x) & 0xF0) == 0xE0
    ensures x <= 0x07 ==> ((Lead4(x) & 0x07) as bv32) == x && (Lead4(x) & 0xF8) == 0xF0
    ensures x <= 0x3F ==> ((Tail(x) & 0x3F) as bv32) == x && IsTail(Tail(x))
  {}

  lemma JoinBits(v: bv32)
    ensures v < 0x800 ==> (((v >> 6) & 0x1F) << 6) | (v & 0x3F) == v
    ensures v < 0x10000 ==> (((v >> 12) & 0x0F) << 12) | (((v >> 6) & 0x3F) << 6) | (v & 0x3F) == v
    ensures v <= 0x10FFFF ==>
              (((v >> 18) & 0x07) << 18) | (((v >> 12) & 0x3F) << 12) | (((v >> 6) & 0x3F) << 6) | (v & 0x3F) == v
  {}

  lemma SplitBits2(c: Octet, c1: Octet)
    requires (c & 0xE0) == 0xC0 && IsTail(c1)
    ensures var v := Code2(c, c1); v < 0x800 && Lead2((v >> 6) & 0x1F) == c && Tail(v & 0x3F) == c1
  {}

  lemma SplitBits3(c: Octet, c1: Octet, c2: Octet)
    requires (c & 0xF0) == 0xE0 && IsTail(c1) && IsTail(c2)
    ensures var v := Code3(c, c1, c2);
            v < 0x10000 && Lead3((v >> 12) & 0x0F) == c && Tail((v >> 6) & 0x3F) == c1 && Tail(v & 0x3F) == c2
  {}

  lemma SplitBits4(c: Octet, c1: Octet, c2: Octet, c3: Octet)
    requires (c & 0xF8) == 0xF0 && IsTail(c1) && IsTail(c2) && IsTail(c3)
    ensures var v := Code4(c, c1, c2, c3);
            Lead4((v >> 18) & 0x07) == c && Tail((v >> 12) & 0x3F) == c1
            && Tail((v >> 6) & 0x3F) == c2 && Tail(v & 0x3F) == c3
  {}

  lemma JoinCode3(v: bv32)
    requires v < 0x10000
    ensures Code3(Lead3((v >> 12) & 0x0F), Tail((v >> 6) & 0x3F), Tail(v & 0x3F)) == v
    ensures (Lead3((v >> 12) & 0x0F) & 0xF0) == 0xE0
  {
    JoinBits(v);
    LeadBits((v >> 12) & 0x0F);
    LeadBits((v >> 6) & 0x3F);
    LeadBits(v & 0x3F);
  }

  lemma JoinCode4(v: bv32)
    requires v <= 0x10FFFF
    ensures Code4(Lead4((v >> 18) & 0x07), Tail((v >> 12) & 0x3F), Tail((v >> 6) & 0x3F), Tail(v & 0x3F)) == v
    ensures (Lead4((v >> 18) & 0x07) & 0xF8) == 0xF0
  {
    JoinBits(v);
    LeadBits((v >> 18) & 0x07);
    LeadBits((v >> 12) & 0x3F);
    LeadBits((v >> 6) & 0x3F);
    LeadBits(v & 0x3F);
  }

  /** The four lead-byte classes exclude one another. */
  lemma LeadClasses(c: Octet)
    ensures (c & 0xE0) == 0xC0 ==> 0x80 <= c && (c & 0xF0) != 0xE0 && (c & 0xF8) != 0xF0
    ensures (c & 0xF0) == 0xE0 ==> 0x80 <= c && (c & 0xF8) != 0xF0
    ensures (c & 0xF8) == 0xF0 ==> 0x80 <= c
  {}

  lemma Accepted2(c: Octet, c1: Octet)
    requires Accepts2(c, c1)
    ensures 0x80 <= c && IsScalar(Code2(c, c1)) && EncodeScalar(Code2(c, c1)) == [c, c1]
  {
    LeadClasses(c);
    SplitBits2(c, c1);
  }

  lemma Accepted3(c: Octet, c1: Octet, c2: Octet)
    requires Accepts3(c, c1, c2)
    ensures 0x80 <= c && EncodeScalar(Code3(c, c1, c2)) == [c, c1, c2]
  {
    hide Code3, Lead3, Tail, IsTail;
    LeadClasses(c);
    SplitBits3(c, c1, c2);
  }

  lemma Accepted4(c: Octet, c1: Octet, c2: Octet, c3: Octet)
    requires Accepts4(c, c1, c2, c3)
    ensures 0x80 <= c && IsScalar(Code4(c, c1, c2, c3)) && EncodeScalar(Code4(c, c1, c2, c3)) == [c, c1, c2, c3]
  {
    hide Code4, Lead4, Tail, IsTail;
    LeadClasses(c);
    SplitBits4(c, c1, c2, c3);
  }

  lemma Encoding2(v: Scalar)
    requires 0x80 <= v < 0x800
    ensures var bs := EncodeScalar(v); Accepts2(bs[0], bs[1]) && 0x80 <= bs[0] && Code2(bs[0], bs[1]) == v
  {
    JoinBits(v);
    LeadBits((v >> 6) & 0x1F);
    LeadBits(v & 0x3F);
    LeadClasses(Lead2((v >> 6) & 0x1F));
  }

  lemma Encoding3(v: Scalar)
    requires 0x800 <= v < 0x10000
    ensures var bs := EncodeScalar(v);
            Accepts3(bs[0], bs[1], bs[2]) && 0x80 <= bs[0] && !Accepts2(bs[0], bs[1]) && Code3(bs[0], bs[1], bs[2]) == v
  {
    JoinCode3(v);
    LeadBits((v >> 6) & 0x3F);
    LeadBits(v & 0x3F);
    LeadClasses(Lead3((v >> 12) & 0x0F));
  }

  lemma Encoding4(v: Scalar)
    requires 0x10000 <= v
    ensures var bs := EncodeScalar(v);
            Accepts4(bs[0], bs[1], bs[2], bs[3]) && 0x80 <= bs[0] && !Accepts2(bs[0], bs[1])
            && !Accepts3(bs[0], bs[1], bs[2]) && Code4(bs[0], bs[1], bs[2], bs[3]) == v
  {
    assert IsScalar(v);
    JoinCode4(v);
    LeadBits((v >> 12) & 0x3F);
    LeadBits((v >> 6) & 0x3F);
    LeadBits(v & 0x3F);
    LeadClasses(Lead4((v >> 18) & 0x07));
  }

  lemma Encoding1(v: Scalar)
    requires v < 0x80
    ensures EncodeScalar(v) == [v as Octet] && v as Octet < 0x80 && (v as Octet) as bv32 == v
  {}

  /** Every encoding is read back as the scalar it encodes, whatever follows it. */
  lemma DecodeEncoding(v: Scalar, rest: seq<Octet>)
    ensures DecodeFront(EncodeScalar(v) + rest) == Some(v)
  {
    hide Accepts2, Accepts3, Accepts4, Code2, Code3, Code4, Lead2, Lead3, Lead4, Tail;
    if v < 0x80 {
      Encoding1(v);
    } else if v < 0x800 {
      Encoding2(v);
    } else if v < 0x10000 {
      Encoding3(v);
    } else {
      Encoding4(v);
    }
  }

  /** What the loop body accepts is the encoding of the scalar it computed. */
  lemma EncodeDecoded(s: seq<Octet>)
    requires DecodeFront(s).Some?
    ensures var v := DecodeFront(s).value; IsScalar(v) && EncodeScalar(v) <= s
  {
    if s[0] < 0x80 {
    } else if 2 <= |s| && Accepts2(s[0], s[1]) {
      Accepted2(s[0], s[1]);
    } else if 3 <= |s| && Accepts3(s[0], s[1], s[2]) {
      Accepted3(s[0], s[1], s[2]);
    } else {
      Accepted4(s[0], s[1], s[2], s[3]);
    }
  }

  // ----- Whole strings -----

  /** A valid string stays valid when a character is taken off the front, and only then. */
  lemma FrontStep(s: seq<Octet>, v: Scalar)
    requires EncodeScalar(v) <= s
    ensures Valid(s) <==> Valid(s[|EncodeScalar(v)|..])
  {
    var e := EncodeScalar(v);
    var rest := s[|e|..];
    assert s == e + rest;
    DecodeEncoding(v, rest);
    if Valid(rest) {
      var vs: seq<Scalar> :| EncodeAll(vs) == rest;
      assert ([v] + vs)[1..] == vs;
      assert EncodeAll([v] + vs) == s;
    }
    if Valid(s) {
      var vs: seq<Scalar> :| EncodeAll(vs) == s;
      DecodeEncoding(vs[0], EncodeAll(vs[1..]));
      assert vs[0] == v;
      assert EncodeAll(vs[1..]) == rest;
    }
  }

  /** A non-empty string the loop body rejects at the front encodes nothing. */
  lemma FrontReject(s: seq<Octet>)
    requires s != [] && DecodeFront(s).None?
    ensures !Valid(s)
  {
    forall vs: seq<Scalar> | EncodeAll(vs) == s ensures false {
      DecodeEncoding(vs[0], EncodeAll(vs[1..]));
    }
  }

  lemma EmptyIsValid()
    ensures Valid([])
  {
    var none: seq<Scalar> := [];
    assert EncodeAll(none) == [];
  }

  /** How many bytes the loop body consumes at the front of `s`; 0 when it rejects. */
  function FrontLength(s: seq<Octet>): nat {
    if s == [] then 0
    else if s[0] < 0x80 then 1
    else if 2 <= |s| && Accepts2(s[0], s[1]) then 2
    else if 3 <= |s| && Accepts3(s[0], s[1], s[2]) then 3
    else if 4 <= |s| && Accepts4(s[0], s[1], s[2], s[3]) then 4
    else 0
  }

  lemma FrontLengthOfDecoded(s: seq<Octet>)
    requires DecodeFront(s).Some? && IsScalar(DecodeFront(s).value)
    ensures FrontLength(s) == |EncodeScalar(DecodeFront(s).value)|
  {
    if s[0] < 0x80 {
    } else if 2 <= |s| && Accepts2(s[0], s[1]) {
      Accepted2(s[0], s[1]);
    } else if 3 <= |s| && Accepts3(s[0], s[1], s[2]) {
      Accepted3(s[0], s[1], s[2]);
    } else {
      Accepted4(s[0], s[1], s[2], s[3]);
    }
  }

  /** One turn of the loop keeps the question unchanged, or settles it. */
  lemma Advance(str: seq<Octet>, i: nat)
    requires i < |str|
    ensures var k := FrontLength(str[i..]);
            if k == 0 then !Valid(str[i..])
            else i + k <= |str| && (Valid(str[i..]) <==> Valid(str[i + k..]))
  {
    var s := str[i..];
    if FrontLength(s) == 0 {
      FrontReject(s);
    } else {
      EncodeDecoded(s);
      FrontLengthOfDecoded(s);
      FrontStep(s, DecodeFront(s).value);
      assert s[FrontLength(s)..] == str[i + FrontLength(s)..];
    }
  }

  method IsValidUtf8(str: seq<Octet>) returns (ok: bool)
    ensures ok <==> Valid(str)
  {
    hide Valid;
    EmptyIsValid();
    if |str| == 0 {
      return true;
    }
    var len := |str|;
    var i := 0;
    assert str[0..] == str;
    while i < len
      invariant 0 <= i <= len
      invariant Valid(str) <==> Valid(str[i..])
    {
      var c := str[i];
      Advance(str, i);
      LeadClasses(c);
      if c < 0x80 {
        i := i + 1;
      } else if (c & 0xE0) == 0xC0 {
        if i + 1 >= len {
          return false;
        }
        var c1 := str[i + 1];
        var codepoint := (((c & 0x1F) as bv32) << 6) | ((c1 & 0x3F) as bv32);
        if (c1 & 0xC0) != 0x80 || codepoint < 0x80 {
          return false;
        }
        i := i + 2;
      } else if (c & 0xF0) == 0xE0 {
        if i + 2 >= len {
          return false;
        }
        var c1, c2 := str[i + 1], str[i + 2];
        var codepoint := (((c & 0x0F) as bv32) << 12) | (((c1 & 0x3F) as bv32) << 6) | ((c2 & 0x3F) as bv32);
        if (c1 & 0xC0) != 0x80 || (c2 & 0xC0) != 0x80 {
          return false;
        }
        if codepoint < 0x800 {
          return false;
        }
        if codepoint >= 0xD800 && codepoint <= 0xDFFF {
          return false;
        }
        i := i + 3;
      } else if (c & 0xF8) == 0xF0 {
        if i + 3 >= len {
          return false;
        }
        var c1, c2, c3 := str[i + 1], str[i + 2], str[i + 3];
        var codepoint := (((c & 0x07) as bv32) << 18) | (((c1 & 0x3F) as bv32) << 12)
                         | (((c2 & 0x3F) as bv32) << 6) | ((c3 & 0x3F) as bv32);
        if (c1 & 0xC0) != 0x80 || (c2 & 0xC0) != 0x80 || (c3 & 0xC0) != 0x80 {
          return false;
        }
        if codepoint < 0x10000 || codepoint > 0x10FFFF {
          return false;
        }
        i := i + 4;
      } else {
        return false;
      }
    }
    assert str[len..] == [];
    return true;
  }

  /** A byte string encodes at most one sequence of scalar values. */
  lemma {:induction false} EncodingIsUnique(vs: seq<Scalar>, ws: seq<Scalar>)
    requires EncodeAll(vs) == EncodeAll(ws)
    ensures vs == ws
  {
    if vs != [] && ws != [] {
      DecodeEncoding(vs[0], EncodeAll(vs[1..]));
      DecodeEncoding(ws[0], EncodeAll(ws[1..]));
      assert EncodeAll(vs)[|EncodeScalar(vs[0])|..] == EncodeAll(vs[1..]);
      assert EncodeAll(ws)[|EncodeScalar(ws[0])|..] == EncodeAll(ws[1..]);
      EncodingIsUnique(vs[1..], ws[1..]);
    }
  }

  /** Behind a valid prefix, validity of the whole is validity of the remainder. */
  lemma {:induction false} ConcatValid(a: seq<Octet>, b: seq<Octet>, vs: seq<Scalar>)
    requires EncodeAll(vs) == a
    ensures Valid(a + b) <==> Valid(b)
    decreases vs
  {
    if vs == [] {
      assert a + b == b;
    } else {
      var e, rest := EncodeScalar(vs[0]), EncodeAll(vs[1..]);
      FrontStep(a + b, vs[0]);
      assert (a + b)[|e|..] == rest + b;
      ConcatValid(rest, b, vs[1..]);
    }
  }

  // ----- RFC 3629, section 4: the byte grammar -----

  predicate Utf8Tail(c: Octet) { 0x80 <= c <= 0xBF }

  predicate Utf8Char(b: seq<Octet>) {
    match |b|
    case 1 => b[0] <= 0x7F
    case 2 => 0xC2 <= b[0] <= 0xDF && Utf8Tail(b[1])
    case 3 =>
      && (|| (b[0] == 0xE0 && 0xA0 <= b[1] <= 0xBF)
          || (0xE1 <= b[0] <= 0xEC && Utf8Tail(b[1]))
          || (b[0] == 0xED && 0x80 <= b[1] <= 0x9F)
          || (0xEE <= b[0] <= 0xEF && Utf8Tail(b[1])))
      && Utf8Tail(b[2])
    case 4 =>
      && (|| (b[0] == 0xF0 && 0x90 <= b[1] <= 0xBF)
          || (0xF1 <= b[0] <= 0xF3 && Utf8Tail(b[1]))
          || (b[0] == 0xF4 && 0x80 <= b[1] <= 0x8F))
      && Utf8Tail(b[2]) && Utf8Tail(b[3])
    case _ => false
  }

  /** `UTF8-octets = *( UTF8-char )` */
  ghost predicate Utf8Octets(s: seq<Octet>)
    decreases |s|
  {
    s == [] || exists k :: 1 <= k <= |s| && Utf8Char(s[..k]) && Utf8Octets(s[k..])
  }

  lemma Grammar2(c: Octet, c1: Octet)
    ensures Accepts2(c, c1) <==> 0xC2 <= c <= 0xDF && Utf8Tail(c1)
  {}

  lemma Grammar3(c: Octet, c1: Octet, c2: Octet)
    ensures Accepts3(c, c1, c2) <==> Utf8Char([c, c1, c2])
  {}

  lemma Grammar4(c: Octet, c1: Octet, c2: Octet, c3: Octet)
    ensures Accepts4(c, c1, c2, c3) <==> Utf8Char([c, c1, c2, c3])
  {}

  /** A grammar character is exactly the encoding of one scalar. */
  lemma GrammarChar(b: seq<Octet>)
    requires Utf8Char(b)
    ensures DecodeFront(b).Some? && IsScalar(DecodeFront(b).value) && EncodeScalar(DecodeFront(b).value) == b
  {
    LeadClasses(b[0]);
    if |b| == 2 {
      Grammar2(b[0], b[1]);
      Accepted2(b[0], b[1]);
    } else if |b| == 3 {
      assert b == [b[0], b[1], b[2]];
      Grammar3(b[0], b[1], b[2]);
      Accepted3(b[0], b[1], b[2]);
    } else if |b| == 4 {
      assert b == [b[0], b[1], b[2], b[3]];
      Grammar4(b[0], b[1], b[2], b[3]);
      Accepted4(b[0], b[1], b[2], b[3]);
    }
  }

  lemma EncodingIsGrammarChar(v: Scalar)
    ensures Utf8Char(EncodeScalar(v))
  {
    hide Accepts2, Accepts3, Accepts4, Code2, Code3, Code4, Lead2, Lead3, Lead4, Tail;
    var b := EncodeScalar(v);
    if v < 0x80 {
      Encoding1(v);
    } else if v < 0x800 {
      Encoding2(v);
      Grammar2(b[0], b[1]);
    } else if v < 0x10000 {
      Encoding3(v);
      Grammar3(b[0], b[1], b[2]);
      assert b == [b[0], b[1], b[2]];
    } else {
      Encoding4(v);
      Grammar4(b[0], b[1], b[2], b[3]);
      assert b == [b[0], b[1], b[2], b[3]];
    }
  }

  lemma {:induction false} EncodingsMatchGrammar(vs: seq<Scalar>)
    ensures Utf8Octets(EncodeAll(vs))
  {
    if vs != [] {
      var s, k := EncodeAll(vs), |EncodeScalar(vs[0])|;
      EncodingIsGrammarChar(vs[0]);
      EncodingsMatchGrammar(vs[1..]);
      assert s[..k] == EncodeScalar(vs[0]) && s[k..] == EncodeAll(vs[1..]);
    }
  }

  lemma {:induction false} GrammarIsEncoded(s: seq<Octet>)
    requires Utf8Octets(s)
    ensures Valid(s)
    decreases |s|
  {
    if s == [] {
      EmptyIsValid();
    } else {
      var k :| 1 <= k <= |s| && Utf8Char(s[..k]) && Utf8Octets(s[k..]);
      GrammarChar(s[..k]);
      var v := DecodeFront(s[..k]).value;
      GrammarIsEncoded(s[k..]);
      FrontStep(s, v);
    }
  }

  /** Section 3 and section 4 of RFC 3629 describe the same strings. */
  lemma ValidIffGrammar(s: seq<Octet>)
    ensures Valid(s) <==> Utf8Octets(s)
  {
    if Valid(s) {
      var vs: seq<Scalar> :| EncodeAll(vs) == s;
      EncodingsMatchGrammar(vs);
    }
    if Utf8Octets(s) {
      GrammarIsEncoded(s);
    }
  }
}
