/** base64url without padding (section 5 of RFC 4648), as the server encodes and decodes
    it, and the client's version that strips and restores the padding. Bytes are first
    regrouped into six-bit values, which are then spelled with letters. */
module Base64Url {
  import opened Types

  type sextet = i: int | 0 <= i < 64

  // ── Bytes and six-bit values ────────────────────────────────────────────

  /** The four six-bit values of three bytes. */
  function Split(x: byte, y: byte, z: byte): (p: seq<sextet>)
    ensures |p| == 4
  {
    var q: int, r: int := x % 4 * 16 + y / 16, y % 16 * 4 + z / 64;
    [x / 4, q, r, z % 64]
  }

  /** The three bytes of four six-bit values. */
  function Merge(p: sextet, q: sextet, r: sextet, t: sextet): (b: seq<byte>)
    ensures |b| == 3
  {
    var x: int, y: int, z: int := p * 4 + q / 16, q % 16 * 16 + r / 4, r % 4 * 64 + t;
    [x, y, z]
  }

  lemma HighLow16(h: int, l: int)
    requires 0 <= l < 16
    ensures (h * 16 + l) / 16 == h && (h * 16 + l) % 16 == l
  {
  }

  lemma HighLow4(h: int, l: int)
    requires 0 <= l < 4
    ensures (h * 4 + l) / 4 == h && (h * 4 + l) % 4 == l
  {
  }

  lemma HighLow64(h: int, l: int)
    requires 0 <= l < 64
    ensures (h * 64 + l) / 64 == h && (h * 64 + l) % 64 == l
  {
  }

  lemma MergeSplit(x: byte, y: byte, z: byte)
    ensures var p := Split(x, y, z); Merge(p[0], p[1], p[2], p[3]) == [x, y, z]
    ensures y == 0 && z == 0 ==> Split(x, y, z)[1] % 16 == 0 && Split(x, y, z)[2] == 0 && Split(x, y, z)[3] == 0
    ensures z == 0 ==> Split(x, y, z)[2] % 4 == 0 && Split(x, y, z)[3] == 0
  {
    HighLow16(x % 4, y / 16);
    HighLow4(y % 16, z / 64);
  }

  lemma MergedZeros(p: sextet, q: sextet, r: sextet, t: sextet)
    ensures q % 16 == 0 && r == 0 && t == 0 ==> Merge(p, q, r, t)[1] == 0 && Merge(p, q, r, t)[2] == 0
    ensures r % 4 == 0 && t == 0 ==> Merge(p, q, r, t)[2] == 0
  {
  }

  lemma SplitMerge(p: sextet, q: sextet, r: sextet, t: sextet)
    ensures var b := Merge(p, q, r, t); Split(b[0], b[1], b[2]) == [p, q, r, t]
    ensures q % 16 == 0 && r == 0 && t == 0 ==> Merge(p, q, r, t)[1] == 0 && Merge(p, q, r, t)[2] == 0
    ensures r % 4 == 0 && t == 0 ==> Merge(p, q, r, t)[2] == 0
  {
    MergedZeros(p, q, r, t);
    HighLow4(p, q / 16);
    HighLow16(q % 16, r / 4);
    HighLow64(r % 4, t);
  }

  /** A final group of one or two bytes is filled up with zero bits. */
  function Pack(b: seq<byte>): (p: seq<sextet>) {
    if |b| == 0 then []
    else if |b| == 1 then Split(b[0], 0, 0)[..2]
    else if |b| == 2 then Split(b[0], b[1], 0)[..3]
    else Split(b[0], b[1], b[2]) + Pack(b[3..])
  }

  /** Regroups six-bit values into bytes; leftover bits of the last value are dropped, and
      a lone last value makes no byte. */
  function Unpack(p: seq<sextet>): (b: seq<byte>) {
    if |p| <= 1 then []
    else if |p| == 2 then Merge(p[0], p[1], 0, 0)[..1]
    else if |p| == 3 then Merge(p[0], p[1], p[2], 0)[..2]
    else Merge(p[0], p[1], p[2], p[3]) + Unpack(p[4..])
  }

  /** Every bit belongs to some byte or is a zero that completes the last value. */
  predicate Canonical(p: seq<sextet>) {
    if |p| == 0 then true
    else if |p| == 1 then false
    else if |p| == 2 then p[1] % 16 == 0
    else if |p| == 3 then p[2] % 4 == 0
    else Canonical(p[4..])
  }

  lemma {:induction false} UnpackPack(b: seq<byte>)
    ensures Canonical(Pack(b)) && Unpack(Pack(b)) == b
  {
    if |b| >= 3 {
      UnpackPack(b[3..]);
      MergeSplit(b[0], b[1], b[2]);
      assert Pack(b)[4..] == Pack(b[3..]);
      assert b == [b[0], b[1], b[2]] + b[3..];
    } else if |b| == 2 {
      MergeSplit(b[0], b[1], 0);
      assert b == [b[0], b[1]];
    } else if |b| == 1 {
      MergeSplit(b[0], 0, 0);
      assert b == [b[0]];
    }
  }

  lemma {:induction false} PackUnpack(p: seq<sextet>)
    requires Canonical(p)
    ensures Pack(Unpack(p)) == p
  {
    if |p| >= 4 {
      PackUnpack(p[4..]);
      SplitMerge(p[0], p[1], p[2], p[3]);
      assert Unpack(p)[3..] == Unpack(p[4..]);
      assert p == [p[0], p[1], p[2], p[3]] + p[4..];
    } else if |p| == 3 {
      SplitMerge(p[0], p[1], p[2], 0);
      assert p == [p[0], p[1], p[2]];
    } else if |p| == 2 {
      SplitMerge(p[0], p[1], 0, 0);
      assert p == [p[0], p[1]];
    }
  }

  /** The number of values tells the number of bytes, and is never 1 modulo 4. */
  lemma {:induction false} PackLength(b: seq<byte>)
    ensures |Pack(b)| % 4 == (if |b| % 3 == 0 then 0 else |b| % 3 + 1)
  {
    hide Split;
    if |b| >= 3 {
      PackLength(b[3..]);
      assert |Pack(b)| == 4 + |Pack(b[3..])|;
    }
  }

  // ── Six-bit values and letters ──────────────────────────────────────────

  function Letter(i: sextet): (c: char) {
    if i < 26 then (65 + i) as char
    else if i < 52 then (71 + i) as char
    else if i < 62 then (i - 4) as char
    else if i == 62 then '-'
    else '_'
  }

  function Value(c: char): (r: Option<sextet>) {
    if 'A' <= c <= 'Z' then Some(c as int - 65)
    else if 'a' <= c <= 'z' then Some(c as int - 71)
    else if '0' <= c <= '9' then Some(c as int + 4)
    else if c == '-' then Some(62)
    else if c == '_' then Some(63)
    else None
  }

  lemma LetterValue(i: sextet)
    ensures Value(Letter(i)) == Some(i) && Letter(i) != '='
  {
  }

  lemma ValueLetter(c: char)
    requires Value(c).Some?
    ensures Letter(Value(c).value) == c
  {
  }

  function Spell(p: seq<sextet>): (s: string)
    ensures |s| == |p|
  {
    if p == [] then "" else [Letter(p[0])] + Spell(p[1..])
  }

  function Read(s: string): (r: Option<seq<sextet>>)
    ensures r.Some? ==> |r.value| == |s|
  {
    if s == "" then Some([])
    else match Value(s[0])
      case None => None
      case Some(v) =>
        match Read(s[1..])
        case None => None
        case Some(rest) => Some([v] + rest)
  }

  lemma {:induction false} ReadSpell(p: seq<sextet>)
    ensures Read(Spell(p)) == Some(p)
    ensures forall i :: 0 <= i < |p| ==> Spell(p)[i] != '='
  {
    hide Letter, Value;
    if p != [] {
      LetterValue(p[0]);
      ReadSpell(p[1..]);
      assert Spell(p)[1..] == Spell(p[1..]);
      assert p == [p[0]] + p[1..];
    }
  }

  lemma {:induction false} SpellRead(s: string)
    requires Read(s).Some?
    ensures Spell(Read(s).value) == s
  {
    hide Letter, Value;
    if s != "" {
      ValueLetter(s[0]);
      SpellRead(s[1..]);
      assert Read(s).value[1..] == Read(s[1..]).value;
      assert s == [s[0]] + s[1..];
    }
  }

  // ── Server side ─────────────────────────────────────────────────────────

  /** Unpadded encoding. */
  function Encode(b: seq<byte>): (s: string) {
    Spell(Pack(b))
  }

  /** Canonical unpadded decoding: no padding sign, no foreign character, no leftover bit. */
  function Decode(s: string): (r: Option<seq<byte>>) {
    match Read(s)
    case None => None
    case Some(p) => if Canonical(p) then Some(Unpack(p)) else None
  }

  /** The strings the server accepts are exactly the encodings, and each stands for one
      byte string. */
  lemma DecodeIffEncode(s: string, b: seq<byte>)
    ensures Decode(s) == Some(b) <==> s == Encode(b)
  {
    UnpackPack(b);
    ReadSpell(Pack(b));
    if Decode(s) == Some(b) {
      PackUnpack(Read(s).value);
      SpellRead(s);
    }
  }

  /** The digits are those of table 2 of RFC 4648, in its order. */
  lemma LetterIsTable(i: sextet)
    ensures i < 26 ==> Letter(i) as int == 'A' as int + i
    ensures 26 <= i < 52 ==> Letter(i) as int == 'a' as int + (i - 26)
    ensures 52 <= i < 62 ==> Letter(i) as int == '0' as int + (i - 52)
    ensures i == 62 ==> Letter(i) == '-'
    ensures i == 63 ==> Letter(i) == '_'
  {
  }

  /** Three bytes and their four digits are the same number, most significant part first. */
  lemma SplitIsBigEndian(x: byte, y: byte, z: byte)
    ensures var p := Split(x, y, z);
            var a: int, b: int, c: int, d: int := p[0], p[1], p[2], p[3];
            a * 262144 + b * 4096 + c * 64 + d == x as int * 65536 + y as int * 256 + z as int
  {
  }

  lemma {:induction false} SpellAt(p: seq<sextet>)
    ensures forall i :: 0 <= i < |p| ==> Spell(p)[i] == Letter(p[i])
  {
    hide Letter;
    if p != [] {
      SpellAt(p[1..]);
      forall i | 1 <= i < |p| ensures Spell(p)[i] == Letter(p[i]) {
        assert Spell(p)[i] == Spell(p[1..])[i - 1] && p[1..][i - 1] == p[i];
      }
    }
  }

  /** Groups of three bytes are written one after the other. */
  lemma EncodeJoins(b: seq<byte>, rest: seq<byte>)
    requires |b| == 3
    ensures Encode(b + rest) == Spell(Split(b[0], b[1], b[2])) + Encode(rest)
  {
    assert (b + rest)[3..] == rest;
    var p, q := Split(b[0], b[1], b[2]), Pack(rest);
    SpellAt(p + q);
    SpellAt(p);
    SpellAt(q);
  }

  lemma PackShort(x: byte, y: byte)
    ensures var q: int, r: int := x % 4 * 16, y % 16 * 4;
            Pack([x]) == [x / 4, q] && Pack([x, y]) == [x / 4, q + y / 16, r]
  {
  }

  lemma ShortVector(x: byte, y: byte, p: seq<sextet>, q: seq<sextet>)
    requires Pack([x]) == p && Pack([x, y]) == q
    ensures Encode([x]) == Spell(p) && Encode([x, y]) == Spell(q)
    ensures forall i :: 0 <= i < |p| ==> Spell(p)[i] == Letter(p[i])
    ensures forall i :: 0 <= i < |q| ==> Spell(q)[i] == Letter(q[i])
  {
    SpellAt(p);
    SpellAt(q);
  }

  lemma VectorOfNothing()
    ensures Encode([]) == ""
  {
  }

  lemma VectorsOfFo()
    ensures Encode([102]) == "Zg" && Encode([102, 111]) == "Zm8"
  {
    hide Encode, Pack, Spell, Split;
    PackShort(102, 111);
    ShortVector(102, 111, [25, 32], [25, 38, 60]);
  }

  lemma VectorsOfBa()
    ensures Encode([98]) == "Yg" && Encode([98, 97]) == "YmE"
  {
    hide Encode, Pack, Spell, Split;
    PackShort(98, 97);
    ShortVector(98, 97, [24, 32], [24, 38, 4]);
  }

  lemma VectorOfFoo()
    ensures Spell(Split(102, 111, 111)) == "Zm9v"
  {
    hide Spell;
    SpellAt(Split(102, 111, 111));
  }

  lemma VectorOfBar()
    ensures Spell(Split(98, 97, 114)) == "YmFy"
  {
    hide Spell;
    SpellAt(Split(98, 97, 114));
  }

  /** The test vectors of section 10 of RFC 4648, without their padding. */
  lemma TestVectors()
    ensures Encode([]) == "" && Encode([102]) == "Zg" && Encode([102, 111]) == "Zm8"
    ensures Encode([102, 111, 111]) == "Zm9v" && Encode([102, 111, 111, 98]) == "Zm9vYg"
    ensures Encode([102, 111, 111, 98, 97]) == "Zm9vYmE" && Encode([102, 111, 111, 98, 97, 114]) == "Zm9vYmFy"
  {
    hide Encode, Spell, Split, Pack;
    VectorOfNothing();
    VectorsOfFo();
    VectorsOfBa();
    VectorOfFoo();
    VectorOfBar();
    var foo: seq<byte>, bar: seq<byte> := [102, 111, 111], [98, 97, 114];
    EncodeJoins(foo, []);
    EncodeJoins(foo, [98]);
    EncodeJoins(foo, [98, 97]);
    EncodeJoins(foo, bar);
    EncodeJoins(bar, []);
    assert foo + [] == foo && bar + [] == bar;
    assert foo + [98] == [102, 111, 111, 98] && foo + [98, 97] == [102, 111, 111, 98, 97];
    assert foo + bar == [102, 111, 111, 98, 97, 114];
  }

  // ── Client side ─────────────────────────────────────────────────────────

  function Equals(n: nat): (s: string)
    ensures |s| == n
  {
    if n == 0 then "" else Equals(n - 1) + "="
  }

  /** Padding signs that section 4 of RFC 4648 asks for after `n` bytes. */
  function PaddingFor(n: nat): nat {
    if n % 3 == 0 then 0 else 3 - n % 3
  }

  function PaddedEncode(b: seq<byte>): (s: string) {
    Encode(b) + Equals(PaddingFor(|b|))
  }

  /** Removes every trailing padding sign. */
  function StripPadding(s: string): (t: string) {
    if s != "" && s[|s| - 1] == '=' then StripPadding(s[..|s| - 1]) else s
  }

  /** Decoding of padded text; leftover bits of the last letter are ignored. */
  function PaddedDecode(s: string): (r: Option<seq<byte>>) {
    var t := StripPadding(s);
    if |s| % 4 != 0 || |s| - |t| > 2 then None
    else match Read(t)
      case None => None
      case Some(p) => Some(Unpack(p))
  }

  function ClientEncode(b: seq<byte>): (s: string) {
    StripPadding(PaddedEncode(b))
  }

  /** What the client appends, computed from the text alone. */
  function Repad(s: string): (t: string) {
    if |s| % 4 == 0 then s else s + Equals(4 - |s| % 4)
  }

  function ClientDecode(s: string): (r: Option<seq<byte>>) {
    PaddedDecode(Repad(s))
  }

  lemma {:induction false} StripEquals(s: string, n: nat)
    requires s == "" || s[|s| - 1] != '='
    ensures StripPadding(s + Equals(n)) == s
  {
    if n == 0 {
      assert s + Equals(0) == s;
    } else {
      assert (s + Equals(n))[..|s| + n - 1] == s + Equals(n - 1);
      StripEquals(s, n - 1);
    }
  }

  lemma StripEncode(b: seq<byte>, n: nat)
    ensures StripPadding(Encode(b) + Equals(n)) == Encode(b)
  {
    ReadSpell(Pack(b));
    StripEquals(Encode(b), n);
  }

  /** Re-padding restores exactly the padding that stripping removed. */
  lemma RepadRestores(b: seq<byte>)
    ensures Repad(ClientEncode(b)) == PaddedEncode(b)
    ensures ClientEncode(b) == Encode(b)
    ensures |ClientEncode(b)| % 4 != 1
  {
    StripEncode(b, PaddingFor(|b|));
    PackLength(b);
    if |b| % 3 == 0 {
      assert Encode(b) + Equals(0) == Encode(b);
    } else {
      assert 4 - |Encode(b)| % 4 == PaddingFor(|b|);
    }
  }

  /** The client reads back the bytes that the server, or another client, wrote. */
  lemma ClientDecodes(b: seq<byte>)
    ensures ClientDecode(Encode(b)) == Some(b)
    ensures ClientDecode(ClientEncode(b)) == Some(b)
  {
    hide ClientDecode, ClientEncode, Read, Unpack, Pack, Spell;
    RepadRestores(b);
    ReadSpell(Pack(b));
    UnpackPack(b);
    DecodesLetters(Encode(b));
  }

  lemma {:induction false} PackUnpackPrefix(p: seq<sextet>)
    requires |p| % 4 != 1
    ensures |Pack(Unpack(p))| == |p|
    ensures forall i :: 0 <= i < |p| - 1 ==> Pack(Unpack(p))[i] == p[i]
  {
    if |p| >= 4 {
      PackUnpackPrefix(p[4..]);
      SplitMerge(p[0], p[1], p[2], p[3]);
      assert Unpack(p)[3..] == Unpack(p[4..]);
      assert Pack(Unpack(p)) == [p[0], p[1], p[2], p[3]] + Pack(Unpack(p[4..]));
    } else if |p| == 3 {
      SplitMerge(p[0], p[1], p[2], 0);
    } else if |p| == 2 {
      SplitMerge(p[0], p[1], 0, 0);
    }
  }

  lemma {:induction false} NoPaddingToStrip(s: string)
    requires Read(s).Some?
    ensures s == "" || s[|s| - 1] != '='
  {
    SpellRead(s);
    ReadSpell(Read(s).value);
  }

  lemma PaddedLength(n: nat, pad: nat)
    requires pad == if n % 4 == 0 then 0 else 4 - n % 4
    ensures (n + pad) % 4 == 0 && (pad > 2 <==> n % 4 == 1)
  {
  }

  lemma DecodesLetters(s: string)
    requires Read(s).Some?
    ensures ClientDecode(s) == if |s| % 4 == 1 then None else Some(Unpack(Read(s).value))
  {
    hide StripPadding, Read, Unpack, Equals;
    var pad := if |s| % 4 == 0 then 0 else 4 - |s| % 4;
    NoPaddingToStrip(s);
    PaddedLength(|s|, pad);
    StripEquals(s, pad);
    assert Equals(0) == "" && s + "" == s;
    assert Repad(s) == s + Equals(pad);
    assert |Repad(s)| == |s| + pad;
  }

  /** On letters alone the client accepts every text whose length is not 1 modulo 4, and reads
      bytes whose encoding differs from the text at most in the leftover bits of its last
      letter. */
  lemma LenientDecode(s: string)
    requires Read(s).Some?
    ensures ClientDecode(s).Some? <==> |s| % 4 != 1
    ensures ClientDecode(s).Some? ==>
              var t := Encode(ClientDecode(s).value);
              |t| == |s| && forall i :: 0 <= i < |s| - 1 ==> t[i] == s[i]
  {
    hide ClientDecode, Read, Unpack, Pack, Spell, Letter;
    DecodesLetters(s);
    if |s| % 4 != 1 {
      var p := Read(s).value;
      PackUnpackPrefix(p);
      SpellRead(s);
      SpellAt(p);
      SpellAt(Pack(Unpack(p)));
    }
  }

  /** The client's decoder as it is written, with its local string. */
  method B64uDecode(s: string) returns (r: Option<seq<byte>>)
    ensures r == ClientDecode(s)
    ensures Decode(s).Some? ==> r == Decode(s)
  {
    var t := s;
    var padding := 4 - |t| % 4;
    if padding != 4 {
      t := t + Equals(padding);
    }
    r := PaddedDecode(t);
    if Decode(s).Some? {
      DecodeIffEncode(s, Decode(s).value);
      ClientDecodes(Decode(s).value);
    }
  }
}
