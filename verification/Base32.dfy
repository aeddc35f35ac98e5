/** Unpadded base32 of RFC 4648, section 6, as two loops over a string of bits. */
module Base32 {
  import opened Wrappers
  import BigInt

  const BASE32: string := "ABCDEFGHIJKLMNOPQRSTUVWXYZ234567"

  type Quintet = q: int | 0 <= q < 32
  type Bits = seq<bool>

  // ----- specification: numbers as fixed-width bit strings -----

  /** `value.toString(2).padStart(width, '0')` for a value that fits. */
  function ToBits(value: nat, width: nat): (r: Bits)
    ensures |r| == width
  {
    if width == 0 then [] else ToBits(value / 2, width - 1) + [value % 2 == 1]
  }

  /** `parseInt(bits, 2)` */
  function FromBits(bits: Bits): (v: nat)
    ensures v < BigInt.Shl1(|bits|)
  {
    if bits == [] then 0
    else 2 * FromBits(bits[..|bits| - 1]) + if bits[|bits| - 1] then 1 else 0
  }

  function ByteBits(bytes: seq<Byte>): (bits: Bits)
    ensures |bits| == 8 * |bytes|
  {
    if bytes == [] then [] else ByteBits(bytes[..|bytes| - 1]) + ToBits(bytes[|bytes| - 1], 8)
  }

  function LetterBits(quintets: seq<Quintet>): (bits: Bits)
    ensures |bits| == 5 * |quintets|
  {
    if quintets == [] then [] else LetterBits(quintets[..|quintets| - 1]) + ToBits(quintets[|quintets| - 1], 5)
  }

  function Letters(quintets: seq<Quintet>): string {
    seq(|quintets|, i requires 0 <= i < |quintets| => BASE32[quintets[i]])
  }

  function Zeros(n: nat): (z: Bits)
    ensures |z| == n && forall i :: 0 <= i < n ==> !z[i]
  {
    seq(n, _ => false)
  }

  lemma ShiftValues()
    ensures BigInt.Shl1(5) == 32 && BigInt.Shl1(8) == 256
  {
    assert BigInt.Shl1(2) == 4 && BigInt.Shl1(4) == 16 && BigInt.Shl1(6) == 64;
  }

  lemma {:induction false} FromToBits(value: nat, width: nat)
    requires value < BigInt.Shl1(width)
    ensures FromBits(ToBits(value, width)) == value
  {
    if width > 0 {
      FromToBits(value / 2, width - 1);
      assert ToBits(value, width)[..width - 1] == ToBits(value / 2, width - 1);
    }
  }

  lemma {:induction false} ToFromBits(bits: Bits)
    ensures ToBits(FromBits(bits), |bits|) == bits
  {
    if bits != [] {
      ToFromBits(bits[..|bits| - 1]);
    }
  }

  // ----- letters and their case -----

  /** `toUpperCase` on ASCII. */
  function Upper(ch: char): char {
    if 'a' <= ch <= 'z' then 'A' + (ch - 'a') else ch
  }

  /** `s.toUpperCase().replace(/=/g, '')` */
  function Normalized(s: string): string {
    if s == [] then []
    else
      var rest := Normalized(s[1..]);
      if s[0] == '=' then rest else [Upper(s[0])] + rest
  }

  function Lowered(s: string): string {
    seq(|s|, i requires 0 <= i < |s| => if 'A' <= s[i] <= 'Z' then s[i] + ' ' else s[i])
  }

  /** The decoder takes small letters for capitals. */
  lemma {:induction false} CaseIsIgnored(s: string)
    ensures Normalized(Lowered(s)) == Normalized(s)
  {
    if s != [] {
      CaseIsIgnored(s[1..]);
      assert Lowered(s)[1..] == Lowered(s[1..]);
      UpperOfLower(s[0]);
    }
  }

  lemma UpperOfLower(ch: char)
    ensures 'A' <= ch <= 'Z' ==> Upper(ch + ' ') == ch == Upper(ch) && ch + ' ' != '='
  {
  }

  /** It leaves padding out, wherever it stands. */
  lemma {:induction false} PaddingIsDropped(s: string, t: string)
    ensures Normalized(s + "=" + t) == Normalized(s + t)
  {
    if s == [] {
      assert [] + "=" + t == ['='] + t && (['='] + t)[1..] == t && [] + t == t;
    } else {
      PaddingIsDropped(s[1..], t);
      assert (s + "=" + t)[1..] == s[1..] + "=" + t && (s + t)[1..] == s[1..] + t;
    }
  }

  // ----- the loops -----

  /** The text spells the bits of the bytes, filled up with fewer than five zero bits. */
  ghost predicate Encodes(text: string, bytes: seq<Byte>) {
    exists quintets: seq<Quintet>, pad: nat ::
      && pad < 5
      && text == Letters(quintets)
      && LetterBits(quintets) == ByteBits(bytes) + Zeros(pad)
  }

  /** The first loop: eight bits for every byte. */
  method ReadBytes(buf: seq<Byte>) returns (bits: Bits)
    ensures bits == ByteBits(buf)
  {
    bits := [];
    for k := 0 to |buf|
      invariant bits == ByteBits(buf[..k])
    {
      assert buf[..k + 1][..k] == buf[..k];
      bits := bits + ToBits(buf[k], 8);
    }
    assert buf[..|buf|] == buf;
  }

  /** The quintets spell the bits up to position i, or all of them and some zeros. */
  ghost predicate Spells(quintets: seq<Quintet>, bits: Bits, i: int) {
    && i == 5 * |quintets| < |bits| + 5
    && LetterBits(quintets) == if i <= |bits| then bits[..i] else bits + Zeros(i - |bits|)
  }

  /** The second loop: a letter for every five bits, the last group filled up with zeros. */
  method WriteLetters(bits: Bits) returns (out: string)
    ensures exists quintets :: out == Letters(quintets) && |bits| <= 5 * |quintets| && Spells(quintets, bits, 5 * |quintets|)
  {
    out := "";
    ghost var quintets: seq<Quintet> := [];
    var i := 0;
    while i < |bits|
      invariant Spells(quintets, bits, i) && out == Letters(quintets)
    {
      var end := if i + 5 < |bits| then i + 5 else |bits|;
      var chunk := bits[i..end] + Zeros(5 - (end - i));
      ShiftValues();
      var idx := FromBits(chunk);
      out := out + [BASE32[idx]];
      SpellsNext(quintets, bits, i, end, chunk, idx);
      quintets := quintets + [idx];
      i := i + 5;
    }
  }

  lemma SpellsNext(quintets: seq<Quintet>, bits: Bits, i: nat, end: nat, chunk: Bits, idx: Quintet)
    requires Spells(quintets, bits, i) && i < |bits|
    requires end == if i + 5 < |bits| then i + 5 else |bits|
    requires chunk == bits[i..end] + Zeros(5 - (end - i)) && idx == FromBits(chunk)
    ensures Spells(quintets + [idx], bits, i + 5)
  {
    hide FromBits, ToBits;
    ToFromBits(chunk);
    assert (quintets + [idx])[..|quintets|] == quintets;
    var zeros := Zeros(5 - (end - i));
    assert bits[..i] + chunk == bits[..end] + zeros by {
      assert bits[..i] + bits[i..end] == bits[..end];
    }
    if end < |bits| {
      assert bits[..end] + zeros == bits[..end];
    } else {
      assert bits[..end] == bits;
    }
  }

  method Encode(buf: seq<Byte>) returns (out: string)
    ensures Encodes(out, buf)
    ensures |out| == (8 * |buf| + 4) / 5
  {
    hide ByteBits, LetterBits, Letters, Zeros;
    var bits := ReadBytes(buf);
    out := WriteLetters(bits);
    ghost var quintets: seq<Quintet> :|
      out == Letters(quintets) && |bits| <= 5 * |quintets| && Spells(quintets, bits, 5 * |quintets|);
    Filled(quintets, bits);
  }

  lemma Filled(quintets: seq<Quintet>, bits: Bits)
    requires |bits| <= 5 * |quintets| && Spells(quintets, bits, 5 * |quintets|)
    ensures var pad := 5 * |quintets| - |bits|;
            pad < 5 && LetterBits(quintets) == bits + Zeros(pad) && |Letters(quintets)| == (|bits| + 4) / 5
  {
    hide LetterBits;
    if 5 * |quintets| == |bits| {
      assert bits[..|bits|] == bits == bits + Zeros(0);
    }
  }

  ghost predicate HasForeignLetter(text: string) {
    exists k :: 0 <= k < |text| && text[k] !in BASE32
  }

  /** The first loop: the bits of all letters. None stands for the error thrown on a foreign letter. */
  method ReadLetters(text: string) returns (r: Option<Bits>)
    ensures r.None? <==> HasForeignLetter(text)
    ensures r.Some? ==> exists quintets: seq<Quintet> :: Letters(quintets) == text && LetterBits(quintets) == r.value
  {
    var bits: Bits := [];
    ghost var quintets: seq<Quintet> := [];
    for k := 0 to |text|
      invariant Letters(quintets) == text[..k]
      invariant bits == LetterBits(quintets)
    {
      var idx := IndexOf(BASE32, text[k]);
      if idx.None? {
        return None;
      }
      bits := bits + ToBits(idx.value, 5);
      ghost var before := quintets;
      quintets := quintets + [idx.value];
      assert quintets[..|quintets| - 1] == before;
      assert text[..k + 1] == text[..k] + [text[k]];
    }
    assert text[..|text|] == text;
    assert forall k :: 0 <= k < |text| ==> text[k] == Letters(quintets)[k];
    return Some(bits);
  }

  /** The second loop: whole groups of eight bits become bytes, what is left over is dropped. */
  method PackBytes(bits: Bits) returns (bytes: seq<Byte>)
    ensures exists rest: Bits :: |rest| < 8 && bits == ByteBits(bytes) + rest
  {
    bytes := [];
    var i := 0;
    while i + 8 <= |bits|
      invariant 0 <= i == 8 * |bytes| <= |bits|
      invariant bits[..i] == ByteBits(bytes)
    {
      ShiftValues();
      var byte := FromBits(bits[i..i + 8]);
      PackedNext(bits, i, bytes, byte);
      bytes := bytes + [byte];
      i := i + 8;
    }
    assert bits == ByteBits(bytes) + bits[i..];
  }

  lemma PackedNext(bits: Bits, i: nat, bytes: seq<Byte>, byte: Byte)
    requires i + 8 <= |bits| && bits[..i] == ByteBits(bytes) && byte == FromBits(bits[i..i + 8])
    ensures bits[..i + 8] == ByteBits(bytes + [byte])
  {
    hide FromBits, ToBits;
    ToFromBits(bits[i..i + 8]);
    assert (bytes + [byte])[..|bytes|] == bytes;
    assert bits[..i + 8] == bits[..i] + bits[i..i + 8];
  }

  /** The letters spell the bits of the bytes and fewer than eight bits more. */
  ghost predicate Decodes(letters: string, bytes: seq<Byte>) {
    exists quintets: seq<Quintet>, rest: Bits ::
      Letters(quintets) == letters && |rest| < 8 && LetterBits(quintets) == ByteBits(bytes) + rest
  }

  method Decode(s: string) returns (r: Option<seq<Byte>>)
    ensures r.None? <==> HasForeignLetter(Normalized(s))
    ensures r.Some? ==> Decodes(Normalized(s), r.value)
  {
    var bits := ReadLetters(Normalized(s));
    if bits.None? {
      return None;
    }
    var bytes := PackBytes(bits.value);
    return Some(bytes);
  }

  // ----- the round trip -----

  lemma {:induction false} ByteBitsInjective(a: seq<Byte>, b: seq<Byte>)
    requires ByteBits(a) == ByteBits(b)
    ensures a == b
  {
    hide ToBits, FromBits;
    assert 8 * |a| == 8 * |b|;
    if a != [] {
      var n := |a| - 1;
      LastByte(a);
      LastByte(b);
      ByteBitsInjective(a[..n], b[..n]);
      SameByte(a[n], b[n]);
      assert a == a[..n] + [a[n]] && b == b[..n] + [b[n]];
    }
  }

  lemma LastByte(bytes: seq<Byte>)
    requires bytes != []
    ensures var n := |bytes| - 1;
            ByteBits(bytes[..n]) == ByteBits(bytes)[..8 * n] && ToBits(bytes[n], 8) == ByteBits(bytes)[8 * n..]
  {
    hide ToBits;
  }

  lemma SameByte(a: Byte, b: Byte)
    requires ToBits(a, 8) == ToBits(b, 8)
    ensures a == b
  {
    hide ToBits;
    ShiftValues();
    FromToBits(a, 8);
    FromToBits(b, 8);
  }

  lemma LettersInjective(a: seq<Quintet>, b: seq<Quintet>)
    requires Letters(a) == Letters(b)
    ensures a == b
  {
    assert |a| == |Letters(a)| == |b|;
    forall k | 0 <= k < |a|
      ensures a[k] == b[k]
    {
      assert Letters(a)[k] == Letters(b)[k];
      LetterDetermines(a[k], b[k]);
    }
  }

  lemma LetterDetermines(i: Quintet, j: Quintet)
    requires BASE32[i] == BASE32[j]
    ensures i == j
  {
    LetterCode(i);
    LetterCode(j);
  }

  /** 0 to 25 are the letters A to Z, 26 to 31 the digits 2 to 7. */
  lemma LetterCode(q: Quintet)
    ensures BASE32[q] as int == if q < 26 then 'A' as int + q else '2' as int + (q - 26)
  {
  }

  lemma {:induction false} NormalizedIsIdentity(quintets: seq<Quintet>)
    ensures Normalized(Letters(quintets)) == Letters(quintets)
  {
    if quintets != [] {
      NormalizedIsIdentity(quintets[1..]);
      assert Letters(quintets)[1..] == Letters(quintets[1..]);
      LetterIsUpper(quintets[0]);
    }
  }

  lemma LetterIsUpper(q: Quintet)
    ensures BASE32[q] != '=' && Upper(BASE32[q]) == BASE32[q]
  {
    LetterCode(q);
  }

  /** Whatever Decode makes of an encoder's text is the encoder's own bytes: the fewer than five
      filling bits never make an eighth bit. */
  lemma DecodeOfEncode(bytes: seq<Byte>, text: string, decoded: seq<Byte>)
    requires Encodes(text, bytes) && Decodes(Normalized(text), decoded)
    ensures decoded == bytes
  {
    var qs: seq<Quintet>, pad: nat :|
      pad < 5 && text == Letters(qs) && LetterBits(qs) == ByteBits(bytes) + Zeros(pad);
    NormalizedIsIdentity(qs);
    var quintets: seq<Quintet>, rest: Bits :|
      Letters(quintets) == Normalized(text) && |rest| < 8 && LetterBits(quintets) == ByteBits(decoded) + rest;
    LettersInjective(qs, quintets);
    var bits := LetterBits(qs);
    assert 8 * |bytes| + pad == 8 * |decoded| + |rest|;
    assert ByteBits(bytes) == bits[..8 * |bytes|] == ByteBits(decoded);
    ByteBitsInjective(bytes, decoded);
  }

  /** Both loops in a row. */
  method RoundTrip(bytes: seq<Byte>) returns (decoded: Option<seq<Byte>>)
    ensures decoded == Some(bytes)
  {
    var text := Encode(bytes);
    decoded := Decode(text);
    ghost var qs: seq<Quintet>, pad: nat :|
      pad < 5 && text == Letters(qs) && LetterBits(qs) == ByteBits(bytes) + Zeros(pad);
    NormalizedIsIdentity(qs);
    assert forall k :: 0 <= k < |text| ==> text[k] in BASE32;
    DecodeOfEncode(bytes, text, decoded.value);
  }
}
