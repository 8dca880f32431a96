/** RSA private keys in DER (ITU-T X.690, RFC 8017, RFC 5208), and the padded message that is signed with one. */
module DerKeys {
  import opened Basics

  type Byte = x: nat | x < 256
  type Bytes = seq<Byte>

  /******* Numbers as octets *******/

  /** `int.from_bytes(s, "big")`. */
  function FromBytes(s: Bytes): nat {
    if s == [] then 0 else FromBytes(s[..|s| - 1]) * 256 + s[|s| - 1]
  }

  /** The octets of n without leading zeros; none for zero. */
  function ToBytes(n: nat): (s: Bytes)
    ensures s == [] <==> n == 0
  {
    if n == 0 then [] else ToBytes(n / 256) + [n % 256]
  }

  function Pow256(k: nat): (p: nat)
    ensures p > 0
  {
    if k == 0 then 1 else 256 * Pow256(k - 1)
  }

  /** `v.to_bytes(k, "big")`, which fails when v does not fit. */
  function ToFixed(v: nat, k: nat): Option<Bytes> {
    if k == 0 then (if v == 0 then Some([]) else None)
    else var front := ToFixed(v / 256, k - 1); if front.None? then None else Some(front.value + [v % 256])
  }

  /******* The parser *******/

  /** `buf[from:to]`. */
  function Slice(buf: Bytes, from: nat, to: nat): Bytes {
    var b := if to < |buf| then to else |buf|;
    if from < b then buf[from..b] else []
  }

  datatype Length = Length(value: nat, next: nat)
  datatype Tlv = Tlv(tag: Byte, content: Bytes, next: nat)

  /** `_read_der_length`; None is an index error. */
  function ReadLength(buf: Bytes, offset: nat): (r: Option<Length>)
    ensures r.Some? ==> r.value.next > offset
  {
    if offset >= |buf| then None
    else if buf[offset] < 0x80 then Some(Length(buf[offset], offset + 1))
    else
      var count := buf[offset] - 0x80;
      Some(Length(FromBytes(Slice(buf, offset + 1, offset + 1 + count)), offset + 1 + count))
  }

  /** `_read_tlv`. */
  function ReadTlv(buf: Bytes, offset: nat): (r: Option<Tlv>)
    ensures r.Some? ==> r.value.next > offset + 1
  {
    if offset >= |buf| then None
    else
      var l := ReadLength(buf, offset + 1);
      if l.None? then None
      else Some(Tlv(buf[offset], Slice(buf, l.value.next, l.value.next + l.value.value), l.value.next + l.value.value))
  }

  /** The content to read the integers from: what a PKCS#8 wrapper holds, else the content itself. */
  function Unwrapped(content: Bytes): Bytes {
    var version := ReadTlv(content, 0);
    if version.None? then content
    else
      var algorithm := ReadTlv(content, version.value.next);
      if algorithm.None? then content
      else
        var octets := ReadTlv(content, algorithm.value.next);
        if octets.None? || version.value.content != [0] || octets.value.tag != 0x04 then content
        else
          var inner := ReadTlv(octets.value.content, 0);
          if inner.None? then content else inner.value.content
  }

  function ReadInts(content: Bytes, offset: nat): Option<seq<nat>>
    decreases |content| - offset
  {
    if offset >= |content| then Some([])
    else
      var t := ReadTlv(content, offset);
      if t.None? || t.value.tag != 0x02 then None
      else
        var rest := ReadInts(content, t.value.next);
        if rest.None? then None else Some([FromBytes(t.value.content)] + rest.value)
  }

  datatype Key = Key(n: nat, e: nat, d: nat)

  function ParseDer(der: Bytes): Option<Key> {
    var outer := ReadTlv(der, 0);
    if outer.None? then None
    else
      var ints := ReadInts(Unwrapped(outer.value.content), 0);
      if ints.Some? && |ints.value| >= 4 && ints.value[0] == 0
        then Some(Key(ints.value[1], ints.value[2], ints.value[3])) else None
  }

  /** `_parse_rsa_private_key` on the decoded DER; None is an error. */
  method ParseRsaPrivateKey(der: Bytes) returns (key: Option<Key>)
    ensures key == ParseDer(der)
  {
    var outer := ReadTlv(der, 0);
    if outer.None? { return None; }
    var ints := ReadAll(Unwrapped(outer.value.content));
    if ints.Some? && |ints.value| >= 4 && ints.value[0] == 0 {
      return Some(Key(ints.value[1], ints.value[2], ints.value[3]));
    }
    key := None;
  }

  /** The loop over the integers. */
  method ReadAll(content: Bytes) returns (r: Option<seq<nat>>)
    ensures r == ReadInts(content, 0)
  {
    var ints: seq<nat> := [];
    var offset := 0;
    PrependNothing(ReadInts(content, 0));
    while offset < |content|
      invariant ReadInts(content, 0) == Prepend(ints, ReadInts(content, offset))
      decreases |content| - offset
    {
      var t := ReadTlv(content, offset);
      if t.None? || t.value.tag != 0x02 { return None; }
      var octets := if t.value.content == [] then [0] else t.value.content;
      ReadIntsStep(content, offset, t.value, octets, ints);
      ints := ints + [FromBytes(octets)];
      offset := t.value.next;
    }
    ReadIntsEnd(content, offset, ints);
    r := Some(ints);
  }

  function Prepend(front: seq<nat>, rest: Option<seq<nat>>): Option<seq<nat>> {
    if rest.None? then None else Some(front + rest.value)
  }

  lemma PrependNothing(rest: Option<seq<nat>>)
    ensures Prepend([], rest) == rest
  {
    if rest.Some? { assert [] + rest.value == rest.value; }
  }

  lemma ReadIntsStep(content: Bytes, offset: nat, t: Tlv, octets: Bytes, ints: seq<nat>)
    requires offset < |content| && ReadTlv(content, offset) == Some(t) && t.tag == 0x02
    requires octets == if t.content == [] then [0] else t.content
    ensures Prepend(ints, ReadInts(content, offset)) == Prepend(ints + [FromBytes(octets)], ReadInts(content, t.next))
  {
    assert FromBytes([0]) == FromBytes([]) by { assert [0][..0] == []; }
    var x, rest := FromBytes(octets), ReadInts(content, t.next);
    if rest.Some? { assert ints + ([x] + rest.value) == ints + [x] + rest.value; }
  }

  lemma ReadIntsEnd(content: Bytes, offset: nat, ints: seq<nat>)
    requires offset >= |content|
    ensures Prepend(ints, ReadInts(content, offset)) == Some(ints)
  {
    assert ints + [] == ints;
  }

  /******* The encoder *******/

  /** X.690, section 8.1.3: the short form below 128, else the long form. */
  function EncodeLength(n: nat): Bytes
    requires |ToBytes(n)| <= 126
  {
    if n < 0x80 then [n] else [0x80 + |ToBytes(n)|] + ToBytes(n)
  }

  /** The length of the content has a length encoding. */
  predicate Fits(content: Bytes) { |ToBytes(|content|)| <= 126 }

  function Encode(tag: Byte, content: Bytes): Bytes
    requires Fits(content)
  {
    [tag] + EncodeLength(|content|) + content
  }

  /** X.690, section 8.3, for numbers that are not negative. */
  function IntContent(n: nat): Bytes {
    if n == 0 then [0] else if ToBytes(n)[0] >= 0x80 then [0] + ToBytes(n) else ToBytes(n)
  }

  predicate Encodable(n: nat) { Fits(IntContent(n)) }

  predicate AllEncodable(ints: seq<nat>) {
    ints == [] || (Encodable(ints[0]) && AllEncodable(ints[1..]))
  }

  function EncodeInts(ints: seq<nat>): Bytes
    requires AllEncodable(ints)
  {
    if ints == [] then [] else Encode(0x02, IntContent(ints[0])) + EncodeInts(ints[1..])
  }

  /** RFC 8017, appendix A.1.2: version, modulus, exponents, and the numbers for the Chinese remainder theorem. */
  function Numbers(key: Key, crt: seq<nat>): seq<nat> { [0, key.n, key.e, key.d] + crt }

  predicate GoodNumbers(key: Key, crt: seq<nat>) {
    AllEncodable(Numbers(key, crt)) && Fits(EncodeInts(Numbers(key, crt)))
  }

  function Pkcs1(key: Key, crt: seq<nat>): Bytes
    requires GoodNumbers(key, crt)
  {
    Encode(0x30, EncodeInts(Numbers(key, crt)))
  }

  /** RFC 5208, section 5: version 0, the algorithm, the key as an octet string, and attributes. */
  function Pkcs8Content(algorithm: Bytes, inner: Bytes, attributes: Bytes): Bytes
    requires Fits(algorithm) && Fits(inner)
  {
    assert ToBytes(1) == ToBytes(0) + [1];
    Encode(0x02, [0]) + (Encode(0x30, algorithm) + (Encode(0x04, inner) + attributes))
  }

  /******* Octets: facts *******/

  lemma {:induction false} FromToBytes(n: nat)
    ensures FromBytes(ToBytes(n)) == n
  {
    if n > 0 {
      FromToBytes(n / 256);
      assert ToBytes(n)[..|ToBytes(n)| - 1] == ToBytes(n / 256);
    }
  }

  lemma {:induction false} LeadingZero(s: Bytes)
    ensures FromBytes([0] + s) == FromBytes(s)
  {
    if s == [] {
      assert [0][..0] == [] && [0] + [] == [0];
    } else {
      LeadingZero(s[..|s| - 1]);
      assert ([0] + s)[..|s|] == [0] + s[..|s| - 1];
    }
  }

  lemma IntContentIs(n: nat)
    ensures FromBytes(IntContent(n)) == n && IntContent(n) != []
  {
    FromToBytes(n);
    LeadingZero(ToBytes(n));
    if n == 0 { assert [0] + [] == [0]; }
  }

  /******* Reading what was encoded *******/

  lemma SliceInside(buf: Bytes, offset: nat, content: Bytes, rest: Bytes)
    requires offset <= |buf| && buf[offset..] == content + rest
    ensures Slice(buf, offset, offset + |content|) == content
    ensures offset + |content| <= |buf| && buf[offset + |content|..] == rest
  {
  }

  lemma ReadsLength(buf: Bytes, offset: nat, n: nat, rest: Bytes)
    requires |ToBytes(n)| <= 126 && offset <= |buf| && buf[offset..] == EncodeLength(n) + rest
    ensures ReadLength(buf, offset) == Some(Length(n, offset + |EncodeLength(n)|))
    ensures offset + |EncodeLength(n)| <= |buf| && buf[offset + |EncodeLength(n)|..] == rest
  {
    SliceInside(buf, offset, EncodeLength(n), rest);
    assert buf[offset] == buf[offset..][0];
    if n >= 0x80 { LongLength(buf, offset, n, ToBytes(n), rest); }
  }

  lemma LongLength(buf: Bytes, offset: nat, n: nat, octets: Bytes, rest: Bytes)
    requires octets == ToBytes(n) && |octets| <= 126 && offset < |buf|
    requires buf[offset..] == [0x80 + |octets|] + octets + rest
    ensures FromBytes(Slice(buf, offset + 1, offset + 1 + |octets|)) == n
  {
    assert buf[offset + 1..] == buf[offset..][1..] == octets + rest;
    SliceInside(buf, offset + 1, octets, rest);
    FromToBytes(n);
  }

  /** Where an encoded value stands, it is read, and what follows comes next. */
  lemma ReadsTlv(buf: Bytes, offset: nat, tag: Byte, content: Bytes, rest: Bytes)
    requires Fits(content) && offset <= |buf| && buf[offset..] == Encode(tag, content) + rest
    ensures ReadTlv(buf, offset) == Some(Tlv(tag, content, offset + |Encode(tag, content)|))
    ensures offset + |Encode(tag, content)| <= |buf| && buf[offset + |Encode(tag, content)|..] == rest
  {
    SliceInside(buf, offset, Encode(tag, content), rest);
    ReadsEncoded(buf, offset, tag, content, rest);
  }

  lemma ReadsEncoded(buf: Bytes, offset: nat, tag: Byte, content: Bytes, rest: Bytes)
    requires Fits(content) && offset <= |buf| && buf[offset..] == Encode(tag, content) + rest
    ensures ReadTlv(buf, offset) == Some(Tlv(tag, content, offset + |Encode(tag, content)|))
  {
    ReadsParts(buf, offset, tag, EncodeLength(|content|), content, rest);
  }

  lemma ReadsParts(buf: Bytes, offset: nat, tag: Byte, l: Bytes, content: Bytes, rest: Bytes)
    requires Fits(content) && l == EncodeLength(|content|)
    requires offset <= |buf| && buf[offset..] == [tag] + l + content + rest
    ensures ReadTlv(buf, offset) == Some(Tlv(tag, content, offset + 1 + |l| + |content|))
  {
    AfterTag(buf, offset, tag, l, content, rest);
    ReadsLength(buf, offset + 1, |content|, content + rest);
    SliceInside(buf, offset + 1 + |l|, content, rest);
    ReadTlvIs(buf, offset, tag, Length(|content|, offset + 1 + |l|), content);
  }

  lemma ReadTlvIs(buf: Bytes, offset: nat, tag: Byte, l: Length, content: Bytes)
    requires offset < |buf| && buf[offset] == tag && ReadLength(buf, offset + 1) == Some(l)
    requires Slice(buf, l.next, l.next + l.value) == content
    ensures ReadTlv(buf, offset) == Some(Tlv(tag, content, l.next + l.value))
  {
  }

  lemma AfterTag(buf: Bytes, offset: nat, tag: Byte, l: Bytes, content: Bytes, rest: Bytes)
    requires offset <= |buf| && buf[offset..] == [tag] + l + content + rest
    ensures offset < |buf| && buf[offset] == tag && buf[offset + 1..] == l + (content + rest)
  {
  }

  lemma ReadsOneInt(buf: Bytes, offset: nat, ints: seq<nat>) returns (t: Tlv)
    requires ints != [] && AllEncodable(ints)
    requires offset <= |buf| && buf[offset..] == EncodeInts(ints)
    ensures ReadTlv(buf, offset) == Some(t) && t.tag == 0x02 && t.content != [] && FromBytes(t.content) == ints[0]
    ensures t.next <= |buf| && buf[t.next..] == EncodeInts(ints[1..])
  {
    ReadsTlv(buf, offset, 0x02, IntContent(ints[0]), EncodeInts(ints[1..]));
    IntContentIs(ints[0]);
    t := ReadTlv(buf, offset).value;
  }

  lemma {:induction false} ReadsInts(buf: Bytes, offset: nat, ints: seq<nat>)
    requires AllEncodable(ints)
    requires offset <= |buf| && buf[offset..] == EncodeInts(ints)
    ensures ReadInts(buf, offset) == Some(ints)
    decreases |ints|
  {
    if ints != [] {
      var t := ReadsOneInt(buf, offset, ints);
      ReadsInts(buf, t.next, ints[1..]);
      ReadIntsMore(buf, offset, t, ints[1..]);
      assert ints == [ints[0]] + ints[1..];
    } else {
      assert EncodeInts(ints) == [];
    }
  }

  lemma ReadIntsMore(buf: Bytes, offset: nat, t: Tlv, rest: seq<nat>)
    requires ReadTlv(buf, offset) == Some(t) && t.tag == 0x02 && ReadInts(buf, t.next) == Some(rest)
    ensures ReadInts(buf, offset) == Some([FromBytes(t.content)] + rest)
  {
  }

  lemma UnwrappedByThird(content: Bytes, a: Tlv, b: Tlv, c: Tlv)
    requires ReadTlv(content, 0) == Some(a) && ReadTlv(content, a.next) == Some(b)
    requires ReadTlv(content, b.next) == Some(c)
    ensures c.tag != 0x04 ==> Unwrapped(content) == content
    ensures c.tag == 0x04 && a.content == [0] ==>
      var inner := ReadTlv(c.content, 0); Unwrapped(content) == if inner.None? then content else inner.value.content
  {
  }

  /** The integers of a PKCS#1 key are never taken for a PKCS#8 wrapper: the third element is a number. */
  lemma IntsNotUnwrapped(ints: seq<nat>)
    requires |ints| >= 3 && AllEncodable(ints)
    ensures Unwrapped(EncodeInts(ints)) == EncodeInts(ints)
  {
    var content := EncodeInts(ints);
    assert content[0..] == content;
    var a := ReadsOneInt(content, 0, ints);
    var b := ReadsOneInt(content, a.next, ints[1..]);
    var c := ReadsOneInt(content, b.next, ints[1..][1..]);
    UnwrappedByThird(content, a, b, c);
  }

  lemma ParsesWhole(content: Bytes, inner: Bytes, ints: seq<nat>)
    requires |ints| >= 4 && ints[0] == 0 && AllEncodable(ints)
    requires Fits(content) && Unwrapped(content) == inner && inner == EncodeInts(ints)
    ensures ParseDer(Encode(0x30, content)) == Some(Key(ints[1], ints[2], ints[3]))
  {
    var der := Encode(0x30, content);
    assert der[0..] == der + [];
    ReadsTlv(der, 0, 0x30, content, []);
    assert inner[0..] == inner;
    ReadsInts(inner, 0, ints);
  }

  /** A PKCS#1 key is read back. */
  lemma Pkcs1RoundTrip(key: Key, crt: seq<nat>)
    requires GoodNumbers(key, crt)
    ensures ParseDer(Pkcs1(key, crt)) == Some(key)
  {
    IntsNotUnwrapped(Numbers(key, crt));
    ParsesWhole(EncodeInts(Numbers(key, crt)), EncodeInts(Numbers(key, crt)), Numbers(key, crt));
  }

  lemma Pkcs8Unwraps(whole: Bytes, algorithm: Bytes, inner: Bytes, content: Bytes, attributes: Bytes)
    requires Fits(algorithm) && Fits(content) && inner == Encode(0x30, content) && Fits(inner)
    requires whole == Pkcs8Content(algorithm, inner, attributes)
    ensures Unwrapped(whole) == content
  {
    var a, b, c := ReadsWrapper(whole, algorithm, inner, attributes);
    UnwrappedByThird(whole, a, b, c);
    WholeTlv(inner, 0x30, content);
  }

  lemma WholeTlv(der: Bytes, tag: Byte, content: Bytes)
    requires Fits(content) && der == Encode(tag, content)
    ensures ReadTlv(der, 0).Some? && ReadTlv(der, 0).value.content == content
  {
    assert der[0..] == der + [];
    ReadsTlv(der, 0, tag, content, []);
  }

  /** The version, the algorithm and the octet string of a wrapper. */
  lemma ReadsWrapper(whole: Bytes, algorithm: Bytes, inner: Bytes, attributes: Bytes) returns (a: Tlv, b: Tlv, c: Tlv)
    requires Fits(algorithm) && Fits(inner) && whole == Pkcs8Content(algorithm, inner, attributes)
    ensures ReadTlv(whole, 0) == Some(a) && ReadTlv(whole, a.next) == Some(b) && ReadTlv(whole, b.next) == Some(c)
    ensures a.content == [0] && c.tag == 0x04 && c.content == inner
  {
    var v, g, o := Encode(0x02, [0]), Encode(0x30, algorithm), Encode(0x04, inner);
    assert whole[0..] == v + (g + (o + attributes));
    ReadsTlv(whole, 0, 0x02, [0], g + (o + attributes));
    a := ReadTlv(whole, 0).value;
    b, c := ReadsKeyPart(whole, a.next, algorithm, inner, attributes);
  }

  lemma ReadsKeyPart(whole: Bytes, from: nat, algorithm: Bytes, inner: Bytes, rest: Bytes) returns (b: Tlv, c: Tlv)
    requires Fits(algorithm) && Fits(inner) && from <= |whole|
    requires whole[from..] == Encode(0x30, algorithm) + (Encode(0x04, inner) + rest)
    ensures ReadTlv(whole, from) == Some(b) && ReadTlv(whole, b.next) == Some(c) && c.tag == 0x04 && c.content == inner
  {
    ReadsTlv(whole, from, 0x30, algorithm, Encode(0x04, inner) + rest);
    b := ReadTlv(whole, from).value;
    ReadsTlv(whole, b.next, 0x04, inner, rest);
    c := ReadTlv(whole, b.next).value;
  }

  /** A PKCS#8 key is read back, whatever its algorithm and its attributes. */
  lemma Pkcs8RoundTrip(key: Key, crt: seq<nat>, algorithm: Bytes, attributes: Bytes)
    requires GoodNumbers(key, crt) && Fits(algorithm) && Fits(Pkcs1(key, crt))
    requires Fits(Pkcs8Content(algorithm, Pkcs1(key, crt), attributes))
    ensures ParseDer(Encode(0x30, Pkcs8Content(algorithm, Pkcs1(key, crt), attributes))) == Some(key)
  {
    var whole := Pkcs8Content(algorithm, Pkcs1(key, crt), attributes);
    Pkcs8Unwraps(whole, algorithm, Pkcs1(key, crt), EncodeInts(Numbers(key, crt)), attributes);
    ParsesWhole(whole, EncodeInts(Numbers(key, crt)), Numbers(key, crt));
  }

  /******* The padded message *******/

  /** The DigestInfo of SHA-256 in front of the digest: `digest_info_prefix`. */
  const PREFIX: Bytes := [
    0x30, 0x31, 0x30, 0x0d, 0x06, 0x09, 0x60, 0x86, 0x48, 0x01, 0x65, 0x03, 0x04, 0x02, 0x01, 0x05, 0x00, 0x04, 0x20]

  function BitLength(n: nat): nat {
    if n == 0 then 0 else 1 + BitLength(n / 2)
  }

  /** `(n.bit_length() + 7) // 8`. */
  function KeyLength(n: nat): nat { (BitLength(n) + 7) / 8 }

  /** The length of a key is its number of octets. */
  lemma {:induction false} KeyLengthIs(n: nat)
    ensures KeyLength(n) == |ToBytes(n)|
  {
    if n >= 256 {
      EightBits(n);
      KeyLengthIs(n / 256);
    } else if n > 0 {
      assert ToBytes(n) == ToBytes(0) + [n];
      OneOctet(n);
    }
  }

  lemma EightBits(n: nat)
    requires n >= 256
    ensures BitLength(n) == 8 + BitLength(n / 256)
  {
    FourBits(n);
    FourBits(n / 16);
    assert n / 16 / 16 == n / 256;
  }

  lemma FourBits(n: nat)
    requires n >= 16
    ensures BitLength(n) == 4 + BitLength(n / 16)
  {
    assert n / 2 / 2 == n / 4 && n / 4 / 2 == n / 8 && n / 8 / 2 == n / 16;
    assert BitLength(n / 2) == 1 + BitLength(n / 4);
    assert BitLength(n / 4) == 1 + BitLength(n / 8);
    assert BitLength(n / 8) == 1 + BitLength(n / 16);
  }

  lemma OneOctet(n: nat)
    requires 0 < n < 256
    ensures 1 <= BitLength(n) <= 8
  {
    if n >= 16 { FourBits(n); FewBits(n / 16); } else { FewBits(n); }
  }

  lemma FewBits(n: nat)
    requires n < 16
    ensures BitLength(n) <= 4 && (n > 0 ==> BitLength(n) >= 1)
  {
    BitBelow(n / 2 / 2 / 2, 0);
    BitBelow(n / 2 / 2, 1);
    BitBelow(n / 2, 2);
    BitBelow(n, 3);
  }

  lemma BitBelow(n: nat, k: nat)
    requires BitLength(n / 2) <= k || (k == 0 && n < 2)
    ensures BitLength(n) <= k + 1
  {
    assert n < 2 ==> n / 2 == 0 && BitLength(0) == 0;
  }

  function Ones(k: int): (s: Bytes)
    ensures |s| == (if k > 0 then k else 0) && forall i | 0 <= i < |s| :: s[i] == 0xff
  {
    seq(if k > 0 then k else 0, _ => 0xff)
  }

  /** The padded message of `mint_app_jwt`. */
  function Padded(keyLength: nat, digest: Bytes): Bytes {
    [0, 1] + Ones(keyLength - |PREFIX| - |digest| - 3) + [0] + PREFIX + digest
  }

  /** RFC 8017, section 9.2: 0x00 0x01 PS 0x00 T of the length of the key, with at least eight octets in PS. */
  ghost predicate Emsa(em: Bytes, keyLength: nat, digest: Bytes) {
    |em| == keyLength
    && (exists ps: Bytes ::
          |ps| >= 8 && (forall i | 0 <= i < |ps| :: ps[i] == 0xff) && em == [0, 1] + ps + [0] + (PREFIX + digest))
  }

  /** The modular power of the signature. */
  function PowMod(b: nat, d: nat, n: nat): (r: nat)
    requires n > 0
    ensures r < n
  {
    if d == 0 then 1 % n else (b * PowMod(b, d - 1, n)) % n
  }

  lemma PaddedLength(keyLength: nat, digest: Bytes)
    requires |digest| == 32
    ensures |Padded(keyLength, digest)| == if keyLength > 54 then keyLength else 54
    ensures Padded(keyLength, digest)[0] == 0
  {
  }

  /** The padding is what the standard asks for exactly when the key has at least 62 octets; from 54 on it
      still has the length of the key. */
  lemma PaddingIff(keyLength: nat, digest: Bytes)
    requires |digest| == 32
    ensures Emsa(Padded(keyLength, digest), keyLength, digest) <==> keyLength >= 62
    ensures |Padded(keyLength, digest)| == keyLength <==> keyLength >= 54
  {
    PaddedLength(keyLength, digest);
    var em, ps := Padded(keyLength, digest), Ones(keyLength - 54);
    assert em == [0, 1] + ps + [0] + (PREFIX + digest);
    if Emsa(em, keyLength, digest) {
      var q: Bytes :| |q| >= 8 && (forall i | 0 <= i < |q| :: q[i] == 0xff)
                         && em == [0, 1] + q + [0] + (PREFIX + digest);
      assert |em| == |q| + 54;
    }
  }

  lemma {:induction false} FromBytesBelow(s: Bytes)
    ensures FromBytes(s) < Pow256(|s|)
  {
    if s != [] { FromBytesBelow(s[..|s| - 1]); }
  }

  lemma {:induction false} ToBytesAtLeast(n: nat)
    requires n > 0
    ensures Pow256(|ToBytes(n)| - 1) <= n < Pow256(|ToBytes(n)|)
  {
    if n >= 256 {
      ToBytesAtLeast(n / 256);
    } else {
      assert ToBytes(n) == ToBytes(0) + [n];
    }
  }

  lemma {:induction false} ToFixedIff(v: nat, k: nat)
    ensures ToFixed(v, k).Some? <==> v < Pow256(k)
    ensures ToFixed(v, k).Some? ==> |ToFixed(v, k).value| == k && FromBytes(ToFixed(v, k).value) == v
  {
    if k > 0 {
      ToFixedIff(v / 256, k - 1);
      var front := ToFixed(v / 256, k - 1);
      if front.Some? {
        assert (front.value + [v % 256])[..k - 1] == front.value;
      }
    }
  }

  /** For every key of at least 54 octets the padded message is below the modulus. */
  lemma PaddedBelowModulus(n: nat, digest: Bytes)
    requires |digest| == 32 && KeyLength(n) >= 54
    ensures FromBytes(Padded(KeyLength(n), digest)) < n
  {
    var k := KeyLength(n);
    var em := Padded(k, digest);
    PaddedLength(k, digest);
    KeyLengthIs(n);
    ToBytesAtLeast(n);
    assert em == [0] + em[1..];
    LeadingZero(em[1..]);
    FromBytesBelow(em[1..]);
  }

  /** The signature of `mint_app_jwt` for a digest; None is an error. */
  method Sign(n: nat, d: nat, digest: Bytes) returns (signature: Option<Bytes>)
    requires |digest| == 32
    ensures signature.Some? <==> n > 0
    ensures n > 0 ==> |signature.value| == KeyLength(n)
    ensures n > 0 ==> FromBytes(signature.value) == PowMod(FromBytes(Padded(KeyLength(n), digest)), d, n)
  {
    if n == 0 { return None; }
    var keyLength := KeyLength(n);
    var em := [0, 1] + Ones(keyLength - |PREFIX| - |digest| - 3) + [0];
    em := em + PREFIX + digest;
    var sig := PowMod(FromBytes(em), d, n);
    KeyLengthIs(n);
    ToBytesAtLeast(n);
    ToFixedIff(sig, keyLength);
    signature := ToFixed(sig, keyLength);
  }
}
