/** Exactly which sequences of integers are keys, and what number the signature is. */
module DerKeysExactly {
  import opened Basics
  import opened DerKeys

  /******* Which sequences are keys *******/

  lemma EndOfBuffer(buf: Bytes)
    ensures ReadTlv(buf, |buf|).None?
  {
  }

  /** Fewer than three integers are no wrapper either. */
  lemma FewNotUnwrapped(ints: seq<nat>)
    requires |ints| < 3 && AllEncodable(ints)
    ensures Unwrapped(EncodeInts(ints)) == EncodeInts(ints)
  {
    var content := EncodeInts(ints);
    assert content[0..] == content;
    EndOfBuffer(content);
    if ints != [] {
      var a := ReadsOneInt(content, 0, ints);
      if |ints| == 1 {
        assert content[a.next..] == [] && a.next == |content|;
      } else {
        var b := ReadsOneInt(content, a.next, ints[1..]);
        assert ints[1..][1..] == [] && content[b.next..] == [] && b.next == |content|;
      }
    }
  }

  /** A sequence of integers is read as a key exactly when there are at least four of them and the first, the version,
      is zero; the key is then the second, third and fourth. */
  lemma IntsParse(ints: seq<nat>)
    requires AllEncodable(ints) && Fits(EncodeInts(ints))
    ensures ParseDer(Encode(0x30, EncodeInts(ints)))
      == if |ints| >= 4 && ints[0] == 0 then Some(Key(ints[1], ints[2], ints[3])) else None
  {
    var content := EncodeInts(ints);
    if |ints| < 3 { FewNotUnwrapped(ints); } else { IntsNotUnwrapped(ints); }
    WholeTlv(Encode(0x30, content), 0x30, content);
    assert content[0..] == content;
    ReadsInts(content, 0, ints);
  }

  /** An element that is no integer behind the integers makes the whole sequence an error. */
  lemma OtherElementFails(ints: seq<nat>, tag: Byte, other: Bytes, rest: Bytes)
    requires |ints| >= 3 && AllEncodable(ints) && Fits(other) && tag != 0x02
    requires Fits(EncodeInts(ints) + (Encode(tag, other) + rest))
    ensures ParseDer(Encode(0x30, EncodeInts(ints) + (Encode(tag, other) + rest))).None?
  {
    var tail := Encode(tag, other) + rest;
    var content := EncodeInts(ints) + tail;
    assert content[0..] == content;
    IntsBeforeTail(content, ints, tail);
    TailFails(content, 0, ints, tag, other, rest);
    WholeTlv(Encode(0x30, content), 0x30, content);
  }

  lemma ReadsIntBefore(buf: Bytes, offset: nat, ints: seq<nat>, tail: Bytes) returns (t: Tlv)
    requires ints != [] && AllEncodable(ints)
    requires offset <= |buf| && buf[offset..] == EncodeInts(ints) + tail
    ensures ReadTlv(buf, offset) == Some(t) && t.tag == 0x02
    ensures t.next <= |buf| && buf[t.next..] == EncodeInts(ints[1..]) + tail
  {
    var first, rest := Encode(0x02, IntContent(ints[0])), EncodeInts(ints[1..]);
    Regroup(first, rest, tail);
    ReadsTlv(buf, offset, 0x02, IntContent(ints[0]), rest + tail);
    t := ReadTlv(buf, offset).value;
  }

  lemma Regroup(a: Bytes, b: Bytes, c: Bytes)
    ensures a + b + c == a + (b + c)
  {
  }

  /** Three integers in front are never taken for a wrapper, whatever follows. */
  lemma IntsBeforeTail(content: Bytes, ints: seq<nat>, tail: Bytes)
    requires |ints| >= 3 && AllEncodable(ints) && content == EncodeInts(ints) + tail
    ensures Unwrapped(content) == content
  {
    assert content[0..] == content;
    var a := ReadsIntBefore(content, 0, ints, tail);
    var b := ReadsIntBefore(content, a.next, ints[1..], tail);
    var c := ReadsIntBefore(content, b.next, ints[1..][1..], tail);
    UnwrappedByThird(content, a, b, c);
  }

  lemma {:induction false} TailFails(buf: Bytes, offset: nat, ints: seq<nat>, tag: Byte, other: Bytes, rest: Bytes)
    requires AllEncodable(ints) && Fits(other) && tag != 0x02
    requires offset <= |buf| && buf[offset..] == EncodeInts(ints) + (Encode(tag, other) + rest)
    ensures ReadInts(buf, offset).None?
    decreases |ints|
  {
    if ints == [] {
      assert buf[offset..] == Encode(tag, other) + rest;
      ReadsTlv(buf, offset, tag, other, rest);
    } else {
      var t := ReadsIntBefore(buf, offset, ints, Encode(tag, other) + rest);
      TailFails(buf, t.next, ints[1..], tag, other, rest);
    }
  }

  /******* The signature *******/

  function Power(b: nat, d: nat): nat { if d == 0 then 1 else b * Power(b, d - 1) }

  /** There is one way to divide with a remainder below n. */
  lemma OneRemainder(q: int, r: nat, p: int, t: nat, n: nat)
    requires n > 0 && r < n && t < n && n * q + r == n * p + t
    ensures r == t
  {
    var gap := q - p;
    assert n * gap == t - r by {
      calc {
        n * gap;
        n * q - n * p;
        t - r;
      }
    }
    if gap > 0 { AtLeast(n, gap); } else if gap < 0 { AtLeast(n, -gap); }
  }

  lemma {:induction false} AtLeast(n: nat, k: int)
    requires k > 0
    ensures n * k >= n
    decreases k
  {
    if k > 1 {
      AtLeast(n, k - 1);
      assert n * k == n * (k - 1) + n;
    }
  }

  lemma AddMultiple(x: nat, k: nat, n: nat)
    requires n > 0
    ensures (x + n * k) % n == x % n
  {
    var q, r, y := x / n, x % n, x + n * k;
    assert y == n * (y / n) + y % n && x == n * q + r;
    calc {
      y;
      n * q + r + n * k;
      n * (q + k) + r;
    }
    OneRemainder(y / n, y % n, q + k, r, n);
  }

  lemma TimesRest(b: nat, p: nat, n: nat)
    requires n > 0
    ensures (b * (p % n)) % n == (b * p) % n
  {
    var q, r := p / n, p % n;
    assert p == n * q + r;
    calc {
      b * p;
      b * (n * q + r);
      b * r + n * (b * q);
    }
    AddMultiple(b * r, b * q, n);
  }

  /** The modular power is the power, reduced. */
  lemma {:induction false} PowModIs(b: nat, d: nat, n: nat)
    requires n > 0
    ensures PowMod(b, d, n) == Power(b, d) % n
  {
    if d > 0 {
      PowModIs(b, d - 1, n);
      TimesRest(b, Power(b, d - 1), n);
    }
  }
}
