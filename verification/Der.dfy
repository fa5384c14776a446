/** The DER encoding of an ECDSA signature (source/pkcs11_lib.c).

A PKCS#11 token returns the two numbers of a signature side by side, in as many bytes each. They are encoded as two
INTEGERs in a SEQUENCE (section 2.2.3 of RFC 3279), with lengths in the short form only. The decoder here follows
sections 8.1.3, 8.3, 8.9 and 10.1 of ITU-T X.690 and knows nothing of the encoder.
*/
module Der {
  import opened Basics

  type Byte = x: int | 0 <= x < 256

  type Bytes = seq<Byte>

  const INTEGER: Byte := 0x02
  const SEQUENCE: Byte := 0x30

  // ----- Numbers -----

  /** The unsigned number with these big-endian bytes. */
  function Value(b: Bytes): nat {
    if b == [] then 0 else 256 * Value(b[..|b| - 1]) + b[|b| - 1]
  }

  function Power(n: nat): nat {
    if n == 0 then 1 else 256 * Power(n - 1)
  }

  /** The signed number with these bytes, in two's complement (section 8.3.3 of X.690). */
  function Signed(b: Bytes): int
    requires b != []
  {
    if b[0] >= 128 then Value(b) - Power(|b|) else Value(b)
  }

  function Trimmed(b: Bytes): (t: Bytes)
    ensures |t| <= |b| && (t != [] ==> t[0] != 0)
  {
    if b != [] && b[0] == 0 then Trimmed(b[1..]) else b
  }

  lemma {:induction false} ValueOfLeadingZero(b: Bytes)
    requires b != [] && b[0] == 0
    ensures Value(b) == Value(b[1..])
  {
    if |b| > 1 {
      var n := |b| - 1;
      ValueOfLeadingZero(b[..n]);
      assert b[..n][1..] == b[1..][..n - 1] && b[1..][n - 1] == b[n];
    } else {
      assert b[..0] == [];
    }
  }

  lemma {:induction false} TrimmingKeepsValue(b: Bytes)
    ensures Value(Trimmed(b)) == Value(b)
  {
    if b != [] && b[0] == 0 {
      TrimmingKeepsValue(b[1..]);
      ValueOfLeadingZero(b);
    }
  }

  lemma {:induction false} LeadingByteMakesPositive(b: Bytes)
    requires b != [] && b[0] != 0
    ensures Value(b) > 0
  {
    if |b| > 1 {
      LeadingByteMakesPositive(b[..|b| - 1]);
    }
  }

  /** Without leading zeros a number has one representation. */
  lemma {:induction false} SameValueSameBytes(a: Bytes, b: Bytes)
    requires Value(a) == Value(b) && (a != [] ==> a[0] != 0) && (b != [] ==> b[0] != 0)
    ensures a == b
    decreases |a|
  {
    if a == [] {
      if b != [] {
        LeadingByteMakesPositive(b);
      }
    } else if b == [] {
      LeadingByteMakesPositive(a);
    } else {
      var m, n := |a| - 1, |b| - 1;
      assert Value(a[..m]) == Value(b[..n]) && a[m] == b[n];
      SameValueSameBytes(a[..m], b[..n]);
      assert a == a[..m] + [a[m]] && b == b[..n] + [b[n]];
    }
  }

  // ----- The encoding -----

  /** The content of an INTEGER: as few bytes as possible, the first below 128. */
  function Content(b: Bytes): (c: Bytes)
    ensures c != [] && |c| <= |b| + 1
  {
    var t := Trimmed(b);
    if t == [] || t[0] >= 128 then [0] + t else t
  }

  predicate ShortForm(length: nat) {
    length <= 0x7f
  }

  function EncodedInteger(b: Bytes): Bytes
    requires ShortForm(|Content(b)|)
  {
    [INTEGER, |Content(b)|] + Content(b)
  }

  function PairLength(r: Bytes, s: Bytes): nat {
    (2 + |Content(r)|) + (2 + |Content(s)|)
  }

  function EncodedSignature(r: Bytes, s: Bytes): Bytes
    requires ShortForm(PairLength(r, s))
  {
    [SEQUENCE, PairLength(r, s)] + EncodedInteger(r) + EncodedInteger(s)
  }

  // ----- An independent decoder -----

  datatype Decoded = Decoded(value: int, rest: Bytes)

  /** Section 8.3.2: the first nine bits are neither all zeros nor all ones. */
  predicate Minimal(c: Bytes) {
    && c != []
    && (|c| > 1 ==> !(c[0] == 0 && c[1] < 128) && !(c[0] == 255 && c[1] >= 128))
  }

  function DecodeInteger(b: Bytes): Option<Decoded> {
    if |b| < 2 || b[0] != INTEGER || b[1] > 0x7f || |b| < 2 + b[1] then None
    else
      var c := b[2..2 + b[1]];
      if Minimal(c) then Some(Decoded(Signed(c), b[2 + b[1]..])) else None
  }

  function DecodeSignature(b: Bytes): Option<(int, int)> {
    if |b| < 2 || b[0] != SEQUENCE || b[1] > 0x7f || |b| != 2 + b[1] then None
    else
      match DecodeInteger(b[2..])
      case None => None
      case Some(r) =>
        match DecodeInteger(r.rest)
        case None => None
        case Some(s) => if s.rest == [] then Some((r.value, s.value)) else None
  }

  // ----- Content -----

  lemma {:induction false} ContentValue(b: Bytes)
    ensures Value(Content(b)) == Value(b) && Signed(Content(b)) == Value(b) && Content(b)[0] < 128
    ensures Minimal(Content(b))
  {
    var t := Trimmed(b);
    TrimmingKeepsValue(b);
    if t == [] || t[0] >= 128 {
      ValueOfLeadingZero([0] + t);
      assert ([0] + t)[1..] == t;
    }
  }

  /** The content depends on the number only, not on how many bytes it came in. */
  lemma {:induction false} ContentDependsOnValueOnly(a: Bytes, b: Bytes)
    requires Value(a) == Value(b)
    ensures Content(a) == Content(b)
  {
    TrimmingKeepsValue(a);
    TrimmingKeepsValue(b);
    SameValueSameBytes(Trimmed(a), Trimmed(b));
  }

  /** Content in minimal form that stands for a number that is not negative is what the encoder would write. */
  lemma {:induction false} MinimalContentIsCanonical(c: Bytes)
    requires Minimal(c) && c[0] < 128
    ensures Content(c) == c
  {
    if c[0] == 0 {
      assert Trimmed(c) == Trimmed(c[1..]);
      assert c == [0] + c[1..];
    }
  }

  lemma {:induction false} ValueBelowPower(c: Bytes)
    ensures Value(c) < Power(|c|)
  {
    if c != [] {
      ValueBelowPower(c[..|c| - 1]);
    }
  }

  /** No other content stands for the same number with fewer bytes. */
  lemma {:induction false} ContentIsShortest(b: Bytes, c: Bytes)
    requires c != [] && Signed(c) == Value(b)
    ensures |Content(b)| <= |c|
  {
    ValueBelowPower(c);
    assert c[0] < 128;
    ContentDependsOnValueOnly(b, c);
    ContentOfPositive(c);
  }

  lemma {:induction false} ContentOfPositive(c: Bytes)
    requires c != [] && c[0] < 128
    ensures |Content(c)| <= |c|
  {
    if c[0] == 0 {
      assert Trimmed(c) == Trimmed(c[1..]);
    }
  }

  // ----- Round trips -----

  lemma {:induction false} IntegerRoundTrip(b: Bytes, rest: Bytes)
    requires ShortForm(|Content(b)|)
    ensures DecodeInteger(EncodedInteger(b) + rest) == Some(Decoded(Value(b), rest))
  {
    var c := Content(b);
    var e := EncodedInteger(b) + rest;
    ContentValue(b);
    assert e[2..2 + |c|] == c && e[2 + |c|..] == rest;
  }

  /** Decoding an encoded signature gives back exactly the two numbers. */
  lemma {:induction false} SignatureRoundTrip(r: Bytes, s: Bytes)
    requires ShortForm(PairLength(r, s))
    ensures DecodeSignature(EncodedSignature(r, s)) == Some((Value(r), Value(s)))
  {
    var e := EncodedSignature(r, s);
    var x, y := EncodedInteger(r), EncodedInteger(s);
    assert e[2..] == x + y;
    IntegerRoundTrip(r, y);
    assert y + [] == y;
    IntegerRoundTrip(s, []);
  }

  lemma {:induction false} DecodedIntegerIsCanonical(b: Bytes)
    requires DecodeInteger(b).Some? && DecodeInteger(b).value.value >= 0
    ensures var c := b[2..2 + b[1]];
            && ShortForm(|Content(c)|) && b == EncodedInteger(c) + DecodeInteger(b).value.rest
            && DecodeInteger(b).value.value == Value(c)
  {
    var c := b[2..2 + b[1]];
    ValueBelowPower(c);
    MinimalContentIsCanonical(c);
    assert b == [b[0], b[1]] + c + b[2 + b[1]..];
  }

  lemma {:induction false} CanonicalInteger(b: Bytes, n: Bytes)
    requires DecodeInteger(b).Some? && DecodeInteger(b).value.value == Value(n)
    ensures ShortForm(|Content(n)|) && b == EncodedInteger(n) + DecodeInteger(b).value.rest
  {
    DecodedIntegerIsCanonical(b);
    ContentDependsOnValueOnly(b[2..2 + b[1]], n);
  }

  /** The encoding is the only one: whatever decodes to two numbers that are not negative is what the encoder writes for
      any representation of those numbers. */
  lemma {:induction false} SignatureIsCanonical(e: Bytes, r: Bytes, s: Bytes)
    requires DecodeSignature(e) == Some((Value(r), Value(s)))
    ensures ShortForm(PairLength(r, s)) && e == EncodedSignature(r, s)
  {
    var body := e[2..];
    var x := DecodeInteger(body).value;
    CanonicalPair(body, x.rest, r, s);
    Assemble(e, EncodedInteger(r), EncodedInteger(s));
  }

  lemma {:induction false} CanonicalPair(body: Bytes, rest: Bytes, r: Bytes, s: Bytes)
    requires DecodeInteger(body) == Some(Decoded(Value(r), rest)) && DecodeInteger(rest) == Some(Decoded(Value(s), []))
    ensures ShortForm(|Content(r)|) && ShortForm(|Content(s)|) && body == EncodedInteger(r) + EncodedInteger(s)
  {
    CanonicalInteger(body, r);
    CanonicalInteger(rest, s);
    assert rest == EncodedInteger(s) + [] == EncodedInteger(s);
  }

  lemma Assemble(e: Bytes, x: Bytes, y: Bytes)
    requires |e| >= 2 && e[2..] == x + y
    ensures e == [e[0], e[1]] + x + y
  {
    assert e == [e[0], e[1]] + e[2..];
  }

  // ----- The buffers of the code -----

  class ByteBuf {
    const buffer: array<Byte>
    var len: nat

    ghost predicate Valid()
      reads this
    {
      len <= buffer.Length
    }

    ghost function Contents(): Bytes
      requires Valid()
      reads this, buffer
    {
      buffer[..len]
    }

    constructor (capacity: nat)
      ensures Valid() && fresh(buffer) && buffer.Length == capacity && Contents() == []
    {
      buffer := new Byte[capacity];
      len := 0;
    }

    /** aws_byte_buf_write: all or nothing */
    method Write(bytes: Bytes) returns (ok: bool)
      requires Valid()
      modifies this, buffer
      ensures Valid() && (ok <==> old(len) + |bytes| <= buffer.Length)
      ensures Contents() == old(Contents()) + if ok then bytes else []
    {
      if |bytes| > buffer.Length - len {
        return false;
      }
      for i := 0 to |bytes|
        invariant len == old(len) && buffer[..len] == old(buffer[..len])
        invariant buffer[len..len + i] == bytes[..i]
      {
        buffer[len + i] := bytes[i];
      }
      assert bytes[..|bytes|] == bytes;
      assert buffer[..len + |bytes|] == buffer[..len] + buffer[len..len + |bytes|];
      len := len + |bytes|;
      return true;
    }

    /** s_asn1_enc_prefix: only low tag numbers and short lengths */
    method EncodePrefix(identifier: Byte, length: nat) returns (ok: bool)
      requires Valid()
      modifies this, buffer
      ensures Valid()
      ensures ok <==> identifier % 0x20 != 0x1f && ShortForm(length) && old(len) + 2 <= buffer.Length
      ensures Contents() == old(Contents()) + if ok then [identifier, length] else []
    {
      if identifier % 0x20 == 0x1f || length > 0x7f {
        return false;
      }
      ok := Write([identifier, length]);
    }

    /** The writing part of aws_pkcs11_asn1_enc_ubigint */
    method EncodeTrimmed(number: Bytes) returns (ok: bool)
      requires Valid() && Trimmed(number) == number
      modifies this, buffer
      ensures Valid()
      ensures ok <==> ShortForm(|Content(number)|) && old(len) + 2 + |Content(number)| <= buffer.Length
      ensures ok ==> Contents() == old(Contents()) + EncodedInteger(number)
    {
      var addLeadingZero := |number| == 0 || number[0] >= 0x80;
      var actualLength := |number| + if addLeadingZero then 1 else 0;
      ok := EncodePrefix(INTEGER, actualLength);
      if ok && addLeadingZero {
        ok := Write([0]);
      }
      if ok {
        ok := Write(number);
      }
      if ok {
        assert Contents() == old(Contents()) + [INTEGER, actualLength] + Content(number);
      }
    }

    /** aws_pkcs11_asn1_enc_ubigint: succeeds exactly when the length has a short form and everything fits */
    method EncodeUbigint(bigint: Bytes) returns (ok: bool)
      requires Valid()
      modifies this, buffer
      ensures Valid()
      ensures ok <==> ShortForm(|Content(bigint)|) && old(len) + 2 + |Content(bigint)| <= buffer.Length
      ensures ok ==> Contents() == old(Contents()) + EncodedInteger(bigint)
    {
      var start := 0;
      while start < |bigint| && bigint[start] == 0
        invariant 0 <= start <= |bigint| && Trimmed(bigint[start..]) == Trimmed(bigint)
      {
        assert bigint[start..][1..] == bigint[start + 1..];
        start := start + 1;
      }
      ok := EncodeTrimmed(bigint[start..]);
    }
  }

  /** One number of a signature, in a buffer of n + 4 bytes: the buffer is always large enough. */
  method EncodePart(number: Bytes) returns (part: Option<Bytes>)
    ensures part.Some? <==> ShortForm(|Content(number)|)
    ensures part.Some? ==> part.value == EncodedInteger(number)
  {
    var buf := new ByteBuf(|number| + 4);
    var ok := buf.EncodeUbigint(number);
    part := if ok then Some(buf.buffer[..buf.len]) else None;
  }

  /** The SEQUENCE around two encoded numbers, in a buffer that has room for exactly that. */
  method EncodePair(r: Bytes, s: Bytes) returns (pair: Option<Bytes>)
    ensures pair.Some? <==> ShortForm(|r| + |s|)
    ensures pair.Some? ==> pair.value == [SEQUENCE, |r| + |s|] + r + s
  {
    var buf := new ByteBuf(|r| + |s| + 2);
    var ok := buf.EncodePrefix(SEQUENCE, |r| + |s|);
    if !ok {
      return None;
    }
    ok := buf.Write(r);
    assert ok;
    ok := buf.Write(s);
    assert ok;
    pair := Some(buf.buffer[..buf.len]);
  }

  /** The encoding half of s_pkcs11_sign_ecdsa. A signature of two halves fails to be encoded exactly when the pair is
      too long for the short form. */
  method EncodePartSignature(part: Bytes) returns (result: Option<Bytes>)
    ensures result.Some? <==>
            && part != [] && |part| % 2 == 0
            && ShortForm(PairLength(part[..|part| / 2], part[|part| / 2..]))
    ensures result.Some? ==> result.value == EncodedSignature(part[..|part| / 2], part[|part| / 2..])
  {
    if |part| == 0 || |part| % 2 != 0 {
      return None;
    }
    var n := |part| / 2;
    var r := EncodePart(part[..n]);
    if r.None? {
      return None;
    }
    var s := EncodePart(part[n..]);
    if s.None? {
      return None;
    }
    result := EncodePair(r.value, s.value);
  }

  /** Up to 60 bytes a number, which covers curves of up to 480 bits, encoding cannot fail. */
  lemma {:induction false} SmallCurvesAlwaysEncode(r: Bytes, s: Bytes)
    requires |r| == |s| <= 60
    ensures ShortForm(PairLength(r, s))
  {
  }

  /** From 61 bytes on it can: with a leading bit set in both numbers the pair is too long. */
  lemma {:induction false} LargerCurvesMayFail(n: nat) returns (r: Bytes)
    requires n > 60
    ensures |r| == n && !ShortForm(PairLength(r, r))
  {
    r := seq(n, i => 255);
    assert Trimmed(r) == r;
  }
}
