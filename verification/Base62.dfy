/** Sync target keys: a 28-byte hash written in base 62
    (apis/workload/v1alpha1/helpers.go). */
module Base62 {
  newtype Byte = b: int | 0 <= b < 256

  const HASH_BYTES := 28
  const MAX_KEY_LENGTH := 38

  function Pow(base: nat, e: nat): nat {
    if e == 0 then 1 else base * Pow(base, e - 1)
  }

  /** The unsigned number that the bytes spell, most significant byte first. */
  function FromBytes(bytes: seq<Byte>): nat {
    if bytes == [] then 0 else 256 * FromBytes(bytes[..|bytes| - 1]) + bytes[|bytes| - 1] as int
  }

  function Digit(d: nat): char
    requires d < 62
  {
    if d < 10 then '0' + d as char
    else if d < 36 then 'a' + (d - 10) as char
    else 'A' + (d - 36) as char
  }

  predicate IsAlphanumeric(c: char) {
    '0' <= c <= '9' || 'a' <= c <= 'z' || 'A' <= c <= 'Z'
  }

  function DigitValue(c: char): nat {
    if '0' <= c <= '9' then (c - '0') as nat
    else if 'a' <= c <= 'z' then 10 + (c - 'a') as nat
    else if 'A' <= c <= 'Z' then 36 + (c - 'A') as nat
    else 0
  }

  /** A number in base 62, without leading zeros except for zero itself. */
  function Text(n: nat): string {
    if n < 62 then [Digit(n)] else Text(n / 62) + [Digit(n % 62)]
  }

  function ToBase62(hash: seq<Byte>): string {
    Text(FromBytes(hash))
  }

  function Value(s: string): nat {
    if s == "" then 0 else 62 * Value(s[..|s| - 1]) + DigitValue(s[|s| - 1])
  }

  lemma {:induction false} FromBytesBound(bytes: seq<Byte>)
    ensures FromBytes(bytes) < Pow(256, |bytes|)
  {
    if bytes != [] {
      FromBytesBound(bytes[..|bytes| - 1]);
    }
  }

  lemma {:induction false} FromBytesInjective(a: seq<Byte>, b: seq<Byte>)
    requires |a| == |b| && FromBytes(a) == FromBytes(b)
    ensures a == b
  {
    if a != [] {
      var n := |a| - 1;
      FromBytesInjective(a[..n], b[..n]);
      assert a == a[..n] + [a[n]] && b == b[..n] + [b[n]];
    }
  }

  lemma DigitRoundTrip(d: nat)
    requires d < 62
    ensures DigitValue(Digit(d)) == d && IsAlphanumeric(Digit(d))
  {
  }

  /** Digits come first, then small letters, then capitals. */
  lemma DigitsInOrder()
    ensures Text(0) == "0" && Text(9) == "9" && Text(10) == "a" && Text(35) == "z" && Text(36) == "A" && Text(61) == "Z"
    ensures Text(62) == "10" && Text(62 * 62 + 61) == "10Z"
  {
    assert Text(62) == Text(1) + Text(0);
    assert Text(62 * 62 + 61) == Text(62) + Text(61);
  }

  /** The bytes are read from the most significant one on. */
  lemma {:induction false} FromBytesInOrder(a: seq<Byte>, b: seq<Byte>)
    ensures FromBytes(a + b) == FromBytes(a) * Pow(256, |b|) + FromBytes(b)
  {
    if b == [] {
      assert a + b == a;
    } else {
      var init, last := b[..|b| - 1], b[|b| - 1];
      FromBytesInOrder(a, init);
      assert (a + b)[..|a + b| - 1] == a + init;
      assert FromBytes(a + b) == 256 * (FromBytes(a) * Pow(256, |init|) + FromBytes(init)) + last as int;
      assert 256 * (FromBytes(a) * Pow(256, |init|)) == FromBytes(a) * Pow(256, |b|);
    }
  }

  lemma {:induction false} TextRoundTrip(n: nat)
    ensures Value(Text(n)) == n
  {
    DigitRoundTrip(n % 62);
    if n >= 62 {
      TextRoundTrip(n / 62);
      assert Text(n)[..|Text(n)| - 1] == Text(n / 62);
    } else {
      assert Text(n)[..0] == "";
    }
  }

  lemma {:induction false} TextLength(n: nat, digits: nat)
    requires 0 < digits && n < Pow(62, digits)
    ensures |Text(n)| <= digits
  {
    if n >= 62 {
      TextLength(n / 62, digits - 1);
    }
  }

  lemma {:induction false} TextAlphabet(n: nat)
    ensures Text(n) != "" && forall c | c in Text(n) :: IsAlphanumeric(c)
  {
    DigitRoundTrip(n % 62);
    if n >= 62 { TextAlphabet(n / 62); }
  }

  lemma {:induction false} PowAdd(base: nat, x: nat, y: nat)
    ensures Pow(base, x + y) == Pow(base, x) * Pow(base, y)
  {
    if x > 0 {
      PowAdd(base, x - 1, y);
      assert Pow(base, x + y) == base * (Pow(base, x - 1) * Pow(base, y)) == base * Pow(base, x - 1) * Pow(base, y);
    }
  }

  /** 256 to the 14 is below 62 to the 19, so the squares compare alike. */
  lemma HashFitsDigits()
    ensures Pow(256, HASH_BYTES) <= Pow(62, MAX_KEY_LENGTH)
  {
    assert Pow(256, 7) == 72057594037927936;
    PowAdd(256, 7, 7);
    PowAdd(256, 14, 14);
    assert Pow(62, 5) == 916132832 && Pow(62, 4) == 14776336;
    PowAdd(62, 5, 5);
    PowAdd(62, 5, 4);
    PowAdd(62, 10, 9);
    PowAdd(62, 19, 19);
    assert Pow(256, 14) == 5192296858534827628530496329220096 < 11361668153983839080134359106715648 == Pow(62, 19);
    assert Pow(256, 28) == 26959946667150639794667015087019630673637144422540572481103610249216 && Pow(62, 38) == 129087503241250537698846664983273034496615830269405106887493528059904;
  }

  /** Main result: a key is at most 38 letters and digits, and no
      two hashes share a key. */
  lemma KeyIsShortAndUnique(hash: seq<Byte>, other: seq<Byte>)
    requires |hash| == HASH_BYTES && |other| == HASH_BYTES
    ensures 0 < |ToBase62(hash)| <= MAX_KEY_LENGTH
    ensures forall c | c in ToBase62(hash) :: IsAlphanumeric(c)
    ensures ToBase62(hash) == ToBase62(other) <==> hash == other
  {
    FromBytesBound(hash);
    HashFitsDigits();
    TextLength(FromBytes(hash), MAX_KEY_LENGTH);
    TextAlphabet(FromBytes(hash));
    if ToBase62(hash) == ToBase62(other) {
      TextRoundTrip(FromBytes(hash));
      TextRoundTrip(FromBytes(other));
      FromBytesInjective(hash, other);
    }
  }
}
