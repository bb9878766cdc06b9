/** The base32 decoding of token secrets. */
module Base32 {

  import opened Bytes
  import opened Wrappers

  const WIDTH32 := 0x1_0000_0000

  // ---------------------------------------------------------------- the alphabet

  function Digit(ch: char): Option<nat> {
    if 'A' <= ch <= 'Z' then Some(ch as nat % 32 - 1)
    else if '2' <= ch <= '7' then Some(ch as nat - 24)
    else None
  }

  // The alphabet of section 6 of RFC 4648.
  function Letter(digit: nat): char
    requires digit < 32
  {
    if digit < 26 then 'A' + digit as char else '2' + (digit - 26) as char
  }

  predicate Readable(secret: string) {
    forall i | 0 <= i < |secret| :: Digit(secret[i]).Some?
  }

  lemma {:induction false} DigitOfLetter(digit: nat)
    requires digit < 32
    ensures Digit(Letter(digit)) == Some(digit)
  {}

  // ---------------------------------------------------------------- numbers

  function Pow2(n: nat): (p: nat)
    ensures p > 0
  {
    if n == 0 then 1 else 2 * Pow2(n - 1)
  }

  // The five-bit values of the letters, one behind the other, as one number.
  function Value(secret: string): nat
    requires Readable(secret)
  {
    if secret == "" then 0 else Value(secret[..|secret| - 1]) * 32 + Digit(secret[|secret| - 1]).value
  }

  // Bytes, one behind the other, as one number.
  function BytesValue(key: seq<byte>): nat {
    if key == [] then 0 else BytesValue(key[..|key| - 1]) * 256 + key[|key| - 1]
  }

  // ---------------------------------------------------------------- decoding

  lemma {:induction false} BytesMore(key: seq<byte>, b: byte)
    ensures BytesValue(key + [b]) == BytesValue(key) * 256 + b
  {
    assert (key + [b])[..|key|] == key;
  }

  // A byte of the wrapped buffer is one of the whole number.
  lemma {:induction false} NextByte(value: nat, left: nat)
    requires left < 8
    ensures value % WIDTH32 / Pow2(left) % 256 == value / Pow2(left) % 256
  {
    PowersOf2();
    hide Pow2;
    match left
    case 0 => ByteAt(value, 1, 16777216);
    case 1 => ByteAt(value, 2, 8388608);
    case 2 => ByteAt(value, 4, 4194304);
    case 3 => ByteAt(value, 8, 2097152);
    case 4 => ByteAt(value, 16, 1048576);
    case 5 => ByteAt(value, 32, 524288);
    case 6 => ByteAt(value, 64, 262144);
    case 7 => ByteAt(value, 128, 131072);
  }

  lemma {:induction false} ByteAt(value: nat, p: nat, m: nat)
    requires p * m * 256 == WIDTH32 && p > 0
    ensures value % WIDTH32 / p % 256 == value / p % 256
  {
    var q, r := value / WIDTH32, value % WIDTH32;
    assert value == WIDTH32 * q + r;
    assert p * (m * 256 * q) == p * m * 256 * q == WIDTH32 * q;
    DivPlus(p, m * 256 * q, r);
    DivPlus(256, m * q, r / p);
    assert m * 256 * q == 256 * (m * q);
    assert value / p == 256 * (m * q) + r / p;
  }

  lemma {:induction false} DivPlus(d: nat, x: nat, r: nat)
    requires d > 0
    ensures (d * x + r) / d == x + r / d && (d * x + r) % d == r % d
  {
    var y := d * x + r;
    var k := y / d - (x + r / d);
    assert d * k == r % d - y % d by {
      assert d * k == d * (y / d) - d * x - d * (r / d);
    }
    assert k >= 1 ==> d * k >= d;
    assert k <= -1 ==> d * k <= -1 * d;
  }

  lemma {:induction false} PowersOf2()
    ensures Pow2(0) == 1 && Pow2(1) == 2 && Pow2(2) == 4 && Pow2(3) == 8 && Pow2(4) == 16
    ensures Pow2(5) == 32 && Pow2(6) == 64 && Pow2(7) == 128
  {}

  // What a further letter does to the number of bits that are no part of a byte yet.
  lemma {:induction false} NextLetter(value: nat, digit: nat, left: nat)
    requires left < 8 && digit < 32
    ensures left < 3 ==> (value * 32 + digit) / Pow2(left + 5) == value / Pow2(left)
    ensures left >= 3 ==> (value * 32 + digit) / Pow2(left - 3) / 256 == value / Pow2(left)
  {
    PowersOf2();
    match left
    case 0 => case 1 => case 2 => case 3 => case 4 => case 5 => case 6 => case 7 =>
  }

  // Decodes a secret; nothing when a character is not in the alphabet. The 32-bit buffer wraps for every secret of
  // seven letters or more without harm: the key is the whole bytes of the letters' values.
  method DecodeSecret(secret: string) returns (key: seq<byte>)
    ensures !Readable(secret) ==> key == []
    ensures Readable(secret) ==> |key| == 5 * |secret| / 8 && BytesValue(key) == Value(secret) / Pow2(5 * |secret| % 8)
  {
    hide Pow2, Value, BytesValue;
    key := [];
    var buffer, left := 0, 0;
    Empty();
    for i := 0 to |secret|
      invariant Readable(secret[..i])
      invariant 0 <= left < 8 && 5 * i == 8 * |key| + left
      invariant 0 <= buffer && buffer == Value(secret[..i]) % WIDTH32
      invariant BytesValue(key) == Value(secret[..i]) / Pow2(left)
    {
      var ch := secret[i];
      var digit := 0;
      buffer := buffer * 32 % WIDTH32;
      if 'A' <= ch <= 'Z' {
        digit := ch as nat % 32 - 1;
      } else if '2' <= ch <= '7' {
        digit := ch as nat - 24;
      } else {
        assert !Readable(secret);
        return [];
      }
      buffer := buffer + digit;
      ghost var value := Value(secret[..i]);
      ReadableMore(secret, i);
      Wrapped(value, digit);
      NextLetter(value, digit, left);
      left := left + 5;
      if left >= 8 {
        left := left - 8;
        NextByte(value * 32 + digit, left);
        BytesMore(key, buffer / Pow2(left) % 256);
        key := key + [buffer / Pow2(left) % 256];
      }
    }
    assert secret[..|secret|] == secret;
  }

  lemma {:induction false} Empty()
    ensures Value("") == 0 == BytesValue([]) && Pow2(0) == 1
  {}

  lemma {:induction false} ReadableMore(secret: string, n: nat)
    requires n < |secret| && Readable(secret[..n]) && Digit(secret[n]).Some?
    ensures Readable(secret[..n + 1]) && Value(secret[..n + 1]) == Value(secret[..n]) * 32 + Digit(secret[n]).value
  {
    assert secret[..n + 1] == secret[..n] + [secret[n]];
    assert secret[..n + 1][..n] == secret[..n];
  }

  lemma {:induction false} Wrapped(value: nat, digit: nat)
    requires digit < 32
    ensures value % WIDTH32 * 32 % WIDTH32 + digit == (value * 32 + digit) % WIDTH32
  {
    var q, r := value / WIDTH32, value % WIDTH32;
    var a, b := r * 32 / WIDTH32, r * 32 % WIDTH32;
    assert value == WIDTH32 * q + r && r * 32 == WIDTH32 * a + b;
    assert value * 32 + digit == WIDTH32 * (32 * q + a) + (b + digit);
    DivPlus(WIDTH32, 32 * q + a, b + digit);
  }

  // ---------------------------------------------------------------- encoding

  // How many letters hold a number of bytes, and how many bits fill up the last one.
  function Letters(bytes: nat): nat {
    (8 * bytes + 4) / 5
  }

  // The letters of a number, the last one for its lowest five bits.
  function Digits(value: nat, n: nat): string {
    if n == 0 then "" else Digits(value / 32, n - 1) + [Letter(value % 32)]
  }

  // The encoding of section 6 of RFC 4648, without padding characters.
  function Encode(key: seq<byte>): string {
    var n := Letters(|key|);
    Digits(BytesValue(key) * Pow2(5 * n - 8 * |key|), n)
  }

  lemma {:induction false} Pow2Add(a: nat, b: nat)
    ensures Pow2(a) * Pow2(b) == Pow2(a + b)
  {
    if a > 0 {
      Pow2Add(a - 1, b);
      assert Pow2(a) * Pow2(b) == 2 * (Pow2(a - 1) * Pow2(b));
    }
  }

  lemma {:induction false} OneMore(n: nat)
    ensures Pow2(5 * n + 5) == 32 * Pow2(5 * n) && Pow2(8 * n + 8) == 256 * Pow2(8 * n)
  {
    PowersOf2();
    assert Pow2(8) == 2 * Pow2(7);
    Pow2Add(5, 5 * n);
    Pow2Add(8, 8 * n);
  }

  lemma {:induction false} DigitsValue(value: nat, n: nat)
    requires value < Pow2(5 * n)
    ensures |Digits(value, n)| == n && Readable(Digits(value, n)) && Value(Digits(value, n)) == value
  {
    if n > 0 {
      var front, last := Digits(value / 32, n - 1), Letter(value % 32);
      OneMore(n - 1);
      DigitsValue(value / 32, n - 1);
      DigitOfLetter(value % 32);
      assert Digits(value, n)[..n - 1] == front;
    }
  }

  lemma {:induction false} BytesBelow(key: seq<byte>)
    ensures BytesValue(key) < Pow2(8 * |key|)
  {
    if key != [] {
      OneMore(|key| - 1);
      BytesBelow(key[..|key| - 1]);
    }
  }

  // Keys of the same length with the same value are the same.
  lemma {:induction false} BytesUnique(a: seq<byte>, b: seq<byte>)
    requires |a| == |b| && BytesValue(a) == BytesValue(b)
    ensures a == b
  {
    if a != [] {
      var n := |a| - 1;
      BytesUnique(a[..n], b[..n]);
      assert a == a[..n] + [a[n]] && b == b[..n] + [b[n]];
    }
  }

  // A key with this length and value is what decoding gives for its encoding: the two are inverse.
  lemma {:induction false} EncodeDecodes(key: seq<byte>, decoded: seq<byte>)
    requires var secret := Encode(key);
      Readable(secret) ==>
        |decoded| == 5 * |secret| / 8 && BytesValue(decoded) == Value(secret) / Pow2(5 * |secret| % 8)
    ensures Readable(Encode(key)) && decoded == key
  {
    hide *;
    EncodedValue(key);
    LettersLeft(|key|);
    var p := Pow2(5 * Letters(|key|) - 8 * |key|);
    Quotient(BytesValue(key), p);
    assert BytesValue(decoded) == BytesValue(key) * p / p;
    BytesUnique(decoded, key);
  }

  lemma {:induction false} Quotient(x: nat, p: nat)
    requires p > 0
    ensures x * p / p == x
  {
    DivPlus(p, x, 0);
    assert p * x + 0 == x * p;
  }

  lemma {:induction false} EncodedValue(key: seq<byte>)
    ensures Readable(Encode(key)) && |Encode(key)| == Letters(|key|)
    ensures Value(Encode(key)) == BytesValue(key) * Pow2(5 * Letters(|key|) - 8 * |key|)
  {
    var m, n := |key|, Letters(|key|);
    var p := Pow2(5 * n - 8 * m);
    hide BytesValue, Digits, Value, Pow2;
    BytesBelow(key);
    Pow2Add(8 * m, 5 * n - 8 * m);
    Below(BytesValue(key), Pow2(8 * m), p);
    DigitsValue(BytesValue(key) * p, n);
  }

  lemma {:induction false} LettersLeft(m: nat)
    ensures 5 * Letters(m) % 8 == 5 * Letters(m) - 8 * m && 5 * Letters(m) / 8 == m
  {}

  lemma {:induction false} Below(x: nat, y: nat, p: nat)
    requires x < y && p > 0
    ensures x * p < y * p
  {}

  // Decoding gives back every encoded key.
  method DecodeEncoded(key: seq<byte>) returns (decoded: seq<byte>)
    ensures decoded == key
  {
    decoded := DecodeSecret(Encode(key));
    EncodeDecodes(key, decoded);
  }
}
