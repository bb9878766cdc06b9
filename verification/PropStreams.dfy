/** The byte streams under the binary item formats: little-endian integers and length-prefixed strings. */
module PropStreams {
  import opened Bytes
  import opened Wrappers

  // 256 to the power of `width`.
  function Limit(width: nat): (r: nat)
    ensures r > 0
  {
    if width == 0 then 1 else 256 * Limit(width - 1)
  }

  // The `width` low bytes of n, least significant first.
  function Le(width: nat, n: nat): (r: seq<byte>)
    ensures |r| == width
  {
    if width == 0 then [] else [n % 256] + Le(width - 1, n / 256)
  }

  function FromLe(s: seq<byte>): (r: nat)
    ensures r < Limit(|s|)
  {
    if s == [] then 0 else s[0] + 256 * FromLe(s[1..])
  }

  lemma {:induction false} MulGap(m: nat, a: nat, b: nat)
    requires a < b
    ensures m * a + m <= m * b
  {
    assert m * b == m * (b - 1) + m;
    if a < b - 1 {
      MulGap(m, a, b - 1);
    }
  }

  lemma {:induction false} ModUnique(n: nat, m: nat, q: nat, r: nat)
    requires m > 0 && n == m * q + r && r < m
    ensures n % m == r
  {
    if n / m < q {
      MulGap(m, n / m, q);
    }
    if q < n / m {
      MulGap(m, q, n / m);
    }
  }

  lemma {:induction false} LowByte(n: nat, p: nat)
    requires p > 0
    ensures n % (256 * p) == n % 256 + 256 * ((n / 256) % p)
  {
    var q := n / 256;
    assert q == p * (q / p) + q % p;
    assert 256 * (p * (q / p)) == (256 * p) * (q / p);
    ModUnique(n, 256 * p, q / p, 256 * (q % p) + n % 256);
  }

  // Writing keeps a value's low bytes, and reading gets them back.
  lemma {:induction false} FromLeLe(width: nat, n: nat)
    ensures FromLe(Le(width, n)) == n % Limit(width)
  {
    if width > 0 {
      FromLeLe(width - 1, n / 256);
      assert Le(width, n)[1..] == Le(width - 1, n / 256);
      LowByte(n, Limit(width - 1));
    }
  }

  lemma {:induction false} SmallMod(x: nat, limit: nat)
    requires x < limit
    ensures x % limit == x
  {}

  lemma {:induction false} OneByte(b: byte)
    ensures Le(1, b) == [b]
  {
    assert Le(0, 0) == [];
  }

  const MAX_STRING := 65535

  // A string too long for its 16-bit length is written as the empty one.
  function EncodeString(s: seq<byte>): seq<byte> {
    if |s| > MAX_STRING then Le(2, 0) else Le(2, |s|) + s
  }

  class PropWriteStream {
    var buffer: seq<byte>

    constructor ()
      ensures buffer == []
    {
      buffer := [];
    }

    method Write(width: nat, n: nat)
      modifies this
      ensures buffer == old(buffer) + Le(width, n)
    {
      var rest := n;
      var i := 0;
      while i < width
        invariant i <= width
        invariant buffer + Le(width - i, rest) == old(buffer) + Le(width, n)
      {
        buffer := buffer + [rest % 256];
        rest := rest / 256;
        i := i + 1;
      }
    }

    method WriteString(s: seq<byte>)
      modifies this
      ensures buffer == old(buffer) + EncodeString(s)
    {
      if |s| > MAX_STRING {
        Write(2, 0);
      } else {
        Write(2, |s|);
        buffer := buffer + s;
      }
    }
  }

  // The unread part of a stream after a value of `width` bytes, and that value.
  function TakeInt(width: nat, s: seq<byte>): (r: Option<(nat, seq<byte>)>)
    ensures r.Some? ==> |r.value.1| + width == |s|
  {
    if |s| < width then None else Some((FromLe(s[..width]), s[width..]))
  }

  function TakeString(s: seq<byte>): (r: Option<(seq<byte>, seq<byte>)>)
    ensures r.Some? ==> |r.value.1| + 2 <= |s|
  {
    var length := TakeInt(2, s);
    if length.None? || |length.value.1| < length.value.0 then None
    else Some((length.value.1[..length.value.0], length.value.1[length.value.0..]))
  }

  lemma {:induction false} FirstByte(s: seq<byte>)
    requires s != []
    ensures TakeInt(1, s) == Some((s[0] as nat, s[1..])) && s == [s[0]] + s[1..]
  {
    assert s[..1][1..] == [];
    assert FromLe(s[..1]) == s[0] + 256 * FromLe([]);
  }

  lemma {:induction false} TakeWritten(width: nat, n: nat, rest: seq<byte>)
    ensures TakeInt(width, Le(width, n) + rest) == Some((n % Limit(width), rest))
  {
    FromLeLe(width, n);
  }

  lemma {:induction false} TakeWrittenString(s: seq<byte>, rest: seq<byte>)
    ensures TakeString(EncodeString(s) + rest) == Some((if |s| > MAX_STRING then [] else s, rest))
  {
    var n := if |s| > MAX_STRING then 0 else |s|;
    var body := if |s| > MAX_STRING then [] else s;
    assert EncodeString(s) + rest == Le(2, n) + (body + rest);
    TakeWritten(2, n, body + rest);
    assert Limit(2) == 65536;
  }

  class PropStream {
    const data: seq<byte>
    var p: nat

    ghost predicate Valid()
      reads this
    {
      p <= |data|
    }

    // What is still to be read.
    function Rest(): seq<byte>
      requires Valid()
      reads this
    {
      data[p..]
    }

    constructor (bytes: seq<byte>)
      ensures Valid() && Rest() == bytes
    {
      data := bytes;
      p := 0;
    }

    // A read that fails leaves the stream where it was.
    method Read(width: nat) returns (r: Option<nat>)
      requires Valid()
      modifies this
      ensures Valid()
      ensures var t := TakeInt(width, old(Rest()));
              if t.None? then r.None? && p == old(p) else r == Some(t.value.0) && Rest() == t.value.1
    {
      if |data| - p < width {
        return None;
      }
      var n := FromLe(data[p..p + width]);
      assert Rest()[..width] == data[p..p + width];
      p := p + width;
      return Some(n);
    }

    method ReadString() returns (r: Option<seq<byte>>)
      requires Valid()
      modifies this
      ensures Valid() && |Rest()| <= |old(Rest())|
      ensures var t := TakeString(old(Rest()));
              if t.None? then r.None? else r == Some(t.value.0) && Rest() == t.value.1
    {
      var length := Read(2);
      if length.None? || |data| - p < length.value {
        return None;
      }
      r := Some(data[p..p + length.value]);
      assert Rest()[..length.value] == data[p..p + length.value];
      p := p + length.value;
    }

    method Skip(n: nat) returns (ok: bool)
      requires Valid()
      modifies this
      ensures Valid()
      ensures ok == (n <= |old(Rest())|)
      ensures if ok then Rest() == old(Rest())[n..] else p == old(p)
    {
      if |data| - p < n {
        return false;
      }
      p := p + n;
      return true;
    }
  }
}
