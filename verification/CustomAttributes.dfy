/** The tables of named values that scripts attach to items, and their bytes. */
module CustomAttributes {
  import opened Bytes
  import opened PropStreams
  import opened Wrappers

  // A value a script has given: a text, a 64-bit number, the bits of a floating point number, or a flag.
  datatype Custom = Text(text: seq<byte>) | Number(number: int) | Float(bits: nat) | Flag(flag: bool)

  // Entries in the order in which the table is walked through.
  datatype Named = Named(key: seq<byte>, value: Custom)

  // ---------------------------------------------------------------- tables

  function LowerCase(s: seq<byte>): (r: seq<byte>)
    ensures |r| == |s|
    ensures forall i | 0 <= i < |s| :: r[i] == if 'A' as int <= s[i] <= 'Z' as int then s[i] + 32 else s[i]
  {
    seq(|s|, i requires 0 <= i < |s| => if 'A' as int <= s[i] <= 'Z' as int then (s[i] + 32) as byte else s[i])
  }

  ghost predicate DistinctKeys(table: seq<Named>) {
    forall i, j | 0 <= i < j < |table| :: table[i].key != table[j].key
  }

  // Tables as scripts make them: every key in lower case and there once.
  ghost predicate WellKeyed(table: seq<Named>) {
    && DistinctKeys(table) && |table| < Limit(8)
    && forall i | 0 <= i < |table| :: LowerCase(table[i].key) == table[i].key
  }

  function Without(table: seq<Named>, key: seq<byte>): (r: seq<Named>)
    ensures |r| <= |table|
    ensures forall e | e in r :: e in table && e.key != key
    ensures (forall e | e in table :: e.key != key) ==> r == table
  {
    if table == [] then []
    else (if table[0].key == key then [] else [table[0]]) + Without(table[1..], key)
  }

  // Setting a value takes out an old one of the same key.
  function With(table: seq<Named>, entry: Named): (r: seq<Named>)
    ensures 1 <= |r| <= |table| + 1
  {
    Without(table, LowerCase(entry.key)) + [Named(LowerCase(entry.key), entry.value)]
  }

  function WithAll(table: seq<Named>, entries: seq<Named>): seq<Named>
    decreases |entries|
  {
    if entries == [] then table else WithAll(With(table, entries[0]), entries[1..])
  }

  // ---------------------------------------------------------------- bytes

  function Tag(v: Custom): byte {
    match v
    case Text(_) => 1
    case Number(_) => 2
    case Float(_) => 3
    case Flag(_) => 4
  }

  function Payload(v: Custom): seq<byte> {
    match v
    case Text(s) => EncodeString(s)
    case Number(n) => Le(8, n % Limit(8))
    case Float(bits) => Le(8, bits % Limit(8))
    case Flag(b) => Le(1, if b then 1 else 0)
  }

  function EncodeCustom(v: Custom): seq<byte> {
    [Tag(v)] + Payload(v)
  }

  function TakeCustom(s: seq<byte>): (r: Option<(Custom, seq<byte>)>)
    ensures r.Some? ==> |r.value.1| < |s|
  {
    if s == [] then None
    else if s[0] == 1 then
      var t := TakeString(s[1..]);
      if t.None? then None else Some((Text(t.value.0), t.value.1))
    else if s[0] == 2 then
      var t := TakeInt(8, s[1..]);
      if t.None? then None else Some((Number(Signed(t.value.0)), t.value.1))
    else if s[0] == 3 then
      var t := TakeInt(8, s[1..]);
      if t.None? then None else Some((Float(t.value.0), t.value.1))
    else if s[0] == 4 then
      var t := TakeInt(1, s[1..]);
      if t.None? then None else Some((Flag(t.value.0 != 0), t.value.1))
    else None
  }

  function Signed(u: nat): int {
    if u >= Limit(8) / 2 then u - Limit(8) else u
  }

  function EncodeNamed(entry: Named): seq<byte> {
    EncodeString(entry.key) + EncodeCustom(entry.value)
  }

  function EncodeEntries(table: seq<Named>): seq<byte> {
    if table == [] then [] else EncodeNamed(table[0]) + EncodeEntries(table[1..])
  }

  function EncodeTable(table: seq<Named>): seq<byte> {
    Le(8, |table| % Limit(8)) + EncodeEntries(table)
  }

  // Reads n entries behind those got so far.
  function TakeEntries(n: nat, s: seq<byte>, got: seq<Named>): (r: Option<(seq<Named>, seq<byte>)>)
    ensures r.Some? ==> |r.value.1| <= |s|
    decreases n
  {
    if n == 0 then Some((got, s))
    else
      var key := TakeString(s);
      if key.None? then None
      else
        var value := TakeCustom(key.value.1);
        if value.None? then None
        else TakeEntries(n - 1, value.value.1, got + [Named(key.value.0, value.value.0)])
  }

  function TakeTable(s: seq<byte>): (r: Option<(seq<Named>, seq<byte>)>)
    ensures r.Some? ==> |r.value.1| <= |s|
  {
    var size := TakeInt(8, s);
    if size.None? then None else TakeEntries(size.value.0, size.value.1, [])
  }

  // ---------------------------------------------------------------- what comes back

  function WireText(s: seq<byte>): seq<byte> {
    if |s| > MAX_STRING then [] else s
  }

  function WireCustom(v: Custom): Custom {
    match v
    case Text(s) => Text(WireText(s))
    case Number(n) => Number(Signed(n % Limit(8)))
    case Float(bits) => Float(bits % Limit(8))
    case Flag(_) => v
  }

  function WireNamed(entry: Named): Named {
    Named(WireText(entry.key), WireCustom(entry.value))
  }

  function WireTable(table: seq<Named>): (r: seq<Named>)
    ensures |r| == |table| && forall i | 0 <= i < |table| :: r[i] == WireNamed(table[i])
  {
    if table == [] then [] else [WireNamed(table[0])] + WireTable(table[1..])
  }

  predicate KeptCustom(v: Custom) {
    match v
    case Text(s) => |s| <= MAX_STRING
    case Number(n) => -0x8000_0000_0000_0000 <= n < 0x8000_0000_0000_0000
    case Float(bits) => bits < 0x1_0000_0000_0000_0000
    case Flag(_) => true
  }

  predicate KeptNamed(entry: Named) {
    |entry.key| <= MAX_STRING && KeptCustom(entry.value)
  }

  lemma {:induction false} Limit8()
    ensures Limit(8) == 0x1_0000_0000_0000_0000
  {
    assert Limit(4) == 256 * Limit(3) && Limit(3) == 256 * Limit(2) && Limit(2) == 256 * Limit(1);
    assert Limit(8) == 256 * Limit(7) && Limit(7) == 256 * Limit(6) && Limit(6) == 256 * Limit(5);
    assert Limit(5) == 256 * Limit(4) && Limit(1) == 256;
  }

  lemma {:induction false} TakeEncodedCustom(v: Custom, tail: seq<byte>)
    ensures TakeCustom(EncodeCustom(v) + tail) == Some((WireCustom(v), tail))
  {
    var s := EncodeCustom(v) + tail;
    Limit8();
    hide Limit, Le, TakeInt, EncodeString, TakeString, Signed;
    assert s[1..] == Payload(v) + tail;
    match v
    case Text(text) =>
      TakeWrittenString(text, tail);
    case Number(n) =>
      TakeWritten(8, n % Limit(8), tail);
    case Float(bits) =>
      TakeWritten(8, bits % Limit(8), tail);
    case Flag(b) =>
      TakeWritten(1, if b then 1 else 0, tail);
      OneByteLimit();
  }

  lemma {:induction false} OneByteLimit()
    ensures Limit(1) == 256
  {}

  lemma {:induction false} TakeEncodedNamed(n: nat, entry: Named, got: seq<Named>, later: seq<byte>)
    ensures TakeEntries(n + 1, EncodeNamed(entry) + later, got) == TakeEntries(n, later, got + [WireNamed(entry)])
  {
    hide EncodeCustom, TakeCustom, EncodeString, TakeString, WireCustom;
    var value := EncodeCustom(entry.value) + later;
    assert EncodeNamed(entry) + later == EncodeString(entry.key) + value;
    TakeWrittenString(entry.key, value);
    TakeEncodedCustom(entry.value, later);
  }

  lemma {:induction false} EntriesFirst(entries: seq<Named>)
    requires entries != []
    ensures EncodeEntries(entries) == EncodeNamed(entries[0]) + EncodeEntries(entries[1..])
    ensures WireTable(entries) == [WireNamed(entries[0])] + WireTable(entries[1..])
  {}

  lemma {:induction false} TakeEncodedEntries(entries: seq<Named>, got: seq<Named>, tail: seq<byte>)
    ensures TakeEntries(|entries|, EncodeEntries(entries) + tail, got) == Some((got + WireTable(entries), tail))
    decreases |entries|
  {
    hide EncodeNamed, TakeCustom, TakeString, WireNamed;
    if entries == [] {
      assert EncodeEntries(entries) + tail == tail && got + [] == got;
    } else {
      hide *;
      EntriesFirst(entries);
      var first, rest := entries[0], entries[1..];
      var later := EncodeEntries(rest) + tail;
      assert EncodeEntries(entries) + tail == EncodeNamed(first) + later;
      TakeEncodedNamed(|rest|, first, got, later);
      TakeEncodedEntries(rest, got + [WireNamed(first)], tail);
      assert got + [WireNamed(first)] + WireTable(rest) == got + WireTable(entries);
    }
  }

  // A table read back has exactly the entries written, as their widths carry them, and leaves what follows.
  lemma {:induction false} TakeEncodedTable(written: seq<Named>, tail: seq<byte>)
    requires |written| < Limit(8)
    ensures TakeTable(EncodeTable(written) + tail) == Some((WireTable(written), tail))
  {
    SmallMod(|written|, Limit(8));
    hide Limit, Le, TakeInt, TakeEntries, EncodeEntries, WireTable;
    assert EncodeTable(written) + tail == Le(8, |written| % Limit(8)) + (EncodeEntries(written) + tail);
    TakeWritten(8, |written| % Limit(8), EncodeEntries(written) + tail);
    TakeEncodedEntries(written, [], tail);
    assert [] + WireTable(written) == WireTable(written);
  }

  lemma {:induction false} WithAllMore(table: seq<Named>, entries: seq<Named>, entry: Named)
    ensures WithAll(table, entries + [entry]) == With(WithAll(table, entries), entry)
    decreases |entries|
  {
    hide With;
    if entries == [] {
      assert [entry][1..] == [];
    } else {
      assert (entries + [entry])[1..] == entries[1..] + [entry];
      WithAllMore(With(table, entries[0]), entries[1..], entry);
    }
  }

  lemma {:induction false} WithAllSome(table: seq<Named>, entries: seq<Named>)
    requires entries != []
    ensures WithAll(table, entries) != []
    decreases |entries|
  {
    if |entries| > 1 {
      WithAllSome(With(table, entries[0]), entries[1..]);
    }
  }

  // A table as the code keeps it: a value for each key.
  function Meaning(table: seq<Named>): map<seq<byte>, Custom> {
    if table == [] then map[] else map[table[0].key := table[0].value] + Meaning(table[1..])
  }

  // Setting values in such a table, one after the other.
  function Put(m: map<seq<byte>, Custom>, entries: seq<Named>): map<seq<byte>, Custom>
    decreases |entries|
  {
    if entries == [] then m else Put(m[LowerCase(entries[0].key) := entries[0].value], entries[1..])
  }

  lemma {:induction false} FirstWithout(k: seq<byte>, v: Custom, rest: map<seq<byte>, Custom>, key: seq<byte>)
    ensures (map[k := v] + rest) - {key} == if k == key then rest - {key} else map[k := v] + (rest - {key})
  {}

  lemma {:induction false} MeaningWithout(table: seq<Named>, key: seq<byte>)
    ensures Meaning(Without(table, key)) == Meaning(table) - {key}
  {
    if table != [] {
      var first, rest := table[0], Without(table[1..], key);
      MeaningWithout(table[1..], key);
      FirstWithout(first.key, first.value, Meaning(table[1..]), key);
      if first.key == key {
        assert [] + rest == rest;
      } else {
        assert ([first] + rest)[1..] == rest;
      }
    }
  }

  lemma {:induction false} MeaningMore(table: seq<Named>, entry: Named)
    ensures Meaning(table + [entry]) == Meaning(table)[entry.key := entry.value]
  {
    if table == [] {
      assert ([] + [entry])[1..] == [];
    } else {
      MeaningMore(table[1..], entry);
      assert (table + [entry])[1..] == table[1..] + [entry];
    }
  }

  lemma {:induction false} WithoutDistinct(table: seq<Named>, key: seq<byte>)
    requires DistinctKeys(table)
    ensures DistinctKeys(Without(table, key))
  {
    if table != [] {
      var rest := Without(table[1..], key);
      WithoutDistinct(table[1..], key);
      forall j | 0 <= j < |rest| ensures rest[j].key != table[0].key {
        assert rest[j] in table[1..];
      }
    }
  }

  lemma {:induction false} WithMeaning(table: seq<Named>, entry: Named)
    requires DistinctKeys(table)
    ensures DistinctKeys(With(table, entry))
    ensures Meaning(With(table, entry)) == Meaning(table)[LowerCase(entry.key) := entry.value]
  {
    hide LowerCase, Meaning;
    var key := LowerCase(entry.key);
    var front := Without(table, key);
    WithoutDistinct(table, key);
    MeaningWithout(table, key);
    MeaningMore(front, Named(key, entry.value));
    forall i | 0 <= i < |front| ensures front[i].key != key {
      assert front[i] in front;
    }
  }

  // Setting entries in a list of entries is setting them in the table the list stands for, and each key stays there
  // once.
  lemma {:induction false} WithAllMeaning(table: seq<Named>, entries: seq<Named>)
    requires DistinctKeys(table)
    ensures DistinctKeys(WithAll(table, entries))
    ensures Meaning(WithAll(table, entries)) == Put(Meaning(table), entries)
    decreases |entries|
  {
    hide LowerCase, With, DistinctKeys, Meaning;
    if entries != [] {
      WithMeaning(table, entries[0]);
      WithAllMeaning(With(table, entries[0]), entries[1..]);
    }
  }

  // Setting entries with new keys, one after the other, appends them.
  lemma {:induction false} WithAllNew(table: seq<Named>, entries: seq<Named>)
    requires WellKeyed(entries)
    requires forall e, i | e in table && 0 <= i < |entries| :: e.key != entries[i].key
    ensures WithAll(table, entries) == table + entries
    decreases |entries|
  {
    hide LowerCase, With, Limit;
    if entries == [] {
      assert table + entries == table;
    } else {
      WithNew(table, entries[0]);
      var next, rest := table + [entries[0]], entries[1..];
      assert forall i | 0 <= i < |rest| :: rest[i] == entries[i + 1];
      WithAllNew(next, rest);
      assert next + rest == table + entries;
    }
  }

  lemma {:induction false} WithNew(table: seq<Named>, entry: Named)
    requires LowerCase(entry.key) == entry.key && forall e | e in table :: e.key != entry.key
    ensures With(table, entry) == table + [entry]
  {}

  // As many entries are left as were set only if none took the place of another, so if all are there in order.
  lemma {:induction false} WithAllSize(table: seq<Named>, entries: seq<Named>)
    ensures |WithAll(table, entries)| <= |table| + |entries|
    ensures |WithAll(table, entries)| == |table| + |entries| ==>
      && WithAll(table, entries)[..|table|] == table
      && forall i | 0 <= i < |entries| ::
           WithAll(table, entries)[|table| + i] == Named(LowerCase(entries[i].key), entries[i].value)
    decreases |entries|
  {
    hide LowerCase, With;
    if entries != [] {
      var next, rest := With(table, entries[0]), entries[1..];
      WithAllSize(next, rest);
      var all := WithAll(table, entries);
      if |all| == |table| + |entries| {
        WithFull(table, entries[0]);
        assert all[..|table|] == all[..|next|][..|table|] == table;
        forall i | 0 <= i < |entries| ensures all[|table| + i] == Named(LowerCase(entries[i].key), entries[i].value) {
          if i == 0 {
            assert all[|table|] == all[..|next|][|table|];
          } else {
            assert entries[i] == rest[i - 1] && all[|next| + (i - 1)] == all[|table| + i];
          }
        }
      }
    }
  }

  lemma {:induction false} WithFull(table: seq<Named>, entry: Named)
    requires |With(table, entry)| == |table| + 1
    ensures With(table, entry) == table + [Named(LowerCase(entry.key), entry.value)]
  {
    WithoutSize(table, LowerCase(entry.key));
  }

  lemma {:induction false} WithoutSize(table: seq<Named>, key: seq<byte>)
    ensures |Without(table, key)| == |table| ==> Without(table, key) == table
  {
    if table != [] {
      WithoutSize(table[1..], key);
    }
  }

  lemma {:induction false} KeptNamedIff(entry: Named)
    requires LowerCase(entry.key) == entry.key
    ensures KeptNamed(entry) <==>
      Named(LowerCase(WireNamed(entry).key), WireNamed(entry).value) == entry
  {
    Limit8();
    hide Limit;
    match entry.value
    case Number(n) => SignedIff(n);
    case _ =>
  }

  lemma {:induction false} SignedIff(n: int)
    ensures Signed(n % Limit(8)) == n <==> -0x8000_0000_0000_0000 <= n < 0x8000_0000_0000_0000
  {
    Limit8();
    hide Limit;
  }

  lemma {:induction false} KeptTable(table: seq<Named>)
    requires WellKeyed(table) && forall i | 0 <= i < |table| :: KeptNamed(table[i])
    ensures WithAll([], WireTable(table)) == table
  {
    hide LowerCase, WireNamed, KeptNamed, With, Limit, WithAll;
    forall i | 0 <= i < |table| ensures WireTable(table)[i] == table[i] {
      KeptAlike(table[i]);
    }
    assert WireTable(table) == table;
    WithAllNew([], table);
    assert [] + table == table;
  }

  lemma {:induction false} TableKept(table: seq<Named>, i: nat)
    requires WellKeyed(table) && WithAll([], WireTable(table)) == table && i < |table|
    ensures KeptNamed(table[i])
  {
    hide *;
    LowerKey(table, i);
    WithAllAt(WireTable(table), i);
    KeptNamedIff(table[i]);
  }

  lemma {:induction false} LowerKey(table: seq<Named>, i: nat)
    requires WellKeyed(table) && i < |table|
    ensures LowerCase(table[i].key) == table[i].key
  {}

  lemma {:induction false} WithAllAt(entries: seq<Named>, i: nat)
    requires i < |entries| == |WithAll([], entries)|
    ensures WithAll([], entries)[i] == Named(LowerCase(entries[i].key), entries[i].value)
  {
    hide *;
    var none: seq<Named> := [];
    WithAllSize(none, entries);
    assert WithAll(none, entries)[|none| + i] == WithAll([], entries)[i];
  }

  // A table comes back as it was exactly when every key is short enough and every value fits.
  lemma {:induction false} TableKeptIff(table: seq<Named>)
    requires WellKeyed(table)
    ensures WithAll([], WireTable(table)) == table <==> forall i | 0 <= i < |table| :: KeptNamed(table[i])
  {
    hide *;
    if forall i | 0 <= i < |table| :: KeptNamed(table[i]) {
      KeptTable(table);
    }
    if WithAll([], WireTable(table)) == table {
      forall i | 0 <= i < |table| ensures KeptNamed(table[i]) {
        TableKept(table, i);
      }
    }
  }

  lemma {:induction false} KeptAlike(entry: Named)
    requires KeptNamed(entry) && LowerCase(entry.key) == entry.key
    ensures WireNamed(entry) == entry
  {
    KeptNamedIff(entry);
  }

  // ---------------------------------------------------------------- the stream operations

  method Serialize(v: Custom, stream: PropWriteStream)
    modifies stream
    ensures stream.buffer == old(stream.buffer) + EncodeCustom(v)
  {
    hide Le, Limit, EncodeString, Tag;
    OneByte(Tag(v));
    stream.Write(1, Tag(v));
    match v {
      case Text(s) => stream.WriteString(s);
      case Number(n) => stream.Write(8, n % Limit(8));
      case Float(bits) => stream.Write(8, bits % Limit(8));
      case Flag(b) => stream.Write(1, if b then 1 else 0);
    }
  }

  method SerializeTable(table: seq<Named>, stream: PropWriteStream)
    modifies stream
    ensures stream.buffer == old(stream.buffer) + EncodeTable(table)
  {
    hide Limit, Le, EncodeNamed;
    stream.Write(8, |table| % Limit(8));
    ghost var begun := stream.buffer;
    assert table[0..] == table;
    var i := 0;
    while i < |table|
      invariant i <= |table|
      invariant stream.buffer + EncodeEntries(table[i..]) == begun + EncodeEntries(table)
    {
      ghost var before, later := stream.buffer, EncodeEntries(table[i + 1..]);
      assert table[i..][1..] == table[i + 1..];
      SerializeNamed(table[i], stream);
      assert before + (EncodeNamed(table[i]) + later) == before + EncodeNamed(table[i]) + later;
      i := i + 1;
    }
    assert stream.buffer + [] == stream.buffer;
  }

  method SerializeNamed(entry: Named, stream: PropWriteStream)
    modifies stream
    ensures stream.buffer == old(stream.buffer) + EncodeNamed(entry)
  {
    hide EncodeCustom, EncodeString;
    stream.WriteString(entry.key);
    Serialize(entry.value, stream);
  }

  method Unserialize(stream: PropStream) returns (r: Option<Custom>)
    requires stream.Valid()
    modifies stream
    ensures stream.Valid() && |stream.Rest()| <= |old(stream.Rest())|
    ensures var t := TakeCustom(old(stream.Rest()));
            if t.None? then r.None? else r == Some(t.value.0) && stream.Rest() == t.value.1
  {
    hide Signed, TakeString;
    ghost var s := stream.Rest();
    var pos := stream.Read(1);
    if pos.None? {
      return None;
    }
    assert pos.value == s[0] && stream.Rest() == s[1..] by { FirstByte(s); }
    hide TakeInt;
    match pos.value {
      case 1 =>
        var text := stream.ReadString();
        return if text.None? then None else Some(Text(text.value));
      case 2 =>
        var n := stream.Read(8);
        return if n.None? then None else Some(Number(Signed(n.value)));
      case 3 =>
        var bits := stream.Read(8);
        return if bits.None? then None else Some(Float(bits.value));
      case 4 =>
        var b := stream.Read(1);
        return if b.None? then None else Some(Flag(b.value != 0));
      case _ =>
        return None;
    }
  }

  // Reads a table and sets its values one after the other.
  method UnserializeTable(before: seq<Named>, stream: PropStream) returns (r: Option<seq<Named>>)
    requires stream.Valid()
    modifies stream
    ensures stream.Valid() && |stream.Rest()| <= |old(stream.Rest())|
    ensures var t := TakeTable(old(stream.Rest()));
            if t.None? then r.None? else r == Some(WithAll(before, t.value.0)) && stream.Rest() == t.value.1
  {
    hide TakeInt, TakeString, TakeCustom, With;
    var size := stream.Read(8);
    if size.None? {
      return None;
    }
    var table := before;
    ghost var got := [];
    var i := 0;
    while i < size.value
      invariant i <= size.value && stream.Valid() && |stream.Rest()| <= |old(stream.Rest())|
      invariant TakeEntries(size.value - i, stream.Rest(), got) == TakeTable(old(stream.Rest()))
      invariant table == WithAll(before, got)
    {
      var key := stream.ReadString();
      if key.None? {
        return None;
      }
      var value := Unserialize(stream);
      if value.None? {
        return None;
      }
      WithAllMore(before, got, Named(key.value, value.value));
      table := With(table, Named(key.value, value.value));
      got := got + [Named(key.value, value.value)];
      i := i + 1;
    }
    return Some(table);
  }
}
