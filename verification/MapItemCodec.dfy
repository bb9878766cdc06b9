/** The nested byte form of house items: id, tagged attributes, and inside a container its contents. */
module MapItemCodec {
  import opened Bytes
  import opened Wrappers
  import opened PropStreams
  import CustomAttributes

  type ItemId = x: int | 0 <= x < 65536

  // What the codec asks of an item's type. `fluid` covers fluid containers and splashes.
  datatype ItemType = ItemType(creatable: bool, container: bool, fluid: bool, stackable: bool,
                               charges: ItemId, moveable: bool, decayTime: nat)

  datatype Attr =
    | Charges | ActionId | Text | WrittenDate | WrittenBy | Description | Duration | DecayState | Name | Article
    | PluralName | Weight | Attack | Defense | ExtraDefense | Armor | HitChance | ShootRange | Custom

  datatype Value = Num(n: int) | Str(s: seq<byte>) | Table(entries: seq<CustomAttributes.Named>)

  // `inside` lists a container's contents, front first.
  datatype Item = Item(id: ItemId, count: byte, fluidType: Option<nat>, attrs: map<Attr, Value>, inside: seq<Item>)

  const ATTR_END: byte := 0
  const ATTR_RUNE_CHARGES: byte := 12
  const ATTR_COUNT: byte := 15
  const ATTR_CONTAINER_ITEMS: byte := 23

  const DECAYING_TRUE := 1
  const DECAYING_PENDING := 2

  function Tag(a: Attr): byte {
    match a
    case ActionId => 4 case Text => 6 case Description => 7 case Duration => 16 case DecayState => 17
    case WrittenDate => 18 case WrittenBy => 19 case Charges => 22 case Name => 24 case Article => 25
    case PluralName => 26 case Weight => 27 case Attack => 28 case Defense => 29 case ExtraDefense => 30
    case Armor => 31 case HitChance => 32 case ShootRange => 33 case Custom => 34
  }

  function AttrOf(tag: byte): Option<Attr> {
    match tag
    case 4 => Some(ActionId) case 6 => Some(Text) case 7 => Some(Description) case 16 => Some(Duration)
    case 17 => Some(DecayState) case 18 => Some(WrittenDate) case 19 => Some(WrittenBy) case 22 => Some(Charges)
    case 24 => Some(Name) case 25 => Some(Article) case 26 => Some(PluralName) case 27 => Some(Weight)
    case 28 => Some(Attack) case 29 => Some(Defense) case 30 => Some(ExtraDefense) case 31 => Some(Armor)
    case 32 => Some(HitChance) case 33 => Some(ShootRange) case 34 => Some(Custom)
    case _ => None
  }

  // Bytes of attributes that only other item classes keep; a plain item passes over them.
  function SkipWidth(tag: byte): Option<nat> {
    match tag
    case 5 => Some(2) case 8 => Some(5) case 10 => Some(2) case 14 => Some(1) case 20 => Some(4) case 21 => Some(4)
    case _ => None
  }

  predicate IsText(a: Attr) {
    a.Text? || a.WrittenBy? || a.Description? || a.Name? || a.Article? || a.PluralName?
  }

  function Width(a: Attr): nat {
    match a
    case DecayState => 1 case HitChance => 1 case ShootRange => 1
    case Charges => 2 case ActionId => 2
    case _ => 4
  }

  predicate IsSigned(a: Attr) {
    a.WrittenDate? || a.Duration? || a.Attack? || a.Defense? || a.ExtraDefense? || a.Armor? || a.HitChance?
  }

  // The order in which serializeAttr writes what follows the count.
  const SAVE_ORDER: seq<Attr> :=
    [ActionId, Text, WrittenDate, WrittenBy, Description, Duration, DecayState, Name, Article, PluralName,
     Weight, Attack, Defense, ExtraDefense, Armor, HitChance, ShootRange, Custom]

  // What kind of value an attribute has.
  predicate Fits(a: Attr, v: Value) {
    IsText(a) == v.Str? && a.Custom? == v.Table?
  }

  // Attribute setters keep strings under string attributes, and never store an empty one.
  ghost predicate WellTyped(item: Item) {
    && (forall a | a in item.attrs :: Fits(a, item.attrs[a]))
    && (Custom in item.attrs ==> CustomAttributes.WellKeyed(item.attrs[Custom].entries))
    && (forall a | a in item.attrs && item.attrs[a].Str? :: item.attrs[a].s != [])
  }

  // ---------------------------------------------------------------- one item's attributes

  function SubType(ty: ItemType, item: Item): nat
    requires WellTyped(item)
  {
    if ty.fluid then if item.fluidType.Some? then item.fluidType.value else 0 else item.count
  }

  function SetSubType(ty: ItemType, item: Item, n: nat): Item {
    if ty.fluid then item.(fluidType := Some(n))
    else if ty.stackable then item.(count := n % 256)
    else if ty.charges != 0 then item.(attrs := item.attrs[Charges := Num(n)])
    else item.(count := n % 256)
  }

  // A newly created item: its type's default charges and duration.
  function Fresh(ty: ItemType, id: ItemId): Item {
    var item := Item(id, 1, if ty.fluid then Some(if ty.stackable then 1 else 0) else None, map[], []);
    var charged :=
      if !ty.fluid && !ty.stackable && ty.charges != 0 then item.(attrs := map[Charges := Num(ty.charges)]) else item;
    if ty.decayTime != 0 then charged.(attrs := charged.attrs[Duration := Num(ty.decayTime * 1000)]) else charged
  }

  predicate Stored(ty: ItemType, item: Item, a: Attr)
    requires WellTyped(item)
  {
    a in item.attrs &&
    match a
    case Charges => item.attrs[a].n % 65536 != 0
    case ActionId => ty.moveable && item.attrs[a].n % 65536 != 0
    case WrittenDate => item.attrs[a].n != 0
    case DecayState => item.attrs[a].n == DECAYING_TRUE || item.attrs[a].n == DECAYING_PENDING
    case _ => true
  }

  function Payload(a: Attr, v: Value): seq<byte> {
    match v
    case Str(s) => EncodeString(s)
    case Num(n) => Le(Width(a), n % Limit(Width(a)))
    case Table(entries) => CustomAttributes.EncodeTable(entries)
  }

  function EncodeField(ty: ItemType, item: Item, a: Attr): seq<byte>
    requires WellTyped(item)
  {
    if Stored(ty, item, a) then [Tag(a)] + Payload(a, item.attrs[a]) else []
  }

  function EncodeFields(ty: ItemType, item: Item, order: seq<Attr>): seq<byte>
    requires WellTyped(item)
  {
    if order == [] then [] else EncodeField(ty, item, order[0]) + EncodeFields(ty, item, order[1..])
  }

  function EncodeAttrs(ty: ItemType, item: Item): seq<byte>
    requires WellTyped(item)
  {
    (if ty.stackable || ty.fluid then [ATTR_COUNT] + Le(1, SubType(ty, item) % 256) else [])
    + EncodeFields(ty, item, [Charges] + SAVE_ORDER)
  }

  // What the wire keeps of a value, read at its width and sign.
  function FromWire(a: Attr, u: nat): int {
    if IsSigned(a) && u >= Limit(Width(a)) / 2 then u - Limit(Width(a)) else u
  }

  function TakeValue(a: Attr, s: seq<byte>): (r: Option<(Value, seq<byte>)>)
    ensures r.Some? ==> |r.value.1| <= |s|
  {
    if IsText(a) then
      var t := TakeString(s);
      if t.None? then None else Some((Str(t.value.0), t.value.1))
    else if a.Custom? then
      var t := CustomAttributes.TakeTable(s);
      if t.None? then None else Some((Table(t.value.0), t.value.1))
    else
      var t := TakeInt(Width(a), s);
      if t.None? then None else Some((Num(FromWire(a, t.value.0)), t.value.1))
  }

  function TableOf(item: Item): seq<CustomAttributes.Named> {
    if Custom in item.attrs && item.attrs[Custom].Table? then item.attrs[Custom].entries else []
  }

  // The setter that readAttr calls for an attribute.
  function SetAttr(ty: ItemType, item: Item, a: Attr, v: Value): Item {
    match v
    case Str(s) => if s == [] then item else item.(attrs := item.attrs[a := v])
    case Table(entries) =>
      if entries == [] then item
      else item.(attrs := item.attrs[a := Table(CustomAttributes.WithAll(TableOf(item), entries))])
    case Num(n) =>
      match a
      case Charges => SetSubType(ty, item, if n < 0 then 0 else n)
      case ActionId => item.(attrs := item.attrs[a := Num(if n < 100 then 100 else n)])
      case Duration => item.(attrs := item.attrs[a := Num(if n < 0 then 0 else n)])
      case DecayState => if n != 0 then item.(attrs := item.attrs[a := Num(DECAYING_PENDING)]) else item
      case _ => item.(attrs := item.attrs[a := v])
  }

  // Reading attributes stops at the end marker, at the count of a container's contents, or at the end.
  datatype AttrsRead = Malformed | AttrsRead(item: Item, announced: nat, rest: seq<byte>)

  function TakeAttrs(ty: ItemType, item: Item, s: seq<byte>): (r: AttrsRead)
    ensures r.AttrsRead? ==> |r.rest| <= |s|
    decreases |s|
  {
    if s == [] then AttrsRead(item, 0, [])
    else
      var tag, rest := s[0], s[1..];
      if tag == ATTR_END then AttrsRead(item, 0, rest)
      else if tag == ATTR_CONTAINER_ITEMS then
        var n := TakeInt(4, rest);
        if !ty.container || n.None? then Malformed else AttrsRead(item, n.value.0, n.value.1)
      else if tag == ATTR_COUNT || tag == ATTR_RUNE_CHARGES then
        var n := TakeInt(1, rest);
        if n.None? then Malformed else TakeAttrs(ty, SetSubType(ty, item, n.value.0), n.value.1)
      else if AttrOf(tag).Some? then
        var v := TakeValue(AttrOf(tag).value, rest);
        if v.None? then Malformed else TakeAttrs(ty, SetAttr(ty, item, AttrOf(tag).value, v.value.0), v.value.1)
      else if SkipWidth(tag).Some? && SkipWidth(tag).value <= |rest| then
        TakeAttrs(ty, item, rest[SkipWidth(tag).value..])
      else Malformed
  }

  // What an attribute is after one write and read.
  function Wire(a: Attr, v: Value): (w: Value)
    ensures w.Table? <==> v.Table?
  {
    match v
    case Str(s) => if |s| > MAX_STRING then Str([]) else v
    case Num(n) => Num(FromWire(a, n % Limit(Width(a))))
    case Table(entries) => Table(CustomAttributes.WireTable(entries))
  }

  function RestoreFields(ty: ItemType, item: Item, order: seq<Attr>, loaded: Item): Item
    requires WellTyped(item)
  {
    if order == [] then loaded
    else RestoreFields(ty, item, order[1..],
      if Stored(ty, item, order[0]) then SetAttr(ty, loaded, order[0], Wire(order[0], item.attrs[order[0]]))
        else loaded)
  }

  // The item that one save and load of `item` yields, contents aside.
  function Restored(ty: ItemType, item: Item): Item
    requires WellTyped(item)
  {
    var made := Fresh(ty, item.id);
    RestoreFields(ty, item, [Charges] + SAVE_ORDER,
                  if ty.stackable || ty.fluid then SetSubType(ty, made, SubType(ty, item) % 256) else made)
  }

  lemma {:induction false} TakePayload(a: Attr, v: Value, tail: seq<byte>)
    requires Fits(a, v) && (v.Table? ==> |v.entries| < Limit(8))
    ensures TakeValue(a, Payload(a, v) + tail) == Some((Wire(a, v), tail))
  {
    match v
    case Str(s) => TakeWrittenString(s, tail);
    case Num(n) =>
      TakeWritten(Width(a), n % Limit(Width(a)), tail);
      SmallMod(n % Limit(Width(a)), Limit(Width(a)));
      hide Limit, Le, Width, FromWire, TakeInt;
      assert TakeInt(Width(a), Payload(a, v) + tail) == Some((n % Limit(Width(a)), tail));
    case Table(entries) => CustomAttributes.TakeEncodedTable(entries, tail);
  }

  lemma {:induction false} TagFacts(a: Attr)
    ensures AttrOf(Tag(a)) == Some(a)
    ensures Tag(a) != ATTR_END && Tag(a) != ATTR_CONTAINER_ITEMS && Tag(a) != ATTR_COUNT && Tag(a) != ATTR_RUNE_CHARGES
  {}

  lemma {:induction false} TakeField(ty: ItemType, a: Attr, v: Value, loaded: Item, later: seq<byte>)
    requires Fits(a, v) && (v.Table? ==> |v.entries| < Limit(8))
    ensures TakeAttrs(ty, loaded, [Tag(a)] + Payload(a, v) + later) ==
      TakeAttrs(ty, SetAttr(ty, loaded, a, Wire(a, v)), later)
  {
    hide Tag, AttrOf, SetAttr, Wire, Payload, TakeValue, SetSubType;
    var s := [Tag(a)] + Payload(a, v) + later;
    assert s[0] == Tag(a) && s[1..] == Payload(a, v) + later;
    TagFacts(a);
    TakePayload(a, v, later);
  }

  lemma {:induction false} TakeFields(ty: ItemType, item: Item, order: seq<Attr>, loaded: Item, tail: seq<byte>)
    requires WellTyped(item)
    ensures TakeAttrs(ty, loaded, EncodeFields(ty, item, order) + tail) ==
      TakeAttrs(ty, RestoreFields(ty, item, order, loaded), tail)
    decreases order
  {
    hide TakeAttrs, SetAttr, Wire, Payload;
    if order == [] {
      assert EncodeFields(ty, item, order) + tail == tail;
    } else {
      var a, later := order[0], EncodeFields(ty, item, order[1..]) + tail;
      assert EncodeFields(ty, item, order) + tail == EncodeField(ty, item, a) + later;
      if Stored(ty, item, a) {
        TakeField(ty, a, item.attrs[a], loaded, later);
        TakeFields(ty, item, order[1..], SetAttr(ty, loaded, a, Wire(a, item.attrs[a])), tail);
      } else {
        assert EncodeField(ty, item, a) + later == later;
        TakeFields(ty, item, order[1..], loaded, tail);
      }
    }
  }

  lemma {:induction false} TakeCount(ty: ItemType, loaded: Item, n: nat, later: seq<byte>)
    ensures TakeAttrs(ty, loaded, [ATTR_COUNT] + Le(1, n % 256) + later) ==
      TakeAttrs(ty, SetSubType(ty, loaded, n % 256), later)
  {
    hide SetSubType, AttrOf, SkipWidth, TakeValue, SetAttr, Le;
    var s := [ATTR_COUNT] + Le(1, n % 256) + later;
    assert s[1..] == Le(1, n % 256) + later;
    TakeWritten(1, n % 256, later);
    assert Limit(1) == 256;
  }

  // Reading what was written sets exactly the stored attributes and goes on with what follows.
  lemma {:induction false} TakeEncoded(ty: ItemType, item: Item, tail: seq<byte>)
    requires WellTyped(item)
    ensures TakeAttrs(ty, Fresh(ty, item.id), EncodeAttrs(ty, item) + tail) == TakeAttrs(ty, Restored(ty, item), tail)
  {
    hide TakeAttrs, EncodeFields, RestoreFields, SetSubType, Fresh;
    var order := [Charges] + SAVE_ORDER;
    var made, later := Fresh(ty, item.id), EncodeFields(ty, item, order) + tail;
    if ty.stackable || ty.fluid {
      var n := SubType(ty, item);
      assert EncodeAttrs(ty, item) + tail == [ATTR_COUNT] + Le(1, n % 256) + later;
      TakeCount(ty, made, n, later);
      TakeFields(ty, item, order, SetSubType(ty, made, n % 256), tail);
    } else {
      assert EncodeAttrs(ty, item) + tail == later;
      TakeFields(ty, item, order, made, tail);
    }
  }

  // ---------------------------------------------------------------- which items come back unchanged

  function Lookup(m: map<Attr, Value>, a: Attr): Option<Value> {
    if a in m then Some(m[a]) else None
  }

  // The count, the fluid type and the charges share the two fields COUNT and CHARGES.
  predicate SubTypeKept(ty: ItemType, item: Item)
    requires WellTyped(item)
  {
    if ty.fluid then item.count == 1 && item.fluidType.Some? && item.fluidType.value < 256 && Charges !in item.attrs
    else
      && item.fluidType.None?
      && (!ty.stackable ==> item.count == 1)
      && (if !ty.stackable && ty.charges != 0 then Charges in item.attrs && 1 <= item.attrs[Charges].n <= 65535
          else Charges !in item.attrs)
  }

  // Present with a value that its field can carry, or absent without a default to take its place.
  predicate AttrKept(ty: ItemType, item: Item, a: Attr)
    requires WellTyped(item)
  {
    if a !in item.attrs then a == Duration ==> ty.decayTime == 0
    else if IsText(a) then |item.attrs[a].s| <= MAX_STRING
    else if a.Custom? then
      var entries := item.attrs[a].entries;
      entries != [] && forall i | 0 <= i < |entries| :: CustomAttributes.KeptNamed(entries[i])
    else
      var n := item.attrs[a].n;
      match a
      case Charges => true
      case ActionId => ty.moveable && 100 <= n <= 65535
      case WrittenDate => n != 0 && -0x8000_0000 <= n < 0x8000_0000
      case Duration => 0 <= n < 0x8000_0000
      case DecayState => n == DECAYING_PENDING
      case Weight => 0 <= n < 0x1_0000_0000
      case ShootRange => 0 <= n < 256
      case HitChance => -128 <= n < 128
      case _ => -0x8000_0000 <= n < 0x8000_0000
  }

  ghost predicate Kept(ty: ItemType, item: Item)
    requires WellTyped(item)
  {
    SubTypeKept(ty, item) && forall a :: AttrKept(ty, item, a)
  }

  lemma {:induction false} Limits()
    ensures Limit(1) == 256 && Limit(2) == 65536 && Limit(4) == 0x1_0000_0000
  {
    assert Limit(2) == 256 * Limit(1) && Limit(3) == 256 * Limit(2) && Limit(4) == 256 * Limit(3);
  }

  // Every setter but that of the charges touches its own attribute only.
  lemma {:induction false} SetAttrAlone(ty: ItemType, loaded: Item, a: Attr, v: Value, b: Attr)
    requires a != Charges
    ensures var r := SetAttr(ty, loaded, a, v);
            r == loaded.(attrs := r.attrs) && (b != a ==> Lookup(r.attrs, b) == Lookup(loaded.attrs, b))
  {}

  lemma {:induction false} RestoreOne(ty: ItemType, item: Item, order: seq<Attr>, loaded: Item, b: Attr)
    requires WellTyped(item) && Charges !in order
    requires forall i, j | 0 <= i < j < |order| :: order[i] != order[j]
    ensures var r := RestoreFields(ty, item, order, loaded);
      && r == loaded.(attrs := r.attrs)
      && Lookup(r.attrs, b) ==
           Lookup((if b in order && Stored(ty, item, b) then SetAttr(ty, loaded, b, Wire(b, item.attrs[b]))
                   else loaded).attrs, b)
    decreases order
  {
    hide SetAttr, Wire;
    if order != [] {
      var a := order[0];
      var next := if Stored(ty, item, a) then SetAttr(ty, loaded, a, Wire(a, item.attrs[a])) else loaded;
      if Stored(ty, item, a) {
        SetAttrAlone(ty, loaded, a, Wire(a, item.attrs[a]), b);
      }
      RestoreOne(ty, item, order[1..], next, b);
      assert b in order <==> b == a || b in order[1..];
      if b in order[1..] {
        assert b != a;
        SetAttrSlot(ty, loaded, next, b, if Stored(ty, item, b) then Wire(b, item.attrs[b]) else Str([]));
      }
    }
  }

  lemma {:induction false} SetAttrSlot(ty: ItemType, x: Item, y: Item, a: Attr, v: Value)
    requires a != Charges && (v.Table? ==> a.Custom?) && Lookup(x.attrs, a) == Lookup(y.attrs, a)
    ensures Lookup(SetAttr(ty, x, a, v).attrs, a) == Lookup(SetAttr(ty, y, a, v).attrs, a)
  {}

  // After the count and the charges have been read.
  function Counted(ty: ItemType, item: Item): Item
    requires WellTyped(item)
  {
    var made := Fresh(ty, item.id);
    var counted := if ty.stackable || ty.fluid then SetSubType(ty, made, SubType(ty, item) % 256) else made;
    if Stored(ty, item, Charges) then SetAttr(ty, counted, Charges, Wire(Charges, item.attrs[Charges])) else counted
  }

  // Every attribute but the charges is saved once.
  lemma {:induction false} SaveOrder(b: Attr)
    ensures Charges !in SAVE_ORDER && (b in SAVE_ORDER <==> b != Charges)
    ensures forall i, j | 0 <= i < j < |SAVE_ORDER| :: SAVE_ORDER[i] != SAVE_ORDER[j]
  {
    assert forall i | 0 <= i < |SAVE_ORDER| :: SavePlace(SAVE_ORDER[i]) == i;
    assert b != Charges ==> SAVE_ORDER[SavePlace(b)] == b;
  }

  function SavePlace(a: Attr): int {
    match a
    case Charges => -1
    case ActionId => 0
    case Text => 1
    case WrittenDate => 2
    case WrittenBy => 3
    case Description => 4
    case Duration => 5
    case DecayState => 6
    case Name => 7
    case Article => 8
    case PluralName => 9
    case Weight => 10
    case Attack => 11
    case Defense => 12
    case ExtraDefense => 13
    case Armor => 14
    case HitChance => 15
    case ShootRange => 16
    case Custom => 17
  }

  lemma {:induction false} RestoredFromCounted(ty: ItemType, item: Item, b: Attr)
    requires WellTyped(item)
    ensures var r := Restored(ty, item);
      && r == Counted(ty, item).(attrs := r.attrs)
      && Lookup(r.attrs, b) ==
           Lookup((if b != Charges && Stored(ty, item, b)
                   then SetAttr(ty, Counted(ty, item), b, Wire(b, item.attrs[b])) else Counted(ty, item)).attrs, b)
  {
    hide SetAttr, Wire, Stored, WellTyped, Fresh, SetSubType;
    assert ([Charges] + SAVE_ORDER)[1..] == SAVE_ORDER;
    SaveOrder(b);
    RestoreOne(ty, item, SAVE_ORDER, Counted(ty, item), b);
  }

  lemma {:induction false} CountedAttr(ty: ItemType, item: Item, a: Attr)
    requires WellTyped(item) && a != Charges
    ensures Lookup(Counted(ty, item).attrs, a) ==
      if a == Duration && ty.decayTime != 0 then Some(Num(ty.decayTime * 1000)) else None
  {}

  lemma {:induction false} SignedKept(n: int, limit: int)
    requires limit == 256 || limit == 65536 || limit == 0x1_0000_0000
    ensures (if n % limit >= limit / 2 then n % limit - limit else n % limit) == n <==> -(limit / 2) <= n < limit / 2
  {
    if limit == 256 {
    } else if limit == 65536 {
    } else {
    }
  }

  lemma {:induction false} WireKept(a: Attr, n: int)
    requires !IsText(a)
    ensures var limit := Limit(Width(a));
            Wire(a, Num(n)) == Num(n) <==> if IsSigned(a) then -(limit / 2) <= n < limit / 2 else 0 <= n < limit
  {
    Limits();
    var limit := Limit(Width(a));
    assert Wire(a, Num(n)) == Num(FromWire(a, n % limit));
    assert FromWire(a, n % limit) == if IsSigned(a) && n % limit >= limit / 2 then n % limit - limit else n % limit;
    assert limit == 256 || limit == 65536 || limit == 0x1_0000_0000;
    hide *;
    SignedKept(n, limit);
    UnsignedKept(n, limit);
  }

  lemma {:induction false} UnsignedKept(n: int, limit: int)
    requires limit > 0
    ensures n % limit == n <==> 0 <= n < limit
  {}

  lemma {:induction false} NumberKeptIff(ty: ItemType, item: Item, a: Attr, before: Item)
    requires WellTyped(item) && a != Charges && !IsText(a) && !a.Custom? && a in item.attrs
    requires a != Duration ==> Lookup(before.attrs, a) == None
    ensures (Stored(ty, item, a) &&
      Lookup(SetAttr(ty, before, a, Wire(a, item.attrs[a])).attrs, a) == Some(item.attrs[a]))
            <==> AttrKept(ty, item, a)
  {
    Limits();
    WireKept(a, item.attrs[a].n);
    hide Limit, SetSubType;
    if a == ActionId || a == Duration || a == DecayState || a == WrittenDate {
      SpecialKeptIff(ty, item, a, before);
    } else {
      hide FromWire;
      assert SetAttr(ty, before, a, Wire(a, item.attrs[a])) ==
        before.(attrs := before.attrs[a := Wire(a, item.attrs[a])]);
    }
  }

  lemma {:induction false} SpecialKeptIff(ty: ItemType, item: Item, a: Attr, before: Item)
    requires WellTyped(item) && a in item.attrs
    requires a == ActionId || a == Duration || a == DecayState || a == WrittenDate
    requires a != Duration ==> Lookup(before.attrs, a) == None
    ensures (Stored(ty, item, a) &&
      Lookup(SetAttr(ty, before, a, Wire(a, item.attrs[a])).attrs, a) == Some(item.attrs[a]))
            <==> AttrKept(ty, item, a)
  {
    Limits();
    WireKept(a, item.attrs[a].n);
    hide Limit;
  }

  lemma {:induction false} CustomKeptIff(ty: ItemType, item: Item, before: Item)
    requires WellTyped(item) && Custom in item.attrs && Lookup(before.attrs, Custom) == None
    ensures AttrKept(ty, item, Custom) <==>
      Lookup(SetAttr(ty, before, Custom, Wire(Custom, item.attrs[Custom])).attrs, Custom) == Some(item.attrs[Custom])
  {
    hide CustomAttributes.WithAll, CustomAttributes.KeptNamed;
    CustomAttributes.TableKeptIff(item.attrs[Custom].entries);
  }

  lemma {:induction false} AttrKeptIff(ty: ItemType, item: Item, a: Attr)
    requires WellTyped(item) && a != Charges
    ensures Lookup(Restored(ty, item).attrs, a) == Lookup(item.attrs, a) <==> AttrKept(ty, item, a)
  {
    hide RestoreFields, Restored, Counted;
    RestoredFromCounted(ty, item, a);
    CountedAttr(ty, item, a);
    if a in item.attrs && a.Custom? {
      CustomKeptIff(ty, item, Counted(ty, item));
    } else if a in item.attrs && !IsText(a) {
      NumberKeptIff(ty, item, a, Counted(ty, item));
    }
  }

  lemma {:induction false} SubTypeKeptIff(ty: ItemType, item: Item)
    requires WellTyped(item)
    ensures var c := Counted(ty, item);
            c.count == item.count && c.fluidType == item.fluidType &&
              Lookup(c.attrs, Charges) == Lookup(item.attrs, Charges)
            <==> SubTypeKept(ty, item)
  {
    Limits();
  }

  // A saved and loaded item has its old attributes if and only if its type's fields can carry them all.
  lemma {:induction false} RestoredIff(ty: ItemType, item: Item)
    requires WellTyped(item)
    ensures Restored(ty, item) == item.(inside := []) <==> Kept(ty, item)
  {
    hide RestoreFields, Restored, AttrKept, SubTypeKept, WellTyped, SetAttr, SetSubType, Wire, Stored;
    var r := Restored(ty, item);
    forall a ensures r.id == item.id && r.inside == [] &&
      (a != Charges ==> (Lookup(r.attrs, a) == Lookup(item.attrs, a) <==> AttrKept(ty, item, a))) {
      RestoredFromCounted(ty, item, a);
      CountedFrame(ty, item);
      if a != Charges { AttrKeptIff(ty, item, a); }
    }
    RestoredFromCounted(ty, item, Charges);
    SubTypeKeptIff(ty, item);
    ChargesKept(ty, item);
    if Kept(ty, item) {
      forall a ensures Lookup(r.attrs, a) == Lookup(item.attrs, a) {}
      SameAttrs(r.attrs, item.attrs);
    }
    if r == item.(inside := []) {
      forall a ensures AttrKept(ty, item, a) {}
    }
  }

  lemma {:induction false} ChargesKept(ty: ItemType, item: Item)
    requires WellTyped(item)
    ensures AttrKept(ty, item, Charges)
  {}

  lemma {:induction false} CountedFrame(ty: ItemType, item: Item)
    requires WellTyped(item)
    ensures Counted(ty, item).id == item.id && Counted(ty, item).inside == []
  {}

  lemma {:induction false} SameAttrs(m: map<Attr, Value>, n: map<Attr, Value>)
    requires forall a :: Lookup(m, a) == Lookup(n, a)
    ensures m == n
  {
    forall a ensures a in m <==> a in n {
      assert Lookup(m, a) == Lookup(n, a);
    }
    forall a | a in m ensures m[a] == n[a] {
      assert Lookup(m, a) == Lookup(n, a);
    }
  }

  // ---------------------------------------------------------------- trees of containers

  // Types are looked up by id; contents lie only in containers, and fewer than 2^32 of them in one.
  ghost predicate Storable(types: ItemId -> ItemType, item: Item) {
    && types(item.id).creatable
    && WellTyped(item)
    && (item.inside != [] ==> types(item.id).container)
    && |item.inside| < 0x1_0000_0000
    && forall c | c in item.inside :: Storable(types, c)
  }

  ghost function Encode(types: ItemId -> ItemType, item: Item): (r: seq<byte>)
    requires Storable(types, item)
    decreases item, 1
  {
    var ty := types(item.id);
    Le(2, item.id) + EncodeAttrs(ty, item)
    + (if ty.container then [ATTR_CONTAINER_ITEMS] + Le(4, |item.inside|) + EncodeReversed(types, item.inside) else [])
    + [ATTR_END]
  }

  // Contents are written from the back of the container.
  ghost function EncodeReversed(types: ItemId -> ItemType, items: seq<Item>): seq<byte>
    requires forall c | c in items :: Storable(types, c)
    decreases items, 0
  {
    if items == [] then []
    else Encode(types, items[|items| - 1]) + EncodeReversed(types, items[..|items| - 1])
  }

  ghost function RestoredTree(types: ItemId -> ItemType, item: Item): Item
    requires Storable(types, item)
    decreases item, 1
  {
    Restored(types(item.id), item).(inside := RestoredTrees(types, item.inside))
  }

  ghost function RestoredTrees(types: ItemId -> ItemType, items: seq<Item>): (r: seq<Item>)
    requires forall c | c in items :: Storable(types, c)
    ensures |r| == |items| && forall i | 0 <= i < |items| :: r[i] == RestoredTree(types, items[i])
    decreases items, 0
  {
    if items == [] then []
    else RestoredTrees(types, items[..|items| - 1]) + [RestoredTree(types, items[|items| - 1])]
  }

  // Reading fails, or goes on after the item; an id that cannot be created yields no item.
  datatype Loaded = Failed | Loaded(item: Option<Item>, rest: seq<byte>)

  function Decode(types: ItemId -> ItemType, s: seq<byte>): (r: Loaded)
    ensures r.Loaded? ==> |r.rest| < |s|
    decreases |s|, 1, 0
  {
    var id := TakeInt(2, s);
    if id.None? then Failed
    else
      assert Limit(2) == 65536;
      var ty := types(id.value.0);
      if !ty.creatable then Loaded(None, id.value.1)
      else
        match TakeAttrs(ty, Fresh(ty, id.value.0), id.value.1)
        case Malformed => Failed
        case AttrsRead(item, announced, rest) =>
          if !ty.container then Loaded(Some(item), rest)
          else
            var contents := DecodeContents(types, announced, rest, []);
            if contents.None? then Failed
            else Loaded(Some(item.(inside := contents.value.0)), contents.value.1)
  }

  // Each item read goes to the front; an end marker must follow the last.
  function DecodeContents(types: ItemId -> ItemType, n: nat, s: seq<byte>,
                          inside: seq<Item>): (r: Option<(seq<Item>, seq<byte>)>)
    ensures r.Some? ==> |r.value.1| < |s|
    decreases |s|, 2, n
  {
    if n == 0 then
      if s == [] || s[0] != ATTR_END then None else Some((inside, s[1..]))
    else
      match Decode(types, s)
      case Failed => None
      case Loaded(item, rest) =>
        DecodeContents(types, n - 1, rest, if item.Some? then [item.value] + inside else inside)
  }

  lemma {:induction false} TakeEnd(ty: ItemType, item: Item, tail: seq<byte>)
    ensures TakeAttrs(ty, item, [ATTR_END] + tail) == AttrsRead(item, 0, tail)
  {}

  lemma {:induction false} TakeContainerItems(ty: ItemType, item: Item, n: nat, tail: seq<byte>)
    requires ty.container && n < 0x1_0000_0000
    ensures TakeAttrs(ty, item, [ATTR_CONTAINER_ITEMS] + Le(4, n) + tail) == AttrsRead(item, n, tail)
  {
    hide Le;
    var s := [ATTR_CONTAINER_ITEMS] + Le(4, n) + tail;
    assert s[1..] == Le(4, n) + tail;
    TakeWritten(4, n, tail);
    Limits();
  }

  // Loading what was saved, whatever follows it, yields the restored tree and reads just the saved bytes.
  lemma {:induction false} DecodeEncoded(types: ItemId -> ItemType, item: Item, tail: seq<byte>)
    requires Storable(types, item)
    ensures Decode(types, Encode(types, item) + tail) == Loaded(Some(RestoredTree(types, item)), tail)
    decreases item, 1
  {
    hide TakeAttrs, EncodeAttrs, Restored, Fresh, Le;
    var ty, id := types(item.id), item.id;
    TakeWritten(2, id, []);
    Limits();
    var contents :=
      if ty.container then [ATTR_CONTAINER_ITEMS] + Le(4, |item.inside|) + EncodeReversed(types, item.inside) else [];
    var later := contents + [ATTR_END] + tail;
    assert Encode(types, item) + tail == Le(2, id) + (EncodeAttrs(ty, item) + later);
    TakeWritten(2, id, EncodeAttrs(ty, item) + later);
    TakeEncoded(ty, item, later);
    if ty.container {
      var body := EncodeReversed(types, item.inside) + [ATTR_END] + tail;
      assert later == [ATTR_CONTAINER_ITEMS] + Le(4, |item.inside|) + body;
      TakeContainerItems(ty, Restored(ty, item), |item.inside|, body);
      DecodeEncodedContents(types, item.inside, tail, []);
      assert RestoredTrees(types, item.inside) + [] == RestoredTrees(types, item.inside);
    } else {
      assert later == [ATTR_END] + tail;
      TakeEnd(ty, Restored(ty, item), tail);
      RestoredShape(ty, item);
    }
  }

  lemma {:induction false} DecodeEncodedContents(types: ItemId -> ItemType, items: seq<Item>, tail: seq<byte>,
                                                 inside: seq<Item>)
    requires forall c | c in items :: Storable(types, c)
    ensures DecodeContents(types, |items|, EncodeReversed(types, items) + [ATTR_END] + tail, inside)
         == Some((RestoredTrees(types, items) + inside, tail))
    decreases items, 0
  {
    hide Decode, Encode, Storable, RestoredTree;
    if items == [] {
      assert EncodeReversed(types, items) + [ATTR_END] + tail == [ATTR_END] + tail;
      assert RestoredTrees(types, items) + inside == inside;
    } else {
      var n := |items| - 1;
      var last, front := items[n], items[..n];
      var later := EncodeReversed(types, front) + [ATTR_END] + tail;
      assert EncodeReversed(types, items) + [ATTR_END] + tail == Encode(types, last) + later;
      DecodeEncoded(types, last, later);
      DecodeEncodedContents(types, front, tail, [RestoredTree(types, last)] + inside);
      assert RestoredTrees(types, front) + ([RestoredTree(types, last)] + inside) ==
        RestoredTrees(types, items) + inside;
    }
  }

  ghost predicate KeptTree(types: ItemId -> ItemType, item: Item)
    requires Storable(types, item)
  {
    Kept(types(item.id), item) && forall c | c in item.inside :: KeptTree(types, c)
  }

  // A tree of any depth comes back unchanged exactly when every item in it can be carried.
  lemma {:induction false} TreeRestoredIff(types: ItemId -> ItemType, item: Item)
    requires Storable(types, item)
    ensures RestoredTree(types, item) == item <==> KeptTree(types, item)
  {
    hide Kept, Restored;
    RestoredIff(types(item.id), item);
    RestoredShape(types(item.id), item);
    var r := RestoredTrees(types, item.inside);
    forall i | 0 <= i < |item.inside| ensures r[i] == item.inside[i] <==> KeptTree(types, item.inside[i]) {
      TreeRestoredIff(types, item.inside[i]);
    }
    assert r == item.inside <==> forall i | 0 <= i < |item.inside| :: r[i] == item.inside[i];
    assert (forall c | c in item.inside :: KeptTree(types, c)) <==>
      forall i | 0 <= i < |item.inside| :: KeptTree(types, item.inside[i]);
  }

  lemma {:induction false} RestoredShape(ty: ItemType, item: Item)
    requires WellTyped(item)
    ensures Restored(ty, item).inside == []
  {
    RestoredFromCounted(ty, item, Charges);
    CountedFrame(ty, item);
  }

  // ---------------------------------------------------------------- the stream operations

  method SerializeAttr(ty: ItemType, item: Item, stream: PropWriteStream)
    requires WellTyped(item)
    modifies stream
    ensures stream.buffer == old(stream.buffer) + EncodeAttrs(ty, item)
  {
    hide Le, EncodeFields, WellTyped;
    if ty.stackable || ty.fluid {
      stream.Write(1, ATTR_COUNT);
      stream.Write(1, SubType(ty, item) % 256);
      OneByte(ATTR_COUNT);
    }
    SerializeFields(ty, item, [Charges] + SAVE_ORDER, stream);
  }

  method SerializeFields(ty: ItemType, item: Item, order: seq<Attr>, stream: PropWriteStream)
    requires WellTyped(item)
    modifies stream
    ensures stream.buffer == old(stream.buffer) + EncodeFields(ty, item, order)
  {
    hide EncodeField, WellTyped;
    assert order[0..] == order;
    var i := 0;
    while i < |order|
      invariant i <= |order|
      invariant stream.buffer + EncodeFields(ty, item, order[i..]) == old(stream.buffer) + EncodeFields(ty, item, order)
    {
      ghost var before, later := stream.buffer, EncodeFields(ty, item, order[i + 1..]);
      assert order[i..][1..] == order[i + 1..];
      WriteField(ty, item, order[i], stream);
      assert before + (EncodeField(ty, item, order[i]) + later) == before + EncodeField(ty, item, order[i]) + later;
      i := i + 1;
    }
    assert stream.buffer + [] == stream.buffer;
  }

  method WriteField(ty: ItemType, item: Item, a: Attr, stream: PropWriteStream)
    requires WellTyped(item)
    modifies stream
    ensures stream.buffer == old(stream.buffer) + EncodeField(ty, item, a)
  {
    hide Le, Payload, Tag;
    if Stored(ty, item, a) {
      OneByte(Tag(a));
      stream.Write(1, Tag(a));
      WriteValue(a, item.attrs[a], stream);
    }
  }

  method WriteValue(a: Attr, v: Value, stream: PropWriteStream)
    modifies stream
    ensures stream.buffer == old(stream.buffer) + Payload(a, v)
  {
    hide Le, Limit;
    match v
    case Str(s) => stream.WriteString(s);
    case Num(n) => stream.Write(Width(a), n % Limit(Width(a)));
    case Table(entries) => CustomAttributes.SerializeTable(entries, stream);
  }

  method SaveItem(types: ItemId -> ItemType, item: Item, stream: PropWriteStream)
    requires Storable(types, item)
    modifies stream
    ensures stream.buffer == old(stream.buffer) + Encode(types, item)
    decreases item, 1
  {
    hide Le, EncodeAttrs, EncodeReversed, WellTyped;
    var ty := types(item.id);
    stream.Write(2, item.id);
    SerializeAttr(ty, item, stream);
    if ty.container {
      stream.Write(1, ATTR_CONTAINER_ITEMS);
      OneByte(ATTR_CONTAINER_ITEMS);
      stream.Write(4, |item.inside|);
      SaveReversed(types, item.inside, stream);
    }
    stream.Write(1, ATTR_END);
    OneByte(ATTR_END);
  }

  method SaveReversed(types: ItemId -> ItemType, items: seq<Item>, stream: PropWriteStream)
    requires forall c | c in items :: Storable(types, c)
    modifies stream
    ensures stream.buffer == old(stream.buffer) + EncodeReversed(types, items)
    decreases items, 0
  {
    hide Encode, Storable;
    assert items[..|items|] == items;
    var i := |items|;
    while i > 0
      invariant 0 <= i <= |items|
      invariant stream.buffer + EncodeReversed(types, items[..i]) == old(stream.buffer) + EncodeReversed(types, items)
    {
      i := i - 1;
      ghost var before, later := stream.buffer, EncodeReversed(types, items[..i]);
      assert items[..i + 1][..i] == items[..i];
      SaveItem(types, items[i], stream);
      assert before + (Encode(types, items[i]) + later) == before + Encode(types, items[i]) + later;
    }
    assert stream.buffer + [] == stream.buffer;
  }

  // No table is made for no values.
  function WithTable(item: Item, table: seq<CustomAttributes.Named>): Item {
    if table == [] then item else item.(attrs := item.attrs[Custom := Table(table)])
  }

  lemma {:induction false} SetTable(ty: ItemType, item: Item, entries: seq<CustomAttributes.Named>)
    ensures SetAttr(ty, item, Custom, Table(entries))
         == WithTable(item, CustomAttributes.WithAll(TableOf(item), entries))
  {
    if entries == [] {
      assert TableOf(item) != [] ==> item.attrs[Custom := Table(TableOf(item))] == item.attrs;
    } else {
      CustomAttributes.WithAllSome(TableOf(item), entries);
    }
  }

  // One attribute, by its tag; the tags that end the reading are the caller's.
  method ReadAttr(ty: ItemType, item: Item, tag: byte, stream: PropStream) returns (r: Option<Item>)
    requires stream.Valid() && tag != ATTR_END && tag != ATTR_CONTAINER_ITEMS
    modifies stream
    ensures stream.Valid() && |stream.Rest()| <= |old(stream.Rest())|
    ensures TakeAttrs(ty, item, [tag] + old(stream.Rest()))
         == if r.None? then Malformed else TakeAttrs(ty, r.value, stream.Rest())
  {
    ghost var s := [tag] + stream.Rest();
    assert s[1..] == stream.Rest();
    if tag == ATTR_COUNT || tag == ATTR_RUNE_CHARGES {
      var n := stream.Read(1);
      return if n.None? then None else Some(SetSubType(ty, item, n.value));
    }
    if AttrOf(tag).Some? {
      var a := AttrOf(tag).value;
      if IsText(a) {
        var text := stream.ReadString();
        return if text.None? then None else Some(SetAttr(ty, item, a, Str(text.value)));
      }
      if a.Custom? {
        ghost var t := CustomAttributes.TakeTable(stream.Rest());
        var table := CustomAttributes.UnserializeTable(TableOf(item), stream);
        if table.Some? {
          SetTable(ty, item, t.value.0);
        }
        return if table.None? then None else Some(WithTable(item, table.value));
      }
      var n := stream.Read(Width(a));
      return if n.None? then None else Some(SetAttr(ty, item, a, Num(FromWire(a, n.value))));
    }
    if SkipWidth(tag).Some? {
      var ok := stream.Skip(SkipWidth(tag).value);
      return if ok then Some(item) else None;
    }
    return None;
  }

  method UnserializeAttr(ty: ItemType, created: Item, stream: PropStream) returns (ok: bool, item: Item, announced: nat)
    requires stream.Valid()
    modifies stream
    ensures stream.Valid() && |stream.Rest()| <= |old(stream.Rest())|
    ensures match TakeAttrs(ty, created, old(stream.Rest()))
            case Malformed => !ok
            case AttrsRead(i, n, rest) => ok && item == i && announced == n && stream.Rest() == rest
  {
    hide SetSubType, SetAttr, AttrOf, SkipWidth, TakeValue;
    item, announced := created, 0;
    while true
      invariant stream.Valid() && |stream.Rest()| <= |old(stream.Rest())|
      invariant TakeAttrs(ty, item, stream.Rest()) == TakeAttrs(ty, created, old(stream.Rest()))
      decreases |stream.Rest()|
    {
      ghost var s := stream.Rest();
      var tag := stream.Read(1);
      if tag.None? {
        return true, item, 0;
      }
      FirstByte(s);
      if tag.value == ATTR_END {
        return true, item, 0;
      }
      if tag.value == ATTR_CONTAINER_ITEMS {
        if !ty.container {
          return false, item, 0;
        }
        var n := stream.Read(4);
        if n.None? {
          return false, item, 0;
        }
        return true, item, n.value;
      }
      var next := ReadAttr(ty, item, tag.value, stream);
      if next.None? {
        return false, item, 0;
      }
      item := next.value;
    }
  }

  method LoadItem(types: ItemId -> ItemType, stream: PropStream) returns (ok: bool, item: Option<Item>)
    requires stream.Valid()
    modifies stream
    ensures stream.Valid() && |stream.Rest()| <= |old(stream.Rest())|
    ensures match Decode(types, old(stream.Rest()))
            case Failed => !ok
            case Loaded(i, rest) => ok && item == i && stream.Rest() == rest
    decreases |stream.Rest()|, 1
  {
    hide TakeAttrs, Fresh;
    var id := stream.Read(2);
    if id.None? {
      return false, None;
    }
    assert Limit(2) == 65536;
    var ty := types(id.value);
    if !ty.creatable {
      return true, None;
    }
    var read, loaded, announced := UnserializeAttr(ty, Fresh(ty, id.value), stream);
    if !read {
      return false, None;
    }
    if ty.container {
      var closed, inside := LoadContainer(types, announced, stream);
      if !closed {
        return false, None;
      }
      loaded := loaded.(inside := inside);
    }
    return true, Some(loaded);
  }

  method LoadContainer(types: ItemId -> ItemType, announced: nat, stream: PropStream)
    returns (ok: bool, inside: seq<Item>)
    requires stream.Valid()
    modifies stream
    ensures stream.Valid() && |stream.Rest()| <= |old(stream.Rest())|
    ensures match DecodeContents(types, announced, old(stream.Rest()), [])
            case None => !ok
            case Some((items, rest)) => ok && inside == items && stream.Rest() == rest
    decreases |stream.Rest()|, 2
  {
    hide Decode;
    var serializationCount := announced;
    inside := [];
    while serializationCount > 0
      invariant stream.Valid() && |stream.Rest()| <= |old(stream.Rest())|
      invariant DecodeContents(types, serializationCount, stream.Rest(), inside) ==
        DecodeContents(types, announced, old(stream.Rest()), [])
    {
      var loaded, item := LoadItem(types, stream);
      if !loaded {
        return false, [];
      }
      if item.Some? {
        inside := [item.value] + inside;
      }
      serializationCount := serializationCount - 1;
    }
    ghost var s := stream.Rest();
    var endAttr := stream.Read(1);
    if endAttr.None? {
      return false, [];
    }
    FirstByte(s);
    return endAttr.value == ATTR_END, inside;
  }
}
