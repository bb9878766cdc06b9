/** The comparison of items that decides which stacks merge. */
module ItemEquals {
  import opened Wrappers

  // The value of an attribute: a text, a number, or a table of named values, of which only the address is compared.
  datatype Value = Text(text: string) | Number(number: int) | Table(address: nat)

  datatype Entry<T> = Entry(kind: nat, value: T)

  // A list of entries beside a mask of the kinds it holds, as attributes and abilities are kept.
  datatype Entries<T> = Entries(bits: set<nat>, list: seq<Entry<T>>) {
    // The mask names the kinds in the list, each of which occurs once.
    ghost predicate Valid() {
      && (forall i | 0 <= i < |list| :: list[i].kind in bits)
      && (forall kind | kind in bits :: exists i :: 0 <= i < |list| && list[i].kind == kind)
      && (forall i, j | 0 <= i < j < |list| :: list[i].kind != list[j].kind)
    }

    // The value of each kind, in whatever order the entries are.
    ghost function Meaning(): (m: map<nat, T>)
      requires Valid()
      ensures m.Keys == bits
      ensures forall i | 0 <= i < |list| :: m[list[i].kind] == list[i].value
    {
      map kind | kind in bits :: Find(kind).value
    }

    ghost function Find(kind: nat): (entry: Entry<T>)
      requires Valid() && kind in bits
      ensures entry in list && entry.kind == kind
    {
      var i :| 0 <= i < |list| && list[i].kind == kind;
      list[i]
    }
  }

  // What an item stores: either part may be missing, which is not the same as being there and empty.
  datatype Stored = Stored(id: nat, attributes: Option<Entries<Value>>, abilities: Option<Entries<int>>) {
    ghost predicate Valid() {
      (attributes.Some? ==> attributes.value.Valid()) && (abilities.Some? ==> abilities.value.Valid())
    }

    ghost function Meaning(): Kind
      requires Valid()
    {
      Kind(id, if attributes.Some? then Some(attributes.value.Meaning()) else None,
           if abilities.Some? then Some(abilities.value.Meaning()) else None)
    }
  }

  // Everything that tells two items apart but their count.
  datatype Kind = Kind(id: nat, attributes: Option<map<nat, Value>>, abilities: Option<map<nat, int>>)

  // Whether the first of two items counts as equal to the second. Each part is compared if the first item has it;
  // that the second has no other part is asked only if the first has none at all.
  predicate Same(a: Kind, b: Kind) {
    && a.id == b.id
    && (a.attributes.None? && a.abilities.None? ==> b.attributes.None? && b.abilities.None?)
    && (a.attributes.Some? ==> b.attributes == a.attributes)
    && (a.abilities.Some? ==> b.abilities == a.abilities)
  }

  // The first item has one part only, the second has the same one and the other one as well.
  predicate OneSided(a: Kind, b: Kind) {
    && a.id == b.id
    && ((a.attributes.Some? && b.attributes == a.attributes && a.abilities.None? && b.abilities.Some?)
        || (a.abilities.Some? && b.abilities == a.abilities && a.attributes.None? && b.attributes.Some?))
  }

  // What a copy of an item stores: the same, but for a table of its own at another address.
  function Cloned(kind: Kind, address: nat): (clone: Kind)
    ensures clone.id == kind.id
  {
    if kind.attributes.None? then kind
    else
      var m := kind.attributes.value;
      kind.(attributes := Some(map k | k in m :: if m[k].Table? then Table(address) else m[k]))
  }

  predicate HasTable(kind: Kind) {
    kind.attributes.Some? && exists k :: k in kind.attributes.value && kind.attributes.value[k].Table?
  }

  // A copy with a new table never counts as equal to the item it was made from, nor that one to it; any other copy
  // stores just the same.
  lemma {:induction false} ClonedSame(kind: Kind, address: nat)
    requires kind.attributes.Some? ==> Table(address) !in kind.attributes.value.Values
    ensures if HasTable(kind) then !Same(kind, Cloned(kind, address)) && !Same(Cloned(kind, address), kind)
            else Cloned(kind, address) == kind
  {
    if HasTable(kind) {
      var k :| k in kind.attributes.value && kind.attributes.value[k].Table?;
      assert kind.attributes.value[k] in kind.attributes.value.Values;
      assert Cloned(kind, address).attributes.value[k] == Table(address);
    } else if kind.attributes.Some? {
      assert Cloned(kind, address).attributes.value == kind.attributes.value;
    }
  }

  // The loops over two lists with the same mask: unequal values under one kind end them.
  method SameEntries<T(==)>(a: Entries<T>, b: Entries<T>) returns (same: bool)
    requires a.Valid() && b.Valid()
    ensures same <==> a.Meaning() == b.Meaning()
  {
    hide Entries.Meaning, Entries.Find;
    if a.bits != b.bits {
      return false;
    }
    for i := 0 to |a.list|
      invariant forall k | 0 <= k < i :: a.list[k].value == b.Meaning()[a.list[k].kind]
    {
      for j := 0 to |b.list|
        invariant forall k | 0 <= k < j && b.list[k].kind == a.list[i].kind :: b.list[k].value == a.list[i].value
      {
        if a.list[i].kind == b.list[j].kind && a.list[i].value != b.list[j].value {
          assert a.Meaning()[a.list[i].kind] != b.Meaning()[a.list[i].kind];
          return false;
        }
      }
      assert b.Find(a.list[i].kind) in b.list;
    }
    return true;
  }

  // The comparison as the code makes it.
  method Equals(item: Stored, other: Option<Stored>) returns (same: bool)
    requires item.Valid() && (other.Some? ==> other.value.Valid())
    ensures same <==> other.Some? && Same(item.Meaning(), other.value.Meaning())
  {
    hide Entries.Valid, Entries.Meaning;
    if other.None? || item.id != other.value.id {
      return false;
    }
    var otherItem := other.value;
    if item.attributes.None? && item.abilities.None? {
      return otherItem.attributes.None? && otherItem.abilities.None?;
    }
    if item.attributes.Some? {
      if otherItem.attributes.None? {
        return false;
      }
      var sameAttributes := SameEntries(item.attributes.value, otherItem.attributes.value);
      if !sameAttributes {
        return false;
      }
    }
    if item.abilities.Some? {
      if otherItem.abilities.None? {
        return false;
      }
      var sameAbilities := SameEntries(item.abilities.value, otherItem.abilities.value);
      if !sameAbilities {
        return false;
      }
    }
    return true;
  }

  // The comparison is not symmetric: it holds one way only exactly if the first item has one part of the two, and
  // the second the same one and the other one besides.
  lemma {:induction false} OneSidedIff(a: Kind, b: Kind)
    ensures Same(a, b) && !Same(b, a) <==> OneSided(a, b)
  {}

  // It is a preorder all the same, and an equality up to that one case.
  lemma {:induction false} SameIsPreorder(a: Kind, b: Kind, c: Kind)
    ensures Same(a, a)
    ensures Same(a, b) && Same(b, c) ==> Same(a, c)
    ensures Same(a, b) <==> a == b || OneSided(a, b)
  {}

  // Two lists of one item that differ in order only mean the same to it.
  lemma {:induction false} OrderIsNothing<T>(a: Entries<T>, b: Entries<T>)
    requires a.Valid() && b.Valid() && multiset(a.list) == multiset(b.list)
    ensures a.Meaning() == b.Meaning()
  {
    forall entry ensures entry in a.list <==> entry in b.list {
      assert entry in a.list <==> entry in multiset(a.list);
      assert entry in b.list <==> entry in multiset(b.list);
    }
    forall kind | kind in a.bits ensures kind in b.bits && a.Meaning()[kind] == b.Meaning()[kind] {
      assert a.Find(kind) in b.list;
    }
    forall kind | kind in b.bits ensures kind in a.bits {
      assert b.Find(kind) in a.list;
    }
  }
}
