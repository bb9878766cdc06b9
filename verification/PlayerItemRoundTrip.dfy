/** Saving a player's items and loading them again: the forest rebuilt from the rows is the one saved. */
module PlayerItemRoundTrip {
  import opened PlayerItemForest
  import opened PlayerItemRows

  // The table's own discipline: one item a slot, depots numbered below 100, every inbox row under pid 0.
  ghost predicate Rooted(table: Table, items: seq<(nat, Thing)>) {
    && (forall i | 0 <= i < |items| :: IsRootPid(table, items[i].0))
    && (table.Inventory? ==> forall i, j | 0 <= i < j < |items| :: items[i].0 != items[j].0)
    && (table.Inbox? ==> forall i | 0 <= i < |items| :: items[i].0 == 0)
  }

  // The roots under one slot, depot or inbox, in the order they were handed to the save.
  function RootsUnder(items: seq<(nat, Thing)>, key: nat): seq<Thing> {
    if items == [] then []
    else
      var n := |items| - 1;
      RootsUnder(items[..n], key) + if items[n].0 == key then [items[n].1] else []
  }

  // Each container's contents have larger ids, all below `bound`.
  ghost predicate Downward(m: map<nat, Entry>, contents: map<nat, seq<nat>>, bound: nat) {
    forall p | p in contents :: forall k | k in contents[p] :: k in m && p < k < bound
  }

  // The item tree that hangs below an id in the rebuilt forest.
  ghost function TreeOf(m: map<nat, Entry>, contents: map<nat, seq<nat>>, bound: nat, s: nat): Thing
    requires Downward(m, contents, bound) && s in m && s < bound
    decreases bound - s, 1
  {
    Thing(m[s].payload, if s in contents then TreesOf(m, contents, bound, s, contents[s]) else [])
  }

  ghost function TreesOf(m: map<nat, Entry>, contents: map<nat, seq<nat>>, bound: nat, above: nat,
                         ks: seq<nat>): (r: seq<Thing>)
    requires Downward(m, contents, bound) && above < bound && forall k | k in ks :: k in m && above < k < bound
    ensures |r| == |ks|
    ensures forall i | 0 <= i < |ks| :: r[i] == TreeOf(m, contents, bound, ks[i])
    decreases bound - above, 0
  {
    seq(|ks|, i requires 0 <= i < |ks| => TreeOf(m, contents, bound, ks[i]))
  }

  lemma {:induction false} AscendingUnique(a: seq<nat>, b: seq<nat>)
    requires Ascending(a) && Ascending(b) && forall k :: k in a <==> k in b
    ensures a == b
  {
    assert forall i | 0 <= i < |a| :: a[i] in a;
    assert forall i | 0 <= i < |b| :: b[i] in b;
    if a != [] && b != [] {
      assert a[0] in b && b[0] in a;
      assert a[0] == b[0];
      forall k ensures k in a[1..] <==> k in b[1..] {
        assert k in a[1..] <==> k in a && k != a[0];
        assert k in b[1..] <==> k in b && k != b[0];
      }
      AscendingUnique(a[1..], b[1..]);
    }
  }

  ghost function Ids(ks: seq<nat>): seq<nat> {
    seq(|ks|, i requires 0 <= i < |ks| => FIRST_ID + ks[i])
  }

  ghost predicate TableOf(m: map<nat, Entry>, rows: seq<Row>) {
    && (forall s :: s in m <==> FIRST_ID <= s < FIRST_ID + |rows|)
    && (forall k | 0 <= k < |rows| :: m[FIRST_ID + k] == Entry(rows[k].pid, rows[k].payload))
  }

  lemma {:induction false} TableOfSaved(env: Catalogue, items: seq<(nat, Thing)>, rows: seq<Row>, things: seq<Thing>,
                                        result: seq<Row>)
    requires Numbered(items, rows, things)
    requires forall k | 0 <= k < |rows| :: things[k].payload.itemType in env.known
    requires forall r :: r in result <==> r in rows
    ensures TableOf(ItemTable(env, result), rows)
  {
    forall a, b | a in result && b in result && a.sid == b.sid ensures a == b {
      assert a in rows && b in rows;
    }
    forall r | r in result ensures r.payload.itemType in env.known {
      assert r in rows;
    }
    ItemTableMeaning(env, result);
    var m := ItemTable(env, result);
    forall k | 0 <= k < |rows| ensures FIRST_ID + k in m && m[FIRST_ID + k] == Entry(rows[k].pid, rows[k].payload) {
      assert rows[k] in result;
    }
    forall s ensures s in m <==> FIRST_ID <= s < FIRST_ID + |rows| {
      if s in m {
        var r :| r in result && r.sid == s;
        assert r in rows;
      }
      if FIRST_ID <= s < FIRST_ID + |rows| {
        assert rows[s - FIRST_ID] in result;
      }
    }
  }

  // The rebuilt list of a pid is exactly the rows that name it.
  lemma {:induction false} ListsAreKids(m: map<nat, Entry>, rows: seq<Row>, pid: nat, ks: seq<nat>)
    requires TableOf(m, rows) && Lists(m, m.Keys, pid, ks)
    ensures ks == Ids(Kids(rows, pid))
  {
    var ids := Ids(Kids(rows, pid));
    forall k ensures k in ids <==> k in ks {
      if k in ks {
        ListedIsKid(m, rows, pid, ks, k);
      }
    }
    AscendingUnique(ks, ids);
  }

  lemma {:induction false} ListedIsKid(m: map<nat, Entry>, rows: seq<Row>, pid: nat, ks: seq<nat>, k: nat)
    requires TableOf(m, rows) && Lists(m, m.Keys, pid, ks) && k in ks
    ensures k in Ids(Kids(rows, pid))
  {
    assert k - FIRST_ID in Kids(rows, pid);
    var i :| 0 <= i < |Kids(rows, pid)| && Kids(rows, pid)[i] == k - FIRST_ID;
    assert Ids(Kids(rows, pid))[i] == k;
  }

  ghost predicate Reloaded(env: Catalogue, table: Table, items: seq<(nat, Thing)>, rows: seq<Row>, things: seq<Thing>,
                           m: map<nat, Entry>, f: Forest) {
    && Saved(items, rows, things)
    && (forall k | 0 <= k < |rows| :: Storable(env, things[k]))
    && TableOf(m, rows)
    && ContentsOf(env, table, m, m.Keys, f)
  }

  lemma {:induction false} ReloadedDownward(env: Catalogue, table: Table, items: seq<(nat, Thing)>, rows: seq<Row>,
                                            things: seq<Thing>, m: map<nat, Entry>, f: Forest)
    requires Reloaded(env, table, items, rows, things, m, f) && Rooted(table, items)
    ensures Downward(m, f.contents, FIRST_ID + |rows|)
  {
    hide Complete;
    forall p, k | p in f.contents && k in f.contents[p] ensures k in m && p < k < FIRST_ID + |rows| {
      assert Lists(m, m.Keys, p, f.contents[p]);
      assert m[k].pid == p && m[k] == Entry(rows[k - FIRST_ID].pid, rows[k - FIRST_ID].payload);
    }
  }

  lemma {:induction false} ReloadedAt(env: Catalogue, table: Table, items: seq<(nat, Thing)>, rows: seq<Row>,
                                      things: seq<Thing>, m: map<nat, Entry>, f: Forest, k: nat)
    requires Reloaded(env, table, items, rows, things, m, f) && k < |rows| == |things|
    ensures FIRST_ID + k in m && m[FIRST_ID + k].payload == things[k].payload
    ensures At(things, Kids(rows, FIRST_ID + k)) == things[k].inside
    ensures if FIRST_ID + k in f.contents then f.contents[FIRST_ID + k] == Ids(Kids(rows, FIRST_ID + k))
      else things[k].inside == []
  {
    hide Kids, Storable, Lists;
    var s := FIRST_ID + k;
    assert Complete(rows, things, k);
    assert Storable(env, things[k]);
    assert m[s] == Entry(rows[k].pid, rows[k].payload);
    if s in f.contents {
      ListsAreKids(m, rows, s, f.contents[s]);
    } else {
      OnlyContainersHold(env, things[k]);
    }
  }

  lemma {:induction false} TreesAre(m: map<nat, Entry>, contents: map<nat, seq<nat>>, bound: nat, above: nat,
                                    ids: seq<nat>, things: seq<Thing>, ks: seq<nat>)
    requires Downward(m, contents, bound) && above < bound && (forall k | k in ids :: k in m && above < k < bound)
    requires |ids| == |ks| && forall i | 0 <= i < |ks| :: ks[i] < |things|
    requires forall i | 0 <= i < |ks| :: ids[i] in ids && TreeOf(m, contents, bound, ids[i]) == things[ks[i]]
    ensures TreesOf(m, contents, bound, above, ids) == At(things, ks)
  {
    hide TreeOf, TreesOf, Downward;
    var trees := TreesOf(m, contents, bound, above, ids);
    assert |trees| == |ks| == |At(things, ks)|;
    forall i | 0 <= i < |ks| ensures trees[i] == At(things, ks)[i] {
      assert ids[i] in ids;
    }
  }

  lemma {:induction false} TreeIs(m: map<nat, Entry>, contents: map<nat, seq<nat>>, bound: nat, s: nat, t: Thing)
    requires Downward(m, contents, bound) && s in m && s < bound && m[s].payload == t.payload
    requires if s in contents then TreesOf(m, contents, bound, s, contents[s]) == t.inside else t.inside == []
    ensures TreeOf(m, contents, bound, s) == t
  {}

  lemma {:induction false} KidsReloaded(env: Catalogue, table: Table, items: seq<(nat, Thing)>, rows: seq<Row>,
                                        things: seq<Thing>, m: map<nat, Entry>, f: Forest, k: nat)
    requires Reloaded(env, table, items, rows, things, m, f)
    requires k < |rows| == |things| && Downward(m, f.contents, FIRST_ID + |rows|)
    ensures var s, ks := FIRST_ID + k, Kids(rows, FIRST_ID + k);
      && s in m && m[s].payload == things[k].payload
      && (forall i | 0 <= i < |ks| :: k < ks[i] < |things| || s !in f.contents)
      && if s in f.contents then
           && At(things, ks) == things[k].inside && |f.contents[s]| == |ks|
           && (forall i | 0 <= i < |ks| :: f.contents[s][i] in f.contents[s] && f.contents[s][i] == FIRST_ID + ks[i])
           && (forall i | i in f.contents[s] :: i in m && s < i < FIRST_ID + |rows|)
         else things[k].inside == []
  {
    hide Reloaded, Kids;
    ReloadedAt(env, table, items, rows, things, m, f, k);
    var s, ks := FIRST_ID + k, Kids(rows, FIRST_ID + k);
    if s in f.contents {
      forall i | 0 <= i < |ks|
        ensures f.contents[s][i] in f.contents[s] && f.contents[s][i] == FIRST_ID + ks[i] && k < ks[i] {}
    }
  }

  // Below every id hangs exactly the thing that was numbered with it.
  lemma {:induction false} TreeReloaded(env: Catalogue, table: Table, items: seq<(nat, Thing)>, rows: seq<Row>,
                                        things: seq<Thing>, m: map<nat, Entry>, f: Forest, k: nat)
    requires Reloaded(env, table, items, rows, things, m, f) && k < |rows| == |things|
    requires Downward(m, f.contents, FIRST_ID + |rows|) && FIRST_ID + k in m
    ensures TreeOf(m, f.contents, FIRST_ID + |rows|, FIRST_ID + k) == things[k]
    decreases |rows| - k, 1
  {
    hide *;
    var s := FIRST_ID + k;
    KidsReloaded(env, table, items, rows, things, m, f, k);
    if s in f.contents {
      KidTrees(env, table, items, rows, things, m, f, k, Kids(rows, s));
    }
    TreeIs(m, f.contents, FIRST_ID + |rows|, s, things[k]);
  }

  lemma {:induction false} KidTrees(env: Catalogue, table: Table, items: seq<(nat, Thing)>, rows: seq<Row>,
                                    things: seq<Thing>, m: map<nat, Entry>, f: Forest, k: nat, ks: seq<nat>)
    requires Reloaded(env, table, items, rows, things, m, f) && k < |rows| == |things| && FIRST_ID + k in f.contents
    requires Downward(m, f.contents, FIRST_ID + |rows|)
    requires |f.contents[FIRST_ID + k]| == |ks| && forall i | 0 <= i < |ks| :: k < ks[i] < |things|
    requires forall i | 0 <= i < |ks| ::
      f.contents[FIRST_ID + k][i] in f.contents[FIRST_ID + k] && f.contents[FIRST_ID + k][i] == FIRST_ID + ks[i]
    requires forall i | i in f.contents[FIRST_ID + k] :: i in m && FIRST_ID + k < i < FIRST_ID + |rows|
    ensures TreesOf(m, f.contents, FIRST_ID + |rows|, FIRST_ID + k, f.contents[FIRST_ID + k]) == At(things, ks)
    decreases |rows| - k, 0
  {
    hide Reloaded, TreeOf, TreesOf, Downward, At;
    var ids, bound := f.contents[FIRST_ID + k], FIRST_ID + |rows|;
    forall i | 0 <= i < |ks| ensures ids[i] in ids && ids[i] in m && ids[i] < bound {
      assert f.contents[FIRST_ID + k][i] == FIRST_ID + ks[i];
    }
    forall i | 0 <= i < |ks| ensures ids[i] in ids && TreeOf(m, f.contents, bound, ids[i]) == things[ks[i]] {
      TreeReloaded(env, table, items, rows, things, m, f, ks[i]);
    }
    TreesAre(m, f.contents, bound, FIRST_ID + k, ids, things, ks);
  }

  lemma {:induction false} LoadIsWeight(env: Catalogue, m: map<nat, Entry>, total: map<nat, nat>, ids: seq<nat>,
                                        ts: seq<Thing>)
    requires |ids| == |ts| && forall k | k in ids :: k in m
    requires forall i | 0 <= i < |ids| :: FullWeight(env, m, total, ids[i]) == Weight(env, ts[i])
    ensures Load(env, m, total, ids) == ContentWeight(env, ts)
  {
    if ids != [] {
      LoadIsWeight(env, m, total, ids[1..], ts[1..]);
    }
  }

  // The cached weight is right at every depth: everything is attached before its own container is.
  lemma {:induction false} WeightReloaded(env: Catalogue, table: Table, items: seq<(nat, Thing)>, rows: seq<Row>,
                                          things: seq<Thing>, m: map<nat, Entry>, f: Forest, k: nat)
    requires Reloaded(env, table, items, rows, things, m, f) && WeightsOf(env, m, f) && k < |rows| == |things|
    requires Downward(m, f.contents, FIRST_ID + |rows|) && f.contents.Keys == f.totalWeight.Keys
    ensures FIRST_ID + k in m
    ensures FullWeight(env, m, f.totalWeight, FIRST_ID + k) == Weight(env, things[k])
    ensures FIRST_ID + k in f.totalWeight ==> f.totalWeight[FIRST_ID + k] == ContentWeight(env, things[k].inside)
    decreases |rows| - k
  {
    hide Kids, Reloaded;
    var s := FIRST_ID + k;
    ReloadedAt(env, table, items, rows, things, m, f, k);
    if s in f.contents {
      var ks, ids := Kids(rows, s), f.contents[s];
      forall i | 0 <= i < |ids| ensures FullWeight(env, m, f.totalWeight, ids[i]) == Weight(env, things[ks[i]]) {
        assert f.contents[s][i] in f.contents[s];
        WeightReloaded(env, table, items, rows, things, m, f, ks[i]);
      }
      LoadIsWeight(env, m, f.totalWeight, ids, At(things, ks));
    }
  }

  predicate IsRootKey(table: Table, key: nat) {
    match table
    case Inventory => 1 <= key <= 10
    case Depot => key < 100
    case Inbox => key == 0
  }

  lemma {:induction false} RootsAreKids(table: Table, items: seq<(nat, Thing)>, rows: seq<Row>, things: seq<Thing>,
                                        m: map<nat, Entry>, roots: map<nat, seq<nat>>, key: nat)
    requires Rooted(table, items) && Numbered(items, rows, things) && TableOf(m, rows)
    requires RootList(table, m, m.Keys, key, RootItems(roots, key))
    ensures RootItems(roots, key) == if IsRootKey(table, key) then Ids(Kids(rows, key)) else []
  {
    hide Kids;
    var ks := RootItems(roots, key);
    assert ks == [] || ks[0] in ks;
    forall k: nat ensures RootEntry(table, m, m.Keys, key, k) <==> k in m && IsRootKey(table, key) && m[k].pid == key {
      if k in m {
        assert m[k] == Entry(rows[k - FIRST_ID].pid, rows[k - FIRST_ID].payload);
        if k - FIRST_ID < |items| {
          assert items[k - FIRST_ID].0 == m[k].pid;
        }
      }
    }
    if IsRootKey(table, key) {
      forall k ensures k in ks <==> k in m && m[k].pid == key {
        if table.Inventory? && k in m && m[k].pid == key {
          assert RootEntry(table, m, m.Keys, key, k);
          var x := ks[0];
          assert x in ks;
          assert rows[x - FIRST_ID].pid == rows[k - FIRST_ID].pid == key;
          assert items[x - FIRST_ID].0 == items[k - FIRST_ID].0;
        }
      }
      ListsAreKids(m, rows, key, ks);
    }
  }

  lemma {:induction false} KidsAreRoots(items: seq<(nat, Thing)>, rows: seq<Row>, things: seq<Thing>, key: nat, n: nat)
    requires Numbered(items, rows, things) && n <= |rows| && key < FIRST_ID
    ensures At(things, Kids(rows[..n], key)) == RootsUnder(items[..if n < |items| then n else |items|], key)
  {
    if n > 0 {
      assert rows[..n][..n - 1] == rows[..n - 1];
      KidsAreRoots(items, rows, things, key, n - 1);
      if n <= |items| {
        assert items[..n][..n - 1] == items[..n - 1];
      }
    }
  }

  // Rows written by a save can be read back: parents come first.
  lemma {:induction false} SavedParentsFirst(table: Table, items: seq<(nat, Thing)>, rows: seq<Row>, things: seq<Thing>,
                                             m: map<nat, Entry>)
    requires Rooted(table, items) && Numbered(items, rows, things) && TableOf(m, rows)
    ensures ParentsFirst(table, m)
  {
    forall s | s in m ensures !IsRootPid(table, m[s].pid) ==> m[s].pid < s {
      assert m[s] == Entry(rows[s - FIRST_ID].pid, rows[s - FIRST_ID].payload);
    }
  }

  ghost predicate RootsBounded(m: map<nat, Entry>, roots: map<nat, seq<nat>>, bound: nat) {
    forall key :: forall k | k in RootItems(roots, key) :: k in m && 0 < k < bound
  }

  // Every slot, depot and inbox holds the same item trees in the same order.
  ghost predicate SameRoots(m: map<nat, Entry>, f: Forest, bound: nat, items: seq<(nat, Thing)>)
    requires Downward(m, f.contents, bound) && RootsBounded(m, f.roots, bound) && 0 < bound
  {
    forall key :: TreesOf(m, f.contents, bound, 0, RootItems(f.roots, key)) == RootsUnder(items, key)
  }

  // At every depth the cached weight of a container is the weight of the tree below it, less its own.
  ghost predicate RightWeights(env: Catalogue, m: map<nat, Entry>, f: Forest, bound: nat)
    requires Downward(m, f.contents, bound)
  {
    && f.totalWeight.Keys == f.contents.Keys <= m.Keys
    && forall p | p in f.contents && p in m && p < bound ::
         FullWeight(env, m, f.totalWeight, p) == Weight(env, TreeOf(m, f.contents, bound, p))
  }

  // Everything in a container points back at it.
  ghost predicate RightParents(f: Forest) {
    && (forall p | p in f.contents :: forall k | k in f.contents[p] :: k in f.parent && f.parent[k] == p)
    && (forall k | k in f.parent :: f.parent[k] in f.contents && k in f.contents[f.parent[k]])
  }

  ghost predicate SavedAndLoaded(env: Catalogue, table: Table, items: seq<(nat, Thing)>, rows: seq<Row>,
                                 things: seq<Thing>, result: seq<Row>, f: Forest) {
    && Rooted(table, items)
    && Saved(items, rows, things)
    && (forall k | 0 <= k < |rows| :: Storable(env, things[k]))
    && (forall r :: r in result <==> r in rows)
    && Rebuilt(env, table, ItemTable(env, result), f)
  }

  lemma {:induction false} Reload(env: Catalogue, table: Table, items: seq<(nat, Thing)>, rows: seq<Row>,
                                  things: seq<Thing>, result: seq<Row>, f: Forest)
    requires SavedAndLoaded(env, table, items, rows, things, result, f)
    ensures Reloaded(env, table, items, rows, things, ItemTable(env, result), f)
    ensures Downward(ItemTable(env, result), f.contents, FIRST_ID + |rows|)
    ensures |rows| == |things|
  {
    hide Kids, RootsOf, ContentsOf, WeightsOf, ItemTable, Complete;
    forall k | 0 <= k < |rows| ensures things[k].payload.itemType in env.known {
      assert Storable(env, things[k]);
    }
    TableOfSaved(env, items, rows, things, result);
    ReloadedDownward(env, table, items, rows, things, ItemTable(env, result), f);
  }

  lemma {:induction false} RootTrees(env: Catalogue, table: Table, items: seq<(nat, Thing)>, rows: seq<Row>,
                                     things: seq<Thing>,
                                     m: map<nat, Entry>, f: Forest, key: nat)
    requires Reloaded(env, table, items, rows, things, m, f)
    requires |rows| == |things| && Downward(m, f.contents, FIRST_ID + |rows|)
    ensures forall k | k in Ids(Kids(rows, key)) :: k in m && 0 < k < FIRST_ID + |rows|
    ensures TreesOf(m, f.contents, FIRST_ID + |rows|, 0, Ids(Kids(rows, key))) == At(things, Kids(rows, key))
  {
    hide Kids, Reloaded, TreeOf, TreesOf, Downward;
    var kids, bound := Kids(rows, key), FIRST_ID + |rows|;
    var ks := Ids(kids);
    forall i | 0 <= i < |ks|
      ensures ks[i] in ks && 0 < ks[i] < bound && ks[i] in m && TreeOf(m, f.contents, bound, ks[i]) == things[kids[i]] {
      ReloadedAt(env, table, items, rows, things, m, f, kids[i]);
      TreeReloaded(env, table, items, rows, things, m, f, kids[i]);
    }
    TreesAre(m, f.contents, bound, 0, ks, things, kids);
  }

  lemma {:induction false} RootsReloaded(env: Catalogue, table: Table, items: seq<(nat, Thing)>, rows: seq<Row>,
                                         things: seq<Thing>, result: seq<Row>, f: Forest, key: nat)
    requires SavedAndLoaded(env, table, items, rows, things, result, f)
    requires Reloaded(env, table, items, rows, things, ItemTable(env, result), f) && |rows| == |things|
    requires Downward(ItemTable(env, result), f.contents, FIRST_ID + |rows|)
    ensures forall k | k in RootItems(f.roots, key) :: k in ItemTable(env, result) && 0 < k < FIRST_ID + |rows|
    ensures TreesOf(ItemTable(env, result), f.contents, FIRST_ID + |rows|, 0, RootItems(f.roots, key)) ==
      RootsUnder(items, key)
  {
    hide Kids, Complete, ItemTable;
    var m, bound := ItemTable(env, result), FIRST_ID + |rows|;
    var ks := RootItems(f.roots, key);
    assert RootList(table, m, m.Keys, key, ks);
    RootsAreKids(table, items, rows, things, m, f.roots, key);
    if IsRootKey(table, key) {
      RootTrees(env, table, items, rows, things, m, f, key);
      assert rows[..|rows|] == rows && items[..|items|] == items;
      KidsAreRoots(items, rows, things, key, |rows|);
    } else {
      NoRootsUnder(table, items, key);
    }
  }

  lemma {:induction false} NoRootsUnder(table: Table, items: seq<(nat, Thing)>, key: nat)
    requires Rooted(table, items) && !IsRootKey(table, key)
    ensures RootsUnder(items, key) == []
  {
    if items != [] {
      NoRootsUnder(table, items[..|items| - 1], key);
    }
  }

  lemma {:induction false} WeightsReloaded(env: Catalogue, table: Table, items: seq<(nat, Thing)>, rows: seq<Row>,
                                           things: seq<Thing>, result: seq<Row>, f: Forest)
    requires SavedAndLoaded(env, table, items, rows, things, result, f)
    requires Reloaded(env, table, items, rows, things, ItemTable(env, result), f) && |rows| == |things|
    requires Downward(ItemTable(env, result), f.contents, FIRST_ID + |rows|)
    ensures RightWeights(env, ItemTable(env, result), f, FIRST_ID + |rows|)
  {
    hide Kids, Complete, ItemTable, Saved, Storable, TreeOf, FullWeight, Weight, Downward;
    var m, bound := ItemTable(env, result), FIRST_ID + |rows|;
    forall p | p in f.contents && p in m && p < bound
      ensures FullWeight(env, m, f.totalWeight, p) == Weight(env, TreeOf(m, f.contents, bound, p))
    {
      OneWeight(env, table, items, rows, things, m, f, p - FIRST_ID);
    }
  }

  lemma {:induction false} OneWeight(env: Catalogue, table: Table, items: seq<(nat, Thing)>, rows: seq<Row>,
                                     things: seq<Thing>, m: map<nat, Entry>, f: Forest, k: nat)
    requires Reloaded(env, table, items, rows, things, m, f) && WeightsOf(env, m, f) && k < |rows| == |things|
    requires Downward(m, f.contents, FIRST_ID + |rows|) && f.contents.Keys == f.totalWeight.Keys && FIRST_ID + k in m
    ensures FullWeight(env, m, f.totalWeight, FIRST_ID + k) ==
      Weight(env, TreeOf(m, f.contents, FIRST_ID + |rows|, FIRST_ID + k))
  {
    hide Reloaded, TreeOf, FullWeight, Weight, Downward, WeightsOf;
    TreeReloaded(env, table, items, rows, things, m, f, k);
    WeightReloaded(env, table, items, rows, things, m, f, k);
  }

  // Pointers and lists agree unless a row names an id that doubles as a slot or depot number.
  lemma {:induction false} ParentsReloaded(env: Catalogue, table: Table, m: map<nat, Entry>, f: Forest)
    requires ContentsOf(env, table, m, m.Keys, f)
    requires forall s | s in m :: !IsRootPid(table, s)
    ensures RightParents(f)
  {
    forall p | p in f.contents ensures Lists(m, m.Keys, p, f.contents[p]) {}
    forall p, k | p in f.contents && k in f.contents[p] ensures k in f.parent && f.parent[k] == p {
      assert Lists(m, m.Keys, p, f.contents[p]);
    }
  }

  // The rows of a save can be read back, in whatever order they come: roots are the first rows, and no row behind
  // them reads as one.
  lemma {:induction false} FlattenedParentsFirst(env: Catalogue, table: Table, items: seq<(nat, Thing)>, rows: seq<Row>,
                                                 result: seq<Row>)
    requires Rooted(table, items) && Flattened(env, items, rows) && forall r :: r in result <==> r in rows
    ensures ParentsFirst(table, ItemTable(env, result)) && Deepens(table, ItemTable(env, result), OwnId)
    ensures |items| <= |rows| && forall k | 0 <= k < |items| :: rows[k].pid == items[k].0
    ensures forall k | |items| <= k < |rows| :: FIRST_ID <= rows[k].pid < FIRST_ID + k && !IsRootPid(table, rows[k].pid)
  {
    hide ItemTable, Complete, Rooted;
    var things: seq<Thing> :| Saved(items, rows, things) && forall k | 0 <= k < |rows| :: Storable(env, things[k]);
    forall k | 0 <= k < |rows| ensures things[k].payload.itemType in env.known {
      assert Storable(env, things[k]);
    }
    TableOfSaved(env, items, rows, things, result);
    SavedParentsFirst(table, items, rows, things, ItemTable(env, result));
  }

  // Saving any forest and loading it, whatever order the rows come back in, gives the same forest: the
  // same roots and contents in the same order, pointers to the right container, and right cached weights.
  lemma {:induction false} SaveThenLoad(env: Catalogue, table: Table, items: seq<(nat, Thing)>, rows: seq<Row>,
                                        result: seq<Row>, f: Forest)
    requires Rooted(table, items) && Flattened(env, items, rows) && (forall r :: r in result <==> r in rows)
    requires Rebuilt(env, table, ItemTable(env, result), f)
    ensures Downward(ItemTable(env, result), f.contents, FIRST_ID + |rows|)
    ensures RootsBounded(ItemTable(env, result), f.roots, FIRST_ID + |rows|)
    ensures SameRoots(ItemTable(env, result), f, FIRST_ID + |rows|, items)
    ensures RightWeights(env, ItemTable(env, result), f, FIRST_ID + |rows|)
    ensures RightParents(f)
  {
    var things: seq<Thing> :| Saved(items, rows, things) && forall k | 0 <= k < |rows| :: Storable(env, things[k]);
    assert SavedAndLoaded(env, table, items, rows, things, result, f);
    hide *;
    Reload(env, table, items, rows, things, result, f);
    ParentsReloaded(env, table, ItemTable(env, result), f);
    WeightsReloaded(env, table, items, rows, things, result, f);
    forall key
      ensures forall k | k in RootItems(f.roots, key) :: k in ItemTable(env, result) && 0 < k < FIRST_ID + |rows|
      ensures TreesOf(ItemTable(env, result), f.contents, FIRST_ID + |rows|, 0, RootItems(f.roots, key)) ==
        RootsUnder(items, key)
    {
      RootsReloaded(env, table, items, rows, things, result, f, key);
    }
  }
}
