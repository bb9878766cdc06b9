/** The forest of items rebuilt from a player's rows, read in descending order of their ids. */
module PlayerItemForest {
  import opened PlayerItemRows

  // The rebuilt items: containers' contents front first, their cached weight, everyone's container.
  datatype Forest = Forest(roots: map<nat, seq<nat>>, contents: map<nat, seq<nat>>,
                           totalWeight: map<nat, nat>, parent: map<nat, nat>)

  ghost predicate Ascending(ks: seq<nat>) {
    forall i, j | 0 <= i < j < |ks| :: ks[i] < ks[j]
  }

  // A nested row's parent has a smaller id.
  ghost predicate ParentsFirst(table: Table, m: map<nat, Entry>) {
    forall s | s in m && !IsRootPid(table, m[s].pid) :: m[s].pid < s
  }

  // Contents lie deeper than what contains them, so that no row lies, over any number of others, in itself: on such
  // a cycle the upward weight update would not end.
  ghost predicate Deepens(table: Table, m: map<nat, Entry>, depth: nat -> nat) {
    forall s | s in m && !IsRootPid(table, m[s].pid) && m[s].pid in m :: depth(m[s].pid) < depth(s)
  }

  function OwnId(s: nat): nat {
    s
  }

  function FullWeight(env: Catalogue, m: map<nat, Entry>, total: map<nat, nat>, s: nat): nat
    requires s in m
  {
    env.weightOf(m[s].payload) + if s in total then total[s] else 0
  }

  ghost function Load(env: Catalogue, m: map<nat, Entry>, total: map<nat, nat>, ks: seq<nat>): nat
    requires forall k | k in ks :: k in m
  {
    if ks == [] then 0 else FullWeight(env, m, total, ks[0]) + Load(env, m, total, ks[1..])
  }

  // `ks` lists, in ascending order, the ids in `done` whose parent is `pid`.
  ghost predicate Lists(m: map<nat, Entry>, done: set<nat>, pid: nat, ks: seq<nat>)
    requires done <= m.Keys
  {
    Ascending(ks) && forall k :: k in ks <==> k in done && m[k].pid == pid
  }

  function RootItems(roots: map<nat, seq<nat>>, key: nat): seq<nat> {
    if key in roots then roots[key] else []
  }

  ghost predicate RootEntry(table: Table, m: map<nat, Entry>, done: set<nat>, key: nat, k: nat)
    requires done <= m.Keys
  {
    k in done && IsRootPid(table, m[k].pid) && RootKey(table, m[k].pid) == key
  }

  // A depot or the inbox lists all its items in ascending order; a worn slot holds the last of them.
  ghost predicate RootList(table: Table, m: map<nat, Entry>, done: set<nat>, key: nat, ks: seq<nat>)
    requires done <= m.Keys
  {
    if table.Inventory? then
      && |ks| <= 1
      && (forall k | k in ks :: RootEntry(table, m, done, key, k))
      && (forall k | RootEntry(table, m, done, key, k) :: ks != [] && k <= ks[0])
    else
      Ascending(ks) && forall k :: k in ks <==> RootEntry(table, m, done, key, k)
  }

  ghost predicate RootsOf(table: Table, m: map<nat, Entry>, done: set<nat>, roots: map<nat, seq<nat>>)
    requires done <= m.Keys
  {
    forall key :: RootList(table, m, done, key, RootItems(roots, key))
  }

  ghost predicate ContentsOf(env: Catalogue, table: Table, m: map<nat, Entry>, done: set<nat>, f: Forest)
    requires done <= m.Keys
  {
    && f.contents.Keys == f.totalWeight.Keys
    && (forall s :: s in f.contents <==> s in m && m[s].payload.itemType in env.containers)
    && (forall p | p in f.contents ::
      if IsRootPid(table, p) then f.contents[p] == [] else Lists(m, done, p, f.contents[p]))
    && (forall k | k in f.parent :: k in done && f.parent[k] == m[k].pid && f.parent[k] in f.contents)
    && (forall k | k in f.parent :: !IsRootPid(table, f.parent[k]))
    && (forall k | k in done && !IsRootPid(table, m[k].pid) && m[k].pid in f.contents :: k in f.parent)
  }

  ghost predicate WeightsOf(env: Catalogue, m: map<nat, Entry>, f: Forest) {
    forall p | p in f.contents ::
      (forall k | k in f.contents[p] :: k in m) && p in f.totalWeight &&
      f.totalWeight[p] == Load(env, m, f.totalWeight, f.contents[p])
  }

  // The same, but for one container, whose cached weight is too low.
  ghost predicate WeightsBut(env: Catalogue, m: map<nat, Entry>, f: Forest, c: nat, diff: nat) {
    forall p | p in f.contents ::
      (forall k | k in f.contents[p] :: k in m) && p in f.totalWeight &&
      f.totalWeight[p] + (if p == c then diff else 0) == Load(env, m, f.totalWeight, f.contents[p])
  }

  ghost predicate Rebuilt(env: Catalogue, table: Table, m: map<nat, Entry>, f: Forest) {
    RootsOf(table, m, m.Keys, f.roots) && ContentsOf(env, table, m, m.Keys, f) && WeightsOf(env, m, f)
  }

  // Raising one cached weight raises what a list weighs by as much if the list has it.
  lemma {:induction false} LoadRaised(env: Catalogue, m: map<nat, Entry>, total: map<nat, nat>, ks: seq<nat>, c: nat,
                                      diff: nat)
    requires Ascending(ks) && c in total && forall k | k in ks :: k in m
    ensures Load(env, m, total[c := total[c] + diff], ks) == Load(env, m, total, ks) + if c in ks then diff else 0
  {
    if ks != [] {
      assert forall i | 0 < i < |ks| :: ks[0] < ks[i];
      LoadRaised(env, m, total, ks[1..], c, diff);
    }
  }

  method Largest(s: set<nat>) returns (x: nat)
    requires s != {}
    ensures x in s && forall y | y in s :: y <= x
  {
    var rest := s;
    x :| x in rest;
    rest := rest - {x};
    while rest != {}
      invariant rest <= s && x in s
      invariant forall y | y in s && y !in rest :: y <= x
      decreases rest
    {
      var y :| y in rest;
      if y > x { x := y; }
      rest := rest - {y};
    }
  }

  // Where the front of its root list the next item goes; a worn slot keeps the first item it got.
  function WithRoot(table: Table, roots: map<nat, seq<nat>>, pid: nat, sid: nat): map<nat, seq<nat>> {
    var key := RootKey(table, pid);
    var ks := RootItems(roots, key);
    if table.Inventory? && ks != [] then roots else roots[key := [sid] + ks]
  }

  // At the front of the container.
  function WithContent(f: Forest, pid: nat, sid: nat): Forest
    requires pid in f.contents
  {
    f.(contents := f.contents[pid := [sid] + f.contents[pid]], parent := f.parent[sid := pid])
  }

  function Raised(f: Forest, c: nat, diff: nat): Forest
    requires c in f.totalWeight
  {
    f.(totalWeight := f.totalWeight[c := f.totalWeight[c] + diff])
  }

  ghost predicate Next(m: map<nat, Entry>, done: set<nat>, sid: nat) {
    done <= m.Keys && sid in m && forall d | d in done :: sid < d
  }

  lemma {:induction false} RootListStep(table: Table, m: map<nat, Entry>, done: set<nat>, key: nat, ks: seq<nat>,
                                        sid: nat)
    requires Next(m, done, sid) && RootList(table, m, done, key, ks)
    ensures var hit := RootEntry(table, m, {sid}, key, sid);
            RootList(table, m, done + {sid}, key,
                     if !hit || (table.Inventory? && ks != []) then ks else [sid] + ks)
  {
    assert forall i | 0 <= i < |ks| :: ks[i] in ks;
    assert forall k :: RootEntry(table, m, done + {sid}, key, k) <==>
        RootEntry(table, m, done, key, k) || (k == sid && RootEntry(table, m, {sid}, key, sid));
    assert forall k :: k in [sid] + ks <==> k == sid || k in ks;
  }

  lemma {:induction false} RootStep(table: Table, m: map<nat, Entry>, done: set<nat>, roots: map<nat, seq<nat>>,
                                    sid: nat)
    requires Next(m, done, sid) && RootsOf(table, m, done, roots)
    ensures RootsOf(table, m, done + {sid},
                    if IsRootPid(table, m[sid].pid) then WithRoot(table, roots, m[sid].pid, sid) else roots)
  {
    hide RootList;
    var roots' := if IsRootPid(table, m[sid].pid) then WithRoot(table, roots, m[sid].pid, sid) else roots;
    forall key ensures RootList(table, m, done + {sid}, key, RootItems(roots', key)) {
      assert RootList(table, m, done, key, RootItems(roots, key));
      RootListStep(table, m, done, key, RootItems(roots, key), sid);
    }
  }

  lemma {:induction false} NotContentStep(env: Catalogue, table: Table, m: map<nat, Entry>, done: set<nat>, f: Forest,
                                          sid: nat, roots: map<nat, seq<nat>>)
    requires Next(m, done, sid) && ContentsOf(env, table, m, done, f) && WeightsOf(env, m, f)
    requires IsRootPid(table, m[sid].pid) || m[sid].pid !in f.contents
    ensures ContentsOf(env, table, m, done + {sid}, f.(roots := roots)) && WeightsOf(env, m, f.(roots := roots))
  {
    hide Lists, Load;
    forall p | p in f.contents && !IsRootPid(table, p)
      ensures Lists(m, done + {sid}, p, f.contents[p])
    {
      ListsStep(m, done, p, f.contents[p], sid);
    }
  }

  lemma {:induction false} ListsStep(m: map<nat, Entry>, done: set<nat>, pid: nat, ks: seq<nat>, sid: nat)
    requires Next(m, done, sid) && Lists(m, done, pid, ks)
    ensures Lists(m, done + {sid}, pid, if m[sid].pid == pid then [sid] + ks else ks)
  {
    var ks' := if m[sid].pid == pid then [sid] + ks else ks;
    assert forall k :: k in ks' <==> k in ks || (k == sid && m[sid].pid == pid);
    assert forall i | 0 <= i < |ks| :: ks[i] in ks;
  }

  lemma {:induction false} NestStep(env: Catalogue, table: Table, m: map<nat, Entry>, done: set<nat>, f: Forest,
                                    sid: nat)
    requires Next(m, done, sid) && ContentsOf(env, table, m, done, f)
    requires !IsRootPid(table, m[sid].pid) && m[sid].pid in f.contents
    ensures ContentsOf(env, table, m, done + {sid}, WithContent(f, m[sid].pid, sid))
  {
    hide Lists;
    var f' := WithContent(f, m[sid].pid, sid);
    forall p | p in f'.contents && !IsRootPid(table, p)
      ensures Lists(m, done + {sid}, p, f'.contents[p])
    {
      ListsStep(m, done, p, f.contents[p], sid);
    }
  }

  // The container that gets an item is too light by its weight.
  lemma {:induction false} WeightStep(env: Catalogue, table: Table, m: map<nat, Entry>, done: set<nat>, f: Forest,
                                      sid: nat)
    requires Next(m, done, sid) && ContentsOf(env, table, m, done, f) && WeightsOf(env, m, f)
    requires !IsRootPid(table, m[sid].pid) && m[sid].pid in f.contents
    ensures WeightsBut(env, m, WithContent(f, m[sid].pid, sid), m[sid].pid, FullWeight(env, m, f.totalWeight, sid))
  {
    var pid := m[sid].pid;
    var f' := WithContent(f, pid, sid);
    assert f'.contents[pid][1..] == f.contents[pid];
  }

  lemma {:induction false} StillContents(env: Catalogue, table: Table, m: map<nat, Entry>, done: set<nat>, f: Forest,
                                         c: nat, diff: nat)
    requires done <= m.Keys && ContentsOf(env, table, m, done, f) && c in f.contents
    ensures ContentsOf(env, table, m, done, Raised(f, c, diff))
  {
    hide Lists;
  }

  lemma {:induction false} RaisedAt(env: Catalogue, table: Table, m: map<nat, Entry>, done: set<nat>, f: Forest, c: nat,
                                    diff: nat, p: nat)
    requires done <= m.Keys && ContentsOf(env, table, m, done, f) && p in f.contents && c in f.totalWeight
    requires forall k | k in f.contents[p] :: k in m
    ensures Load(env, m, Raised(f, c, diff).totalWeight, f.contents[p])
         == Load(env, m, f.totalWeight, f.contents[p]) + if c in f.parent && f.parent[c] == p then diff else 0
  {
    hide Load;
    assert IsRootPid(table, p) || Lists(m, done, p, f.contents[p]);
    LoadRaised(env, m, f.totalWeight, f.contents[p], c, diff);
  }

  // Putting one cached weight right moves the difference to the container around it.
  lemma {:induction false} RaisedOne(env: Catalogue, table: Table, m: map<nat, Entry>, done: set<nat>, f: Forest,
                                     c: nat, diff: nat)
    requires done <= m.Keys && ContentsOf(env, table, m, done, f) && WeightsBut(env, m, f, c, diff) && c in f.contents
    ensures if c in f.parent then WeightsBut(env, m, Raised(f, c, diff), f.parent[c], diff)
            else WeightsOf(env, m, Raised(f, c, diff))
  {
    hide ContentsOf, Load;
    forall p | p in f.contents
      ensures Load(env, m, Raised(f, c, diff).totalWeight, f.contents[p])
           == Load(env, m, f.totalWeight, f.contents[p]) + if c in f.parent && f.parent[c] == p then diff else 0
    {
      RaisedAt(env, table, m, done, f, c, diff, p);
    }
  }

  lemma {:induction false} ParentDeepens(env: Catalogue, table: Table, m: map<nat, Entry>, done: set<nat>, f: Forest,
                                         c: nat, depth: nat -> nat)
    requires done <= m.Keys && ContentsOf(env, table, m, done, f) && c in f.parent && Deepens(table, m, depth)
    ensures f.parent[c] in f.contents && depth(f.parent[c]) < depth(c)
  {
    hide Lists;
  }

  // Passes a weight up from a container to the outermost one around it.
  method UpdateItemWeight(env: Catalogue, table: Table, m: map<nat, Entry>, ghost done: set<nat>, f0: Forest, c: nat,
                          diff: nat, ghost depth: nat -> nat) returns (f: Forest)
    requires done <= m.Keys && ContentsOf(env, table, m, done, f0) && WeightsBut(env, m, f0, c, diff)
    requires c in f0.contents && Deepens(table, m, depth)
    ensures f == f0.(totalWeight := f.totalWeight)
    ensures ContentsOf(env, table, m, done, f) && WeightsOf(env, m, f)
    decreases depth(c)
  {
    assert c in f0.totalWeight;
    hide ContentsOf, WeightsBut, WeightsOf;
    StillContents(env, table, m, done, f0, c, diff);
    RaisedOne(env, table, m, done, f0, c, diff);
    f := Raised(f0, c, diff);
    if c in f.parent {
      ParentDeepens(env, table, m, done, f, c, depth);
      f := UpdateItemWeight(env, table, m, done, f, f.parent[c], diff, depth);
    }
  }

  // Puts an item to the front of its slot, depot or inbox, or into its container.
  method Place(env: Catalogue, table: Table, m: map<nat, Entry>, ghost done: set<nat>, f0: Forest, sid: nat,
               ghost depth: nat -> nat) returns (f: Forest)
    requires Next(m, done, sid) && RootsOf(table, m, done, f0.roots) && ContentsOf(env, table, m, done, f0)
    requires WeightsOf(env, m, f0) && Deepens(table, m, depth)
    ensures RootsOf(table, m, done + {sid}, f.roots) && ContentsOf(env, table, m, done + {sid}, f)
    ensures WeightsOf(env, m, f)
  {
    hide RootsOf, ContentsOf, WeightsOf, WeightsBut, Load, Deepens;
    var pid := m[sid].pid;
    RootStep(table, m, done, f0.roots, sid);
    if IsRootPid(table, pid) {
      NotContentStep(env, table, m, done, f0, sid, WithRoot(table, f0.roots, pid, sid));
      f := f0.(roots := WithRoot(table, f0.roots, pid, sid));
    } else if pid in f0.contents {
      NestStep(env, table, m, done, f0, sid);
      WeightStep(env, table, m, done, f0, sid);
      f := UpdateItemWeight(env, table, m, done + {sid}, WithContent(f0, pid, sid), pid,
                            FullWeight(env, m, f0.totalWeight, sid), depth);
    } else {
      NotContentStep(env, table, m, done, f0, sid, f0.roots);
      f := f0.(roots := f0.roots);
    }
  }

  // Reads the items in descending id order; each goes to the front of its slot, depot, inbox or container.
  method Rebuild(env: Catalogue, table: Table, itemMap: map<nat, Entry>, ghost depth: nat -> nat) returns (f: Forest)
    requires Deepens(table, itemMap, depth)
    ensures Rebuilt(env, table, itemMap, f)
  {
    hide RootsOf, ContentsOf, WeightsOf, WeightsBut, Load, Deepens;
    var empty := map s | s in itemMap && itemMap[s].payload.itemType in env.containers :: [];
    f := Forest(map[], empty, map s | s in empty :: 0, map[]);
    var todo := itemMap.Keys;
    NothingRebuilt(env, table, itemMap, f);
    assert itemMap.Keys - todo == {};
    while todo != {}
      invariant todo <= itemMap.Keys
      invariant forall t, d | t in todo && d in itemMap.Keys - todo :: t < d
      invariant RootsOf(table, itemMap, itemMap.Keys - todo, f.roots)
      invariant ContentsOf(env, table, itemMap, itemMap.Keys - todo, f)
      invariant WeightsOf(env, itemMap, f)
      decreases todo
    {
      var sid := Largest(todo);
      ghost var done := itemMap.Keys - todo;
      f := Place(env, table, itemMap, done, f, sid, depth);
      todo := todo - {sid};
      assert itemMap.Keys - todo == done + {sid};
    }
    assert itemMap.Keys - todo == itemMap.Keys;
  }

  lemma {:induction false} NothingRebuilt(env: Catalogue, table: Table, m: map<nat, Entry>, f: Forest)
    requires f.roots == map[] && f.parent == map[]
    requires f.contents == map s | s in m && m[s].payload.itemType in env.containers :: []
    requires f.totalWeight == map s | s in f.contents :: 0
    ensures RootsOf(table, m, {}, f.roots) && ContentsOf(env, table, m, {}, f) && WeightsOf(env, m, f)
  {}
}
