/** What a player keeps in depot chest and inbox, as the market sees it: collecting, taking and delivering goods. */
module MarketGoods {

  const WIDTH16 := 65536
  const STACK := 100

  // A thing with what lies in it. `saleable` says that its attributes are the ones it was made with and, of an
  // empty container, that its size is.
  datatype Thing = Thing(uid: nat, ware: nat, count: nat, saleable: bool, inside: seq<Thing>)

  datatype Entry = Entry(uid: nat, ware: nat, count: nat)

  datatype Account = Account(balance: nat, depot: seq<Thing>, inbox: seq<Thing>)

  function EntryOf(t: Thing): Entry {
    Entry(t.uid, t.ware, t.count)
  }

  // Everything at any depth.
  function Flat(things: seq<Thing>): seq<Entry> {
    if things == [] then [] else [EntryOf(things[0])] + Flat(things[0].inside) + Flat(things[1..])
  }

  function All(a: Account): seq<Entry> {
    Flat(a.depot) + Flat(a.inbox)
  }

  function Units(entries: seq<Entry>, ware: nat): nat {
    if entries == [] then 0 else (if entries[0].ware == ware then entries[0].count else 0) + Units(entries[1..], ware)
  }

  function Uids(entries: seq<Entry>): multiset<nat> {
    if entries == [] then multiset{} else multiset{entries[0].uid} + Uids(entries[1..])
  }

  // ---------------------------------------------------------------- lists

  lemma {:induction false} UnitsConcat(a: seq<Entry>, b: seq<Entry>, ware: nat)
    ensures Units(a + b, ware) == Units(a, ware) + Units(b, ware)
  {
    if a == [] {
      assert a + b == b;
    } else {
      assert (a + b)[1..] == a[1..] + b;
      UnitsConcat(a[1..], b, ware);
    }
  }

  lemma {:induction false} UidsConcat(a: seq<Entry>, b: seq<Entry>)
    ensures Uids(a + b) == Uids(a) + Uids(b)
  {
    if a == [] {
      assert a + b == b;
    } else {
      assert (a + b)[1..] == a[1..] + b;
      UidsConcat(a[1..], b);
    }
  }

  lemma {:induction false} UidsOf(entries: seq<Entry>)
    ensures forall e | e in entries :: Uids(entries)[e.uid] >= 1
    ensures forall u | u in Uids(entries) :: exists e :: e in entries && e.uid == u
  {
    if entries != [] {
      UidsOf(entries[1..]);
      assert entries == [entries[0]] + entries[1..];
      forall u | u in Uids(entries) ensures exists e :: e in entries && e.uid == u {
        if u == entries[0].uid {
          assert entries[0] in entries;
        } else {
          assert u in Uids(entries[1..]);
          var e :| e in entries[1..] && e.uid == u;
          assert e in entries;
        }
      }
    }
  }

  // Takes `n` units off the entry with a name, the entry itself when no unit is left.
  function Without(entries: seq<Entry>, uid: nat, n: nat): seq<Entry> {
    if entries == [] then [] else Less(entries[0], uid, n) + Without(entries[1..], uid, n)
  }

  function Less(e: Entry, uid: nat, n: nat): seq<Entry> {
    if e.uid != uid then [e] else if e.count <= n then [] else [e.(count := e.count - n)]
  }

  lemma {:induction false} WithoutConcat(a: seq<Entry>, b: seq<Entry>, uid: nat, n: nat)
    ensures Without(a + b, uid, n) == Without(a, uid, n) + Without(b, uid, n)
  {
    if a == [] {
      assert a + b == b;
    } else {
      assert (a + b)[1..] == a[1..] + b;
      WithoutConcat(a[1..], b, uid, n);
    }
  }

  lemma {:induction false} WithoutAbsent(entries: seq<Entry>, uid: nat, n: nat)
    requires uid !in Uids(entries)
    ensures Without(entries, uid, n) == entries
  {
    if entries != [] {
      WithoutAbsent(entries[1..], uid, n);
      assert entries == [entries[0]] + entries[1..];
    }
  }

  lemma {:induction false} WithoutUnits(entries: seq<Entry>, e: Entry, n: nat, ware: nat)
    requires e in entries && Uids(entries)[e.uid] == 1 && n <= e.count
    ensures Units(Without(entries, e.uid, n), ware) + (if ware == e.ware then n else 0) == Units(entries, ware)
  {
    var first, rest := entries[0], entries[1..];
    UidsOf(rest);
    assert entries == [first] + rest;
    UnitsConcat(Less(first, e.uid, n), Without(rest, e.uid, n), ware);
    if first.uid == e.uid {
      assert first == e;
      WithoutAbsent(rest, e.uid, n);
      assert Units([e.(count := e.count - n)], ware) == if e.ware == ware then e.count - n else 0;
    } else {
      WithoutUnits(rest, e, n, ware);
      assert Units([first], ware) == if first.ware == ware then first.count else 0;
    }
  }

  // Stacks have 1 to 255 units, other things one.
  predicate Countable(e: Entry, stackable: nat -> bool) {
    1 <= e.count <= 255 && (!stackable(e.ware) ==> e.count == 1)
  }

  lemma {:induction false} WithoutStays(entries: seq<Entry>, uid: nat, n: nat)
    ensures forall e | e in entries && e.uid != uid :: e in Without(entries, uid, n)
  {
    if entries != [] {
      WithoutStays(entries[1..], uid, n);
      assert entries == [entries[0]] + entries[1..];
    }
  }

  lemma {:induction false} WithoutCountable(entries: seq<Entry>, uid: nat, n: nat, stackable: nat -> bool)
    requires forall e | e in entries :: Countable(e, stackable)
    ensures forall e | e in Without(entries, uid, n) :: Countable(e, stackable)
  {
    if entries != [] {
      WithoutCountable(entries[1..], uid, n, stackable);
      assert entries[0] in entries;
      assert forall e | e in Less(entries[0], uid, n) :: Countable(e, stackable);
    }
  }

  lemma {:induction false} LessUids(e: Entry, uid: nat, n: nat)
    ensures Uids(Less(e, uid, n)) <= multiset{e.uid}
  {}

  lemma {:induction false} WithoutUids(entries: seq<Entry>, uid: nat, n: nat)
    ensures Uids(Without(entries, uid, n)) <= Uids(entries)
  {
    hide Less;
    if entries != [] {
      WithoutUids(entries[1..], uid, n);
      UidsConcat(Less(entries[0], uid, n), Without(entries[1..], uid, n));
      LessUids(entries[0], uid, n);
    }
  }

  // ---------------------------------------------------------------- taking

  // Nothing lies in the thing with this name.
  predicate Plain(things: seq<Thing>, uid: nat) {
    things == [] ||
    ((things[0].uid == uid ==> things[0].inside == []) && Plain(things[0].inside, uid) && Plain(things[1..], uid))
  }

  function Taken(things: seq<Thing>, uid: nat, n: nat): seq<Thing> {
    if things == [] then []
    else TakenOff(things[0], uid, n) + Taken(things[1..], uid, n)
  }

  function TakenOff(t: Thing, uid: nat, n: nat): seq<Thing> {
    if t.uid != uid then [t.(inside := Taken(t.inside, uid, n))]
    else if t.count <= n then []
    else [t.(count := t.count - n)]
  }

  lemma {:induction false} TakenFlat(things: seq<Thing>, uid: nat, n: nat)
    requires Plain(things, uid)
    ensures Flat(Taken(things, uid, n)) == Without(Flat(things), uid, n)
  {
    if things != [] {
      var t := things[0];
      TakenFlat(t.inside, uid, n);
      TakenFlat(things[1..], uid, n);
      WithoutConcat([EntryOf(t)] + Flat(t.inside), Flat(things[1..]), uid, n);
      WithoutConcat([EntryOf(t)], Flat(t.inside), uid, n);
      FlatConcat(TakenOff(t, uid, n), Taken(things[1..], uid, n));
    }
  }

  lemma {:induction false} FlatConcat(a: seq<Thing>, b: seq<Thing>)
    ensures Flat(a + b) == Flat(a) + Flat(b)
  {
    if a == [] {
      assert a + b == b;
    } else {
      assert (a + b)[1..] == a[1..] + b;
      FlatConcat(a[1..], b);
    }
  }

  lemma {:induction false} TakenPlain(things: seq<Thing>, uid: nat, n: nat, u: nat)
    requires Plain(things, u)
    ensures Plain(Taken(things, uid, n), u)
  {
    if things != [] {
      var t := things[0];
      TakenPlain(t.inside, uid, n, u);
      TakenPlain(things[1..], uid, n, u);
      var front, rest := TakenOff(t, uid, n), Taken(things[1..], uid, n);
      assert front == [] ==> front + rest == rest;
      assert front != [] ==> (front + rest)[0] == front[0] && (front + rest)[1..] == rest;
    }
  }

  function TakenFrom(a: Account, uid: nat, n: nat): Account {
    a.(depot := Taken(a.depot, uid, n), inbox := Taken(a.inbox, uid, n))
  }

  predicate PlainIn(a: Account, uid: nat) {
    Plain(a.depot, uid) && Plain(a.inbox, uid)
  }

  // Names are used once and are older than `next`.
  ghost predicate AccountOk(a: Account, stackable: nat -> bool, next: nat) {
    && (forall u :: Uids(All(a))[u] <= 1 && (u in Uids(All(a)) ==> u < next))
    && (forall e | e in All(a) :: Countable(e, stackable))
  }

  lemma {:induction false} TakenOne(a: Account, e: Entry, n: nat, stackable: nat -> bool, next: nat)
    requires AccountOk(a, stackable, next) && e in All(a) && PlainIn(a, e.uid) && n <= e.count
    ensures var b := TakenFrom(a, e.uid, n);
      && AccountOk(b, stackable, next)
      && (forall w :: Units(All(b), w) + (if w == e.ware then n else 0) == Units(All(a), w))
      && (forall f | f in All(a) && f.uid != e.uid :: f in All(b))
      && (forall u | PlainIn(a, u) :: PlainIn(b, u))
  {
    var b := TakenFrom(a, e.uid, n);
    TakenAll(a, e.uid, n);
    hide All, Taken, Plain;
    UidsOf(All(a));
    WithoutStays(All(a), e.uid, n);
    WithoutCountable(All(a), e.uid, n, stackable);
    WithoutUids(All(a), e.uid, n);
    forall w ensures Units(All(b), w) + (if w == e.ware then n else 0) == Units(All(a), w) {
      WithoutUnits(All(a), e, n, w);
    }
    forall u | PlainIn(a, u) ensures PlainIn(b, u) {
      TakenPlain(a.depot, e.uid, n, u);
      TakenPlain(a.inbox, e.uid, n, u);
    }
  }

  lemma {:induction false} TakenAll(a: Account, uid: nat, n: nat)
    requires PlainIn(a, uid)
    ensures All(TakenFrom(a, uid, n)) == Without(All(a), uid, n)
  {
    TakenFlat(a.depot, uid, n);
    TakenFlat(a.inbox, uid, n);
    WithoutConcat(Flat(a.depot), Flat(a.inbox), uid, n);
  }

  // ---------------------------------------------------------------- collecting

  // What of a ware can be sold: saleable things in which nothing lies.
  function Saleable(things: seq<Thing>, ware: nat): seq<Entry> {
    if things == [] then []
    else
      (if things[0].inside != [] then Saleable(things[0].inside, ware)
       else if things[0].ware == ware && things[0].saleable then [EntryOf(things[0])] else [])
      + Saleable(things[1..], ware)
  }

  function SaleableIn(queue: seq<seq<Thing>>, ware: nat): nat {
    if queue == [] then 0 else Units(Saleable(queue[0], ware), ware) + SaleableIn(queue[1..], ware)
  }

  function Offerable(a: Account, ware: nat): nat {
    Units(Saleable(a.depot, ware), ware) + Units(Saleable(a.inbox, ware), ware)
  }
  ghost predicate Within(things: seq<Thing>, t: Thing) {
    things != [] && (t == things[0] || Within(things[0].inside, t) || Within(things[1..], t))
  }

  ghost predicate Kept(a: Account, t: Thing) {
    Within(a.depot, t) || Within(a.inbox, t)
  }

  lemma {:induction false} WithinInside(things: seq<Thing>, t: Thing)
    requires Within(things, t)
    ensures forall c | c in t.inside :: Within(things, c)
    decreases things
  {
    if t == things[0] {
      forall c | c in t.inside ensures Within(things, c) {
        WithinTop(t.inside, c);
      }
    } else if Within(things[0].inside, t) {
      WithinInside(things[0].inside, t);
    } else {
      WithinInside(things[1..], t);
    }
  }

  lemma {:induction false} WithinTop(things: seq<Thing>, t: Thing)
    requires t in things
    ensures Within(things, t)
  {
    if t != things[0] {
      WithinTop(things[1..], t);
    }
  }

  lemma {:induction false} WithinFlat(things: seq<Thing>, t: Thing)
    requires Within(things, t)
    ensures EntryOf(t) in Flat(things)
  {
    if t == things[0] {
    } else if Within(things[0].inside, t) {
      WithinFlat(things[0].inside, t);
    } else {
      WithinFlat(things[1..], t);
    }
  }

  lemma {:induction false} FlatUids(things: seq<Thing>)
    requires things != []
    ensures Uids(Flat(things)) == multiset{things[0].uid} + Uids(Flat(things[0].inside)) + Uids(Flat(things[1..]))
  {
    var e := EntryOf(things[0]);
    UidsConcat([e] + Flat(things[0].inside), Flat(things[1..]));
    UidsConcat([e], Flat(things[0].inside));
    assert [e][1..] == [];
  }

  lemma {:induction false} PlainAbsent(things: seq<Thing>, uid: nat)
    requires uid !in Uids(Flat(things))
    ensures Plain(things, uid)
  {
    if things != [] {
      FlatUids(things);
      PlainAbsent(things[0].inside, uid);
      PlainAbsent(things[1..], uid);
    }
  }

  // A thing in which nothing lies is the only one of its name.
  lemma {:induction false} PlainLeaf(things: seq<Thing>, t: Thing)
    requires Within(things, t) && t.inside == [] && Uids(Flat(things))[t.uid] <= 1
    ensures Plain(things, t.uid) && t.uid in Uids(Flat(things))
  {
    FlatUids(things);
    var first, rest := things[0], things[1..];
    if t == first {
      PlainAbsent(first.inside, t.uid);
      PlainAbsent(rest, t.uid);
    } else if Within(first.inside, t) {
      PlainLeaf(first.inside, t);
      PlainAbsent(rest, t.uid);
    } else {
      PlainLeaf(rest, t);
      PlainAbsent(first.inside, t.uid);
    }
  }

  lemma {:induction false} KeptPlain(a: Account, t: Thing)
    requires Kept(a, t) && t.inside == [] && Uids(All(a))[t.uid] <= 1
    ensures PlainIn(a, t.uid) && EntryOf(t) in All(a)
  {
    UidsConcat(Flat(a.depot), Flat(a.inbox));
    if Within(a.depot, t) {
      PlainLeaf(a.depot, t);
      WithinFlat(a.depot, t);
      PlainAbsent(a.inbox, t.uid);
    } else {
      PlainLeaf(a.inbox, t);
      WithinFlat(a.inbox, t);
      PlainAbsent(a.depot, t.uid);
    }
  }

  function QueueUids(queue: seq<seq<Thing>>): multiset<nat> {
    if queue == [] then multiset{} else Uids(Flat(queue[0])) + QueueUids(queue[1..])
  }

  function QueueSize(queue: seq<seq<Thing>>): nat {
    if queue == [] then 0 else |Flat(queue[0])| + QueueSize(queue[1..])
  }

  lemma {:induction false} QueueSnoc(queue: seq<seq<Thing>>, things: seq<Thing>, ware: nat)
    ensures QueueUids(queue + [things]) == QueueUids(queue) + Uids(Flat(things))
    ensures QueueSize(queue + [things]) == QueueSize(queue) + |Flat(things)|
    ensures SaleableIn(queue + [things], ware) == SaleableIn(queue, ware) + Units(Saleable(things, ware), ware)
  {
    if queue == [] {
      assert queue + [things] == [things] && [things][1..] == [];
    } else {
      assert (queue + [things])[1..] == queue[1..] + [things];
      QueueSnoc(queue[1..], things, ware);
    }
  }

  // What a list of collected things is: things in which nothing lies, of the ware, each once.
  ghost predicate Collected(a: Account, ware: nat, list: seq<Entry>) {
    && OfWare(a, ware, list)
    && (forall u :: Uids(list)[u] <= 1)
  }

  ghost predicate OfWare(a: Account, ware: nat, list: seq<Entry>) {
    forall e | e in list :: e in All(a) && PlainIn(a, e.uid) && e.ware == ware
  }

  ghost predicate AllKept(a: Account, rest: seq<Thing>, queue: seq<seq<Thing>>) {
    (forall t | t in rest :: Kept(a, t)) && (forall things, t | things in queue && t in things :: Kept(a, t))
  }

  // The collected things, the rest of the list at hand, and the lists in the queue: no name twice, and together
  // all that can be sold.
  ghost predicate Progress(a: Account, ware: nat, list: seq<Entry>, rest: seq<Thing>, queue: seq<seq<Thing>>) {
    && AllKept(a, rest, queue)
    && OfWare(a, ware, list)
    && Uids(list) + Uids(Flat(rest)) + QueueUids(queue) <= Uids(All(a))
    && Units(list, ware) + Units(Saleable(rest, ware), ware) + SaleableIn(queue, ware) == Offerable(a, ware)
  }

  lemma {:induction false} ProgressStart(a: Account, ware: nat)
    ensures Progress(a, ware, [], [], [a.depot, a.inbox])
  {
    var queue := [a.depot, a.inbox];
    StartQueue(a, ware);
    hide Flat, Saleable, QueueUids, SaleableIn;
    forall things, t | things in queue && t in things ensures Kept(a, t) {
      WithinTop(things, t);
    }
  }

  lemma {:induction false} NothingQueued(ware: nat)
    ensures Flat([]) == [] && Saleable([], ware) == []
    ensures QueueUids([]) == multiset{} && SaleableIn([], ware) == 0
  {}

  lemma {:induction false} StartQueue(a: Account, ware: nat)
    ensures Flat([]) == [] && Saleable([], ware) == []
    ensures QueueUids([a.depot, a.inbox]) == Uids(All(a))
    ensures SaleableIn([a.depot, a.inbox], ware) == Offerable(a, ware)
  {
    var none: seq<seq<Thing>> := [];
    NothingQueued(ware);
    hide Flat, Saleable, Units, Uids, QueueUids, QueueSize, SaleableIn;
    assert [a.depot, a.inbox] == (none + [a.depot]) + [a.inbox];
    QueueSnoc(none, a.depot, ware);
    QueueSnoc(none + [a.depot], a.inbox, ware);
    UidsConcat(Flat(a.depot), Flat(a.inbox));
  }

  lemma {:induction false} ProgressNext(a: Account, ware: nat, list: seq<Entry>, queue: seq<seq<Thing>>)
    requires Progress(a, ware, list, [], queue) && queue != []
    ensures Progress(a, ware, list, queue[0], queue[1..])
  {
    assert queue[0] in queue && forall things | things in queue[1..] :: things in queue;
  }

  lemma {:induction false} ProgressNested(a: Account, ware: nat, list: seq<Entry>, rest: seq<Thing>,
                                          queue: seq<seq<Thing>>)
    requires Progress(a, ware, list, rest, queue) && rest != [] && rest[0].inside != []
    ensures Progress(a, ware, list, rest[1..], queue + [rest[0].inside])
  {
    var t := rest[0];
    QueueSnoc(queue, t.inside, ware);
    FlatUids(rest);
    UnitsConcat(Saleable(t.inside, ware), Saleable(rest[1..], ware), ware);
    assert Kept(a, t);
    forall c | c in t.inside ensures Kept(a, c) {
      if Within(a.depot, t) {
        WithinInside(a.depot, t);
      } else {
        WithinInside(a.inbox, t);
      }
    }
  }

  lemma {:induction false} ProgressPlain(a: Account, ware: nat, list: seq<Entry>, rest: seq<Thing>,
                                         queue: seq<seq<Thing>>)
    requires Progress(a, ware, list, rest, queue) && rest != []
    requires rest[0].inside == [] && forall u :: Uids(All(a))[u] <= 1
    ensures Progress(a, ware, if rest[0].ware == ware && rest[0].saleable then [EntryOf(rest[0])] + list else list,
                     rest[1..], queue)
  {
    var t := rest[0];
    var list' := if t.ware == ware && t.saleable then [EntryOf(t)] + list else list;
    KeptPlain(a, t);
    PlainSums(rest, list, ware);
    hide *;
    OfWareMore(a, ware, list, EntryOf(t));
    assert OfWare(a, ware, list');
    ProgressBy(a, ware, list', rest[1..], queue);
  }

  lemma {:induction false} OfWareMore(a: Account, ware: nat, list: seq<Entry>, e: Entry)
    requires OfWare(a, ware, list) && e in All(a) && PlainIn(a, e.uid)
    ensures e.ware == ware ==> OfWare(a, ware, [e] + list)
  {}

  lemma {:induction false} ProgressBy(a: Account, ware: nat, list: seq<Entry>, rest: seq<Thing>, queue: seq<seq<Thing>>)
    requires AllKept(a, rest, queue) && OfWare(a, ware, list)
    requires Uids(list) + Uids(Flat(rest)) + QueueUids(queue) <= Uids(All(a))
    requires Units(list, ware) + Units(Saleable(rest, ware), ware) + SaleableIn(queue, ware) == Offerable(a, ware)
    ensures Progress(a, ware, list, rest, queue)
  {}

  // A thing in which nothing lies goes from the rest to the list, or from both.
  lemma {:induction false} PlainSums(rest: seq<Thing>, list: seq<Entry>, ware: nat)
    requires rest != [] && rest[0].inside == []
    ensures var list' := if rest[0].ware == ware && rest[0].saleable then [EntryOf(rest[0])] + list else list;
      Uids(list') + Uids(Flat(rest[1..])) <= Uids(list) + Uids(Flat(rest))
    ensures var list' := if rest[0].ware == ware && rest[0].saleable then [EntryOf(rest[0])] + list else list;
      Units(list', ware) + Units(Saleable(rest[1..], ware), ware) ==
        Units(list, ware) + Units(Saleable(rest, ware), ware)
  {
    var t := rest[0];
    FlatUids(rest);
    UidsConcat([EntryOf(t)], list);
    assert [EntryOf(t)][1..] == [];
    if t.ware == ware && t.saleable {
      UnitsConcat([EntryOf(t)], Saleable(rest[1..], ware), ware);
      UnitsConcat([EntryOf(t)], list, ware);
    } else {
      assert Saleable(rest, ware) == Saleable(rest[1..], ware);
    }
  }

  lemma {:induction false} PopSize(queue: seq<seq<Thing>>)
    requires queue != []
    ensures QueueSize(queue) == |Flat(queue[0])| + QueueSize(queue[1..]) && |Flat([])| == 0
  {}

  lemma {:induction false} RestSize(rest: seq<Thing>)
    requires rest != []
    ensures |Flat(rest)| == 1 + |Flat(rest[0].inside)| + |Flat(rest[1..])| && |Flat([])| == 0
  {}

  lemma {:induction false} ProgressCounts(a: Account, ware: nat, list: seq<Entry>, rest: seq<Thing>,
                                          queue: seq<seq<Thing>>, stackable: nat -> bool, next: nat)
    requires Progress(a, ware, list, rest, queue) && AccountOk(a, stackable, next)
    requires rest != [] && rest[0].inside == [] && rest[0].ware == ware
    ensures 1 <= rest[0].count <= 255
    ensures Units([EntryOf(rest[0])] + list, ware) == rest[0].count + Units(list, ware)
    ensures ([EntryOf(rest[0])] + list)[1..] == list
  {
    var e := EntryOf(rest[0]);
    assert Kept(a, rest[0]);
    KeptPlain(a, rest[0]);
    assert Countable(e, stackable);
    assert ([e] + list)[1..] == list;
  }

  lemma {:induction false} ProgressEnough(a: Account, ware: nat, list: seq<Entry>, rest: seq<Thing>,
                                          queue: seq<seq<Thing>>)
    requires Progress(a, ware, list, rest, queue) && forall u :: Uids(All(a))[u] <= 1
    ensures Collected(a, ware, list) && Units(list, ware) <= Offerable(a, ware)
    ensures rest == [] && queue == [] ==> Units(list, ware) == Offerable(a, ware)
  {
    forall u ensures Uids(list)[u] <= 1 {
      assert Uids(list)[u] <= (Uids(list) + Uids(Flat(rest)) + QueueUids(queue))[u] <= Uids(All(a))[u];
    }
  }

  // Looks for things of a ware breadth first until there are enough; none if there never are. The 16-bit count
  // does not wrap for any amount the market takes.
  method GetMarketItemList(a: Account, ware: nat, sufficientCount: nat, ghost stackable: nat -> bool, ghost next: nat)
    returns (list: seq<Entry>)
    requires AccountOk(a, stackable, next) && 0 < sufficientCount <= 64000
    ensures list == [] <==> Offerable(a, ware) < sufficientCount
    ensures list != [] ==> Collected(a, ware, list) && Units(list[1..], ware) < sufficientCount <= Units(list, ware)
  {
    hide Progress, Plain, Offerable, Saleable, SaleableIn, QueueUids, QueueSize, Flat, All, Kept;
    list := [];
    var count := 0;
    var containers := [a.depot, a.inbox];
    ProgressStart(a, ware);
    while containers != []
      invariant Progress(a, ware, list, [], containers)
      invariant count == Units(list, ware) < sufficientCount
      decreases QueueSize(containers), |containers|
    {
      var rest := containers[0];
      ProgressNext(a, ware, list, containers);
      PopSize(containers);
      ghost var size := QueueSize(containers);
      containers := containers[1..];
      ghost var length := |containers|;
      while rest != []
        invariant Progress(a, ware, list, rest, containers)
        invariant count == Units(list, ware) < sufficientCount
        invariant |Flat(rest)| + QueueSize(containers) <= size
        invariant |Flat(rest)| + QueueSize(containers) == size ==> |containers| == length
        decreases |rest|
      {
        var item := rest[0];
        RestSize(rest);
        if item.inside != [] {
          ProgressNested(a, ware, list, rest, containers);
          QueueSnoc(containers, item.inside, ware);
          containers := containers + [item.inside];
        } else {
          ProgressPlain(a, ware, list, rest, containers);
          if item.ware == ware && item.saleable {
            ProgressCounts(a, ware, list, rest, containers, stackable, next);
            list := [EntryOf(item)] + list;
            count := (count + item.count) % WIDTH16;
            if count >= sufficientCount {
              ProgressEnough(a, ware, list, rest[1..], containers);
              return;
            }
          }
        }
        rest := rest[1..];
      }
    }
    ProgressEnough(a, ware, list, [], []);
    list := [];
  }
  // ---------------------------------------------------------------- taking what was collected

  // Exactly `amount` units of a ware have gone, and nothing else.
  ghost predicate Gone(a: Account, b: Account, ware: nat, amount: nat) {
    b.balance == a.balance && forall w :: Units(All(b), w) + (if w == ware then amount else 0) == Units(All(a), w)
  }

  lemma {:induction false} TakenNext(a: Account, ware: nat, list: seq<Entry>, n: nat, stackable: nat -> bool, next: nat)
    requires AccountOk(a, stackable, next) && Collected(a, ware, list) && list != [] && n <= list[0].count
    ensures var b := TakenFrom(a, list[0].uid, n);
      AccountOk(b, stackable, next) && Collected(b, ware, list[1..]) && Gone(a, b, ware, n)
  {
    var e, rest := list[0], list[1..];
    var b := TakenFrom(a, e.uid, n);
    assert e in list;
    hide Plain, All, Uids, Units, Taken, AccountOk;
    TakenOne(a, e, n, stackable, next);
    UidsOf(rest);
    assert e.ware == ware && Uids(list)[e.uid] <= 1;
    forall f | f in rest ensures f in All(b) && PlainIn(b, f.uid) && f.ware == ware {
      assert f in list && Uids(rest)[f.uid] >= 1;
    }
    forall u ensures Uids(rest)[u] <= 1 {
      assert Uids(rest)[u] <= Uids(list)[u];
    }
  }

  lemma {:induction false} GoneTwice(a: Account, b: Account, c: Account, ware: nat, m: nat, n: nat)
    requires Gone(a, b, ware, m) && Gone(b, c, ware, n)
    ensures Gone(a, c, ware, m + n)
  {}

  method TakeListed(a: Account, ware: nat, list: seq<Entry>, amount: nat, stackable: nat -> bool, ghost next: nat)
    returns (b: Account)
    requires AccountOk(a, stackable, next) && Collected(a, ware, list)
    requires list != [] && Units(list[1..], ware) < amount <= Units(list, ware)
    ensures AccountOk(b, stackable, next) && Gone(a, b, ware, amount)
  {
    hide Gone, Collected, AccountOk, All, Plain, Taken;
    GoneNothing(a, ware);
    b := a;
    var k := 0;
    assert list[0..] == list;
    if stackable(ware) {
      var tmpAmount := amount;
      while k < |list| && tmpAmount != 0
        invariant 0 <= k <= |list| && 0 <= tmpAmount <= amount
        invariant AccountOk(b, stackable, next) && Collected(b, ware, list[k..]) && Gone(a, b, ware, amount - tmpAmount)
        invariant tmpAmount <= Units(list[k..], ware)
        decreases |list| - k
      {
        var rest := list[k..];
        var removeCount := if tmpAmount < list[k].count then tmpAmount else list[k].count;
        FirstOf(b, ware, rest, stackable, next);
        TakenNext(b, ware, rest, removeCount, stackable, next);
        GoneTwice(a, b, TakenFrom(b, rest[0].uid, removeCount), ware, amount - tmpAmount, removeCount);
        b := TakenFrom(b, list[k].uid, removeCount);
        assert rest[1..] == list[k + 1..];
        tmpAmount := tmpAmount - removeCount;
        k := k + 1;
      }
    } else {
      FirstOf(a, ware, list, stackable, next);
      while k < |list|
        invariant 0 <= k <= |list|
        invariant AccountOk(b, stackable, next) && Collected(b, ware, list[k..])
        invariant Units(list[k..], ware) <= amount && Gone(a, b, ware, amount - Units(list[k..], ware))
      {
        var rest := list[k..];
        FirstOf(b, ware, rest, stackable, next);
        TakenNext(b, ware, rest, rest[0].count, stackable, next);
        GoneTwice(a, b, TakenFrom(b, rest[0].uid, rest[0].count), ware, amount - Units(rest, ware), rest[0].count);
        b := TakenFrom(b, list[k].uid, list[k].count);
        assert rest[1..] == list[k + 1..];
        k := k + 1;
      }
    }
    assert list[|list|..] == [];
  }

  lemma {:induction false} GoneNothing(a: Account, ware: nat)
    ensures Gone(a, a, ware, 0)
  {}

  lemma {:induction false} FirstOf(a: Account, ware: nat, list: seq<Entry>, stackable: nat -> bool, next: nat)
    requires AccountOk(a, stackable, next) && Collected(a, ware, list) && list != []
    ensures list[0].count >= 1 && list[0].ware == ware && (!stackable(ware) ==> list[0].count == 1)
    ensures Units(list, ware) == list[0].count + Units(list[1..], ware)
  {
    assert list[0] in list;
    assert Countable(list[0], stackable);
  }

  // ---------------------------------------------------------------- delivering

  // Exactly `amount` units of a ware have come to the inbox, and nothing else has changed.
  ghost predicate Come(a: Account, b: Account, ware: nat, amount: nat) {
    && b.balance == a.balance && b.depot == a.depot && |b.inbox| >= |a.inbox| &&
      b.inbox[|b.inbox| - |a.inbox|..] == a.inbox
    && forall w :: Units(All(b), w) == Units(All(a), w) + if w == ware then amount else 0
  }

  function Delivered(a: Account, ware: nat, count: nat, uid: nat): Account {
    a.(inbox := [Thing(uid, ware, count, true, [])] + a.inbox)
  }

  lemma {:induction false} DeliveredOne(a: Account, ware: nat, count: nat, stackable: nat -> bool, next: nat)
    requires AccountOk(a, stackable, next) && 1 <= count <= 255 && (!stackable(ware) ==> count == 1)
    ensures AccountOk(Delivered(a, ware, count, next), stackable, next + 1)
    ensures Come(a, Delivered(a, ware, count, next), ware, count)
  {
    var b, e := Delivered(a, ware, count, next), Entry(next, ware, count);
    assert b.inbox[1..] == a.inbox;
    DeliveredAll(a, ware, count, next);
    Between(Flat(a.depot), e, Flat(a.inbox));
    UidsOf(All(a));
    hide Flat, Uids, Units;
    forall f | f in All(b) ensures Countable(f, stackable) {
      assert f == e || f in All(a);
    }
    forall u ensures Uids(All(b))[u] <= 1 && (u in Uids(All(b)) ==> u < next + 1) {
      assert Uids(All(b))[u] == Uids(All(a))[u] + if u == next then 1 else 0;
      assert u in Uids(All(a)) ==> u < next;
    }
  }

  lemma {:induction false} DeliveredAll(a: Account, ware: nat, count: nat, next: nat)
    ensures All(Delivered(a, ware, count, next)) == Flat(a.depot) + ([Entry(next, ware, count)] + Flat(a.inbox))
  {
    var b := Delivered(a, ware, count, next);
    assert b.inbox[1..] == a.inbox;
    assert Flat(b.inbox) == [Entry(next, ware, count)] + Flat([]) + Flat(a.inbox);
  }

  lemma {:induction false} Between(x: seq<Entry>, e: Entry, y: seq<Entry>)
    ensures Uids(x + ([e] + y)) == Uids(x + y) + multiset{e.uid}
    ensures forall w :: Units(x + ([e] + y), w) == Units(x + y, w) + if w == e.ware then e.count else 0
  {
    UidsConcat(x, [e] + y);
    UidsConcat([e], y);
    UidsConcat(x, y);
    assert [e][1..] == [];
    forall w ensures Units(x + ([e] + y), w) == Units(x + y, w) + if w == e.ware then e.count else 0 {
      UnitsConcat(x, [e] + y, w);
      UnitsConcat([e], y, w);
      UnitsConcat(x, y, w);
    }
  }

  lemma {:induction false} ComeTwice(a: Account, b: Account, c: Account, ware: nat, m: nat, n: nat)
    requires Come(a, b, ware, m) && Come(b, c, ware, n)
    ensures Come(a, c, ware, m + n)
  {
    hide All;
    assert c.inbox[|c.inbox| - |a.inbox|..] == c.inbox[|c.inbox| - |b.inbox|..][|b.inbox| - |a.inbox|..];
  }

  lemma {:induction false} ComeNothing(a: Account, ware: nat)
    ensures Come(a, a, ware, 0)
  {
    assert a.inbox[0..] == a.inbox;
  }

  // Stacks of at most a hundred, or single things.
  method Deliver(a: Account, ware: nat, amount: nat, stackable: nat -> bool, next0: nat) returns (b: Account, next: nat)
    requires AccountOk(a, stackable, next0)
    ensures AccountOk(b, stackable, next) && next >= next0 && Come(a, b, ware, amount)
  {
    hide AccountOk, Come, Delivered;
    ComeNothing(a, ware);
    b, next := a, next0;
    if stackable(ware) {
      var tmpAmount := amount;
      while tmpAmount > 0
        invariant 0 <= tmpAmount <= amount && next >= next0
        invariant AccountOk(b, stackable, next) && Come(a, b, ware, amount - tmpAmount)
      {
        var stackCount := if STACK < tmpAmount then STACK else tmpAmount;
        DeliveredOne(b, ware, stackCount, stackable, next);
        ComeTwice(a, b, Delivered(b, ware, stackCount, next), ware, amount - tmpAmount, stackCount);
        b := Delivered(b, ware, stackCount, next);
        next := next + 1;
        tmpAmount := tmpAmount - stackCount;
      }
    } else {
      for i := 0 to amount
        invariant next >= next0 && AccountOk(b, stackable, next) && Come(a, b, ware, i)
      {
        DeliveredOne(b, ware, 1, stackable, next);
        ComeTwice(a, b, Delivered(b, ware, 1, next), ware, i, 1);
        b := Delivered(b, ware, 1, next);
        next := next + 1;
      }
    }
  }
}
