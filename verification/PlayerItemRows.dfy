/** The relational form of a player's items: a breadth-first flattening of item trees into rows
    (pid, sid, payload), and the table of the rows read back. */
module PlayerItemRows {

  // What one row says about the item itself.
  datatype Payload = Payload(itemType: nat, subType: nat, attributes: seq<nat>, abilities: seq<nat>)

  // An item and, when it is a container, what lies inside, front first.
  datatype Thing = Thing(payload: Payload, inside: seq<Thing>)

  datatype Row = Row(pid: nat, sid: nat, payload: Payload)

  // The item types: which can be created, which are containers, and what one item weighs by itself.
  datatype Catalogue = Catalogue(known: set<nat>, containers: set<nat>, weightOf: Payload -> nat)

  // The three tables: worn items (slots 1 to 10), depot chests (0 to 99), and the inbox.
  datatype Table = Inventory | Depot | Inbox

  predicate IsRootPid(table: Table, pid: nat) {
    if table.Inventory? then 1 <= pid <= 10 else pid < 100
  }

  // The list of root items that a root pid denotes: every inbox row goes to the one inbox.
  function RootKey(table: Table, pid: nat): nat {
    if table.Inbox? then 0 else pid
  }

  ghost predicate Storable(env: Catalogue, t: Thing) {
    && t.payload.itemType in env.known
    && (t.inside != [] ==> t.payload.itemType in env.containers)
    && forall c | c in t.inside :: Storable(env, c)
  }

  ghost function Weight(env: Catalogue, t: Thing): nat {
    env.weightOf(t.payload) + ContentWeight(env, t.inside)
  }

  ghost function ContentWeight(env: Catalogue, ts: seq<Thing>): nat {
    if ts == [] then 0 else Weight(env, ts[0]) + ContentWeight(env, ts[1..])
  }

  ghost function Size(t: Thing): nat {
    1 + SizeAll(t.inside)
  }

  ghost function SizeAll(ts: seq<Thing>): nat {
    if ts == [] then 0 else Size(ts[0]) + SizeAll(ts[1..])
  }

  // ---------------------------------------------------------------- saving

  const FIRST_ID := 101

  // The indices of the rows whose parent is `pid`, in ascending order.
  ghost function Kids(rows: seq<Row>, pid: nat): (ks: seq<nat>)
    ensures forall i | 0 <= i < |ks| :: ks[i] < |rows| && rows[ks[i]].pid == pid
    ensures forall i, j | 0 <= i < j < |ks| :: ks[i] < ks[j]
    ensures forall k | 0 <= k < |rows| && rows[k].pid == pid :: k in ks
  {
    if rows == [] then []
    else
      var n := |rows| - 1;
      Kids(rows[..n], pid) + if rows[n].pid == pid then [n] else []
  }

  ghost function At(things: seq<Thing>, ks: seq<nat>): (r: seq<Thing>)
    requires forall i | 0 <= i < |ks| :: ks[i] < |things|
    ensures |r| == |ks|
  {
    seq(|ks|, i requires 0 <= i < |ks| => things[ks[i]])
  }

  // `rows` numbers `things` from 101 on; the forest's roots come first and keep their own pid.
  ghost predicate Numbered(items: seq<(nat, Thing)>, rows: seq<Row>, things: seq<Thing>) {
    && |things| == |rows|
    && |items| <= |rows|
    && (forall k | 0 <= k < |rows| :: rows[k].sid == FIRST_ID + k && rows[k].payload == things[k].payload)
    && (forall k | 0 <= k < |items| :: rows[k].pid == items[k].0 && things[k] == items[k].1)
    && (forall k | |items| <= k < |rows| :: FIRST_ID <= rows[k].pid < FIRST_ID + k)
  }

  ghost predicate Complete(rows: seq<Row>, things: seq<Thing>, k: nat)
    requires k < |rows| == |things|
  {
    At(things, Kids(rows, FIRST_ID + k)) == things[k].inside
  }

  // Every numbered thing finds exactly its own contents, in order, among the rows that name it as parent.
  ghost predicate Saved(items: seq<(nat, Thing)>, rows: seq<Row>, things: seq<Thing>) {
    && Numbered(items, rows, things)
    && forall k | 0 <= k < |rows| :: Complete(rows, things, k)
  }

  // What a save leaves: a numbering of the storable things, every one with exactly its own contents.
  ghost predicate Flattened(env: Catalogue, items: seq<(nat, Thing)>, rows: seq<Row>) {
    exists things :: Saved(items, rows, things) && forall k | 0 <= k < |rows| :: Storable(env, things[k])
  }

  lemma {:induction false} KidsSnoc(rows: seq<Row>, r: Row, pid: nat)
    ensures Kids(rows + [r], pid) == Kids(rows, pid) + if r.pid == pid then [|rows|] else []
  {
    assert (rows + [r])[..|rows|] == rows;
  }

  ghost predicate Queued(queue: seq<(Thing, nat)>, id: nat) {
    exists i | 0 <= i < |queue| :: queue[i].1 == id
  }

  // Ids run from 101 in row order and a parent's id precedes its contents'.
  ghost predicate Rowed(env: Catalogue, rows: seq<Row>, things: seq<Thing>) {
    && |things| == |rows|
    && (forall k | 0 <= k < |rows| :: rows[k].sid == FIRST_ID + k && rows[k].pid < rows[k].sid)
    && (forall k | 0 <= k < |rows| :: rows[k].payload == things[k].payload && Storable(env, things[k]))
  }

  // What is queued has no row of its contents yet.
  ghost predicate Waiting(rows: seq<Row>, things: seq<Thing>, queue: seq<(Thing, nat)>, current: nat)
    requires |rows| == |things|
  {
    && current < FIRST_ID + |rows|
    && (forall i | 0 <= i < |queue| ::
          && FIRST_ID <= queue[i].1 < FIRST_ID + |rows|
          && things[queue[i].1 - FIRST_ID] == queue[i].0
          && queue[i].1 != current
          && Kids(rows, queue[i].1) == [])
    && (forall i, j | 0 <= i < j < |queue| :: queue[i].1 < queue[j].1)
  }

  // What is neither queued nor the container `current` being written has rows for all its contents.
  ghost predicate Settled(rows: seq<Row>, things: seq<Thing>, queue: seq<(Thing, nat)>, current: nat)
    requires |rows| == |things|
  {
    forall k | 0 <= k < |rows| :: FIRST_ID + k == current || Queued(queue, FIRST_ID + k) || Complete(rows, things, k)
  }

  ghost predicate Pending(env: Catalogue, rows: seq<Row>, things: seq<Thing>, queue: seq<(Thing, nat)>, current: nat) {
    Rowed(env, rows, things) && Waiting(rows, things, queue, current) && Settled(rows, things, queue, current)
  }

  ghost function Enqueued(env: Catalogue, queue: seq<(Thing, nat)>, t: Thing, id: nat): seq<(Thing, nat)> {
    if t.payload.itemType in env.containers then queue + [(t, id)] else queue
  }

  // A row under another parent leaves a thing's own contents alone; a row under it appends to them.
  lemma {:induction false} AddRowContents(env: Catalogue, rows: seq<Row>, things: seq<Thing>, r: Row, t: Thing,
                                          pid: nat)
    requires |rows| == |things|
    ensures At(things + [t], Kids(rows + [r], pid)) == At(things, Kids(rows, pid)) + if r.pid == pid then [t] else []
  {
    KidsSnoc(rows, r, pid);
  }

  lemma {:induction false} NoKidsYet(rows: seq<Row>, pid: nat)
    requires forall k | 0 <= k < |rows| :: rows[k].pid < pid
    ensures Kids(rows, pid) == []
  {
    if rows != [] {
      NoKidsYet(rows[..|rows| - 1], pid);
    }
  }

  lemma {:induction false} OnlyContainersHold(env: Catalogue, t: Thing)
    requires Storable(env, t) && t.payload.itemType !in env.containers
    ensures t.inside == []
  {}

  lemma {:induction false} ContentsStorable(env: Catalogue, t: Thing, c: Thing)
    requires Storable(env, t) && c in t.inside
    ensures Storable(env, c)
  {}

  lemma {:induction false} StillWaiting(env: Catalogue, rows: seq<Row>, things: seq<Thing>, queue: seq<(Thing, nat)>,
                                        current: nat, r: Row, t: Thing)
    requires Rowed(env, rows, things) && Waiting(rows, things, queue, current)
    requires r.sid == FIRST_ID + |rows|
    requires r.pid < FIRST_ID || r.pid == current
    ensures Waiting(rows + [r], things + [t], Enqueued(env, queue, t, r.sid), current)
  {
    hide Kids, Storable;
    var queue' := Enqueued(env, queue, t, r.sid);
    NoKidsYet(rows, FIRST_ID + |rows|);
    forall i | 0 <= i < |queue'| ensures Kids(rows + [r], queue'[i].1) == [] {
      KidsSnoc(rows, r, queue'[i].1);
    }
  }

  lemma {:induction false} StillSettled(env: Catalogue, rows: seq<Row>, things: seq<Thing>, queue: seq<(Thing, nat)>,
                                        current: nat, r: Row, t: Thing)
    requires Rowed(env, rows, things) && Settled(rows, things, queue, current)
    requires r.sid == FIRST_ID + |rows| && Storable(env, t)
    requires r.pid < FIRST_ID || r.pid == current < FIRST_ID + |rows|
    ensures Settled(rows + [r], things + [t], Enqueued(env, queue, t, r.sid), current)
  {
    hide Kids, Storable;
    var rows', things', queue' := rows + [r], things + [t], Enqueued(env, queue, t, r.sid);
    forall k | 0 <= k < |rows'| && FIRST_ID + k != current
      ensures Queued(queue', FIRST_ID + k) || Complete(rows', things', k)
    {
      AddRowContents(env, rows, things, r, t, FIRST_ID + k);
      if k == |rows| {
        NoKidsYet(rows, FIRST_ID + k);
        if t.payload.itemType in env.containers {
          assert queue'[|queue|].1 == FIRST_ID + k;
        } else {
          OnlyContainersHold(env, t);
        }
      } else if Queued(queue, FIRST_ID + k) {
        var i :| 0 <= i < |queue| && queue[i].1 == FIRST_ID + k;
        assert queue'[i].1 == FIRST_ID + k;
      } else {
        assert Complete(rows, things, k);
      }
    }
  }

  lemma {:induction false} AddRow(env: Catalogue, rows: seq<Row>, things: seq<Thing>, queue: seq<(Thing, nat)>,
                                  current: nat, r: Row, t: Thing)
    requires Pending(env, rows, things, queue, current)
    requires r.sid == FIRST_ID + |rows| && r.payload == t.payload && Storable(env, t)
    requires r.pid < FIRST_ID || r.pid == current
    ensures Pending(env, rows + [r], things + [t], Enqueued(env, queue, t, r.sid), current)
  {
    hide Kids, Storable, Settled;
    StillWaiting(env, rows, things, queue, current, r, t);
    StillSettled(env, rows, things, queue, current, r, t);
  }

  ghost function Heads(queue: seq<(Thing, nat)>): seq<Thing> {
    seq(|queue|, i requires 0 <= i < |queue| => queue[i].0)
  }

  lemma {:induction false} SizeAllConcat(a: seq<Thing>, b: seq<Thing>)
    ensures SizeAll(a + b) == SizeAll(a) + SizeAll(b)
  {
    if a == [] {
      assert a + b == b;
    } else {
      assert (a + b)[1..] == a[1..] + b;
      SizeAllConcat(a[1..], b);
    }
  }

  lemma {:induction false} Popped(env: Catalogue, rows: seq<Row>, things: seq<Thing>, queue: seq<(Thing, nat)>)
    requires queue != [] && Pending(env, rows, things, queue, 0)
    ensures Pending(env, rows, things, queue[1..], queue[0].1)
    ensures FIRST_ID <= queue[0].1 < FIRST_ID + |things| && things[queue[0].1 - FIRST_ID] == queue[0].0
    ensures At(things, Kids(rows, queue[0].1)) == []
    ensures SizeAll(Heads(queue)) == Size(queue[0].0) + SizeAll(Heads(queue[1..]))
  {
    hide Storable, Kids;
    assert Heads(queue)[1..] == Heads(queue[1..]);
    forall k | 0 <= k < |rows| && FIRST_ID + k != queue[0].1
      ensures Queued(queue[1..], FIRST_ID + k) || Complete(rows, things, k)
    {
      if Queued(queue, FIRST_ID + k) {
        var i :| 0 <= i < |queue| && queue[i].1 == FIRST_ID + k;
        assert queue[1..][i - 1].1 == FIRST_ID + k;
      }
    }
  }

  lemma {:induction false} Emptied(env: Catalogue, rows: seq<Row>, things: seq<Thing>, queue: seq<(Thing, nat)>,
                                   current: nat)
    requires Pending(env, rows, things, queue, current) && FIRST_ID <= current
    requires At(things, Kids(rows, current)) == things[current - FIRST_ID].inside
    ensures Pending(env, rows, things, queue, 0)
  {
    hide Storable, Kids;
    assert Complete(rows, things, current - FIRST_ID);
  }

  // One turn of the queue: a row for each item in `container`, numbered from runningId on.
  method SaveContents(env: Catalogue, ghost items: seq<(nat, Thing)>, rows0: seq<Row>, ghost things0: seq<Thing>,
                      queue0: seq<(Thing, nat)>, container: Thing, parentId: nat)
    returns (rows: seq<Row>, ghost things: seq<Thing>, queue: seq<(Thing, nat)>)
    requires Numbered(items, rows0, things0)
    requires Pending(env, rows0, things0, queue0, parentId)
    requires Storable(env, container)
    requires FIRST_ID <= parentId < FIRST_ID + |rows0| == FIRST_ID + |things0|
    requires things0[parentId - FIRST_ID] == container
    requires At(things0, Kids(rows0, parentId)) == []
    ensures Numbered(items, rows, things)
    ensures Pending(env, rows, things, queue, 0)
    ensures SizeAll(Heads(queue)) <= SizeAll(Heads(queue0)) + SizeAll(container.inside)
  {
    hide Kids, Waiting, Settled, Storable, Numbered;
    rows, things, queue := rows0, things0, queue0;
    var runningId := 100 + |rows0|;
    assert container.inside[..0] == [];
    for j := 0 to |container.inside|
      invariant runningId == 100 + |rows|
      invariant Numbered(items, rows, things)
      invariant Pending(env, rows, things, queue, parentId)
      invariant |rows0| <= |rows| && things[parentId - FIRST_ID] == container
      invariant At(things, Kids(rows, parentId)) == container.inside[..j]
      invariant SizeAll(Heads(queue)) <= SizeAll(Heads(queue0)) + SizeAll(container.inside[..j])
    {
      var item := container.inside[j];
      ContentsStorable(env, container, item);
      runningId := runningId + 1;
      var row := Row(parentId, runningId, item.payload);
      AddRow(env, rows, things, queue, parentId, row, item);
      AddRowContents(env, rows, things, row, item, parentId);
      NumberedSnoc(items, rows, things, row, item);
      assert container.inside[..j + 1] == container.inside[..j] + [item];
      SizeAllConcat(container.inside[..j], [item]);
      if item.payload.itemType in env.containers {
        assert Heads(queue + [(item, runningId)]) == Heads(queue) + [item];
        SizeAllConcat(Heads(queue), [item]);
        queue := queue + [(item, runningId)];
      }
      rows, things := rows + [row], things + [item];
    }
    assert container.inside[..|container.inside|] == container.inside;
    Emptied(env, rows, things, queue, parentId);
  }

  lemma {:induction false} NumberedSnoc(items: seq<(nat, Thing)>, rows: seq<Row>, things: seq<Thing>, row: Row,
                                        t: Thing)
    requires Numbered(items, rows, things)
    requires row.sid == FIRST_ID + |rows| && row.payload == t.payload && FIRST_ID <= row.pid < row.sid
    ensures Numbered(items, rows + [row], things + [t])
  {}

  lemma {:induction false} AllSettled(env: Catalogue, items: seq<(nat, Thing)>, rows: seq<Row>, things: seq<Thing>)
    requires Numbered(items, rows, things) && Pending(env, rows, things, [], 0)
    ensures Saved(items, rows, things)
  {
    hide Storable, Kids;
    forall k | 0 <= k < |rows| ensures Complete(rows, things, k) {
      assert !Queued([], FIRST_ID + k);
    }
  }

  // The source's two loops: the roots first, then the queue of containers.
  method SaveItems(env: Catalogue, items: seq<(nat, Thing)>) returns (rows: seq<Row>)
    requires forall i | 0 <= i < |items| :: items[i].0 < FIRST_ID && Storable(env, items[i].1)
    ensures Flattened(env, items, rows)
  {
    hide Kids, Waiting, Settled;
    ghost var things: seq<Thing>;
    var queue: seq<(Thing, nat)> := [];
    var runningId := 100;
    rows, things := [], [];
    NothingPending(env);
    for n := 0 to |items|
      invariant runningId == 100 + n == 100 + |rows|
      invariant Pending(env, rows, things, queue, 0)
      invariant forall k | 0 <= k < n :: rows[k].pid == items[k].0 && things[k] == items[k].1
    {
      var (pid, item) := items[n];
      runningId := runningId + 1;
      var row := Row(pid, runningId, item.payload);
      AddRow(env, rows, things, queue, 0, row, item);
      rows, things := rows + [row], things + [item];
      if item.payload.itemType in env.containers {
        queue := queue + [(item, runningId)];
      }
    }
    while queue != []
      invariant Numbered(items, rows, things)
      invariant Pending(env, rows, things, queue, 0)
      decreases SizeAll(Heads(queue))
    {
      Popped(env, rows, things, queue);
      rows, things, queue := SaveContents(env, items, rows, things, queue[1..], queue[0].0, queue[0].1);
    }
    AllSettled(env, items, rows, things);
  }

  lemma {:induction false} NothingPending(env: Catalogue)
    ensures Pending(env, [], [], [], 0)
  {}

  // ---------------------------------------------------------------- loading

  datatype Entry = Entry(pid: nat, payload: Payload)

  // What the ordered map of loaded items holds: types that cannot be created are skipped.
  function ItemTable(env: Catalogue, rows: seq<Row>): map<nat, Entry> {
    if rows == [] then map[]
    else
      var r, m := rows[|rows| - 1], ItemTable(env, rows[..|rows| - 1]);
      if r.payload.itemType in env.known then m[r.sid := Entry(r.pid, r.payload)] else m
  }

  method LoadItems(env: Catalogue, result: seq<Row>) returns (itemMap: map<nat, Entry>)
    ensures itemMap == ItemTable(env, result)
  {
    itemMap := map[];
    for n := 0 to |result|
      invariant itemMap == ItemTable(env, result[..n])
    {
      assert result[..n + 1][..n] == result[..n];
      if result[n].payload.itemType in env.known {
        itemMap := itemMap[result[n].sid := Entry(result[n].pid, result[n].payload)];
      }
    }
    assert result[..|result|] == result;
  }

  // The order in which the database returns the rows does not matter.
  lemma {:induction false} ItemTableMeaning(env: Catalogue, rows: seq<Row>)
    requires forall r | r in rows :: r.payload.itemType in env.known
    requires forall a, b | a in rows && b in rows && a.sid == b.sid :: a == b
    ensures forall r | r in rows ::
      r.sid in ItemTable(env, rows) && ItemTable(env, rows)[r.sid] == Entry(r.pid, r.payload)
    ensures forall s | s in ItemTable(env, rows) :: exists r :: r in rows && r.sid == s
  {
    if rows != [] {
      var front, last := rows[..|rows| - 1], rows[|rows| - 1];
      assert rows == front + [last];
      assert forall r | r in rows :: r in front || r == last;
      ItemTableMeaning(env, front);
      assert last in rows;
      forall s | s in ItemTable(env, rows) ensures exists r :: r in rows && r.sid == s {
        if s != last.sid {
          assert s in ItemTable(env, front);
          var r :| r in front && r.sid == s;
          assert r in rows;
        }
      }
    }
  }
}
