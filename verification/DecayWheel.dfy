/** The timer wheel that makes items decay: four lists, one of which is looked at every quarter of a second. */
module DecayWheel {

  const INTERVAL := 250
  const BUCKETS := 4
  const ROUND := 1000 // INTERVAL * BUCKETS

  // An item as the wheel sees it; `references` are the ones the wheel and the release list hold.
  datatype Timer = Timer(duration: nat, decaying: bool, references: nat)

  type Millis = x: nat | x > 0 witness 1

  // What becomes of an item when its time is over: it may be gone or replaced by another, stay without a timer,
  // or be turned into something that decays in turn.
  datatype Outcome = Gone | Settled(decaying: bool, left: nat) | Renewed(duration: Millis)

  // The wheel at one moment.
  datatype State = State(buckets: seq<seq<nat>>, waiting: seq<nat>, last: nat, items: map<nat, Timer>)

  // ---------------------------------------------------------------- where items are

  // How often an item stands in the lists.
  ghost function Count(s: State, u: nat): nat
    requires |s.buckets| == BUCKETS
  {
    multiset(s.waiting)[u] + multiset(s.buckets[0])[u] + multiset(s.buckets[1])[u] + multiset(s.buckets[2])[u] +
      multiset(s.buckets[3])[u]
  }

  // Each item stands in at most one list, once, and is then marked as decaying.
  ghost predicate Sound(s: State) {
    && |s.buckets| == BUCKETS && s.last < BUCKETS
    && forall u ::
      Count(s, u) <= 1 && (Count(s, u) == 1 ==> u in s.items && s.items[u].decaying && s.items[u].duration > 0)
  }

  // Every listing and every pending release holds one reference.
  ghost predicate Counted(s: State, releases: multiset<nat>)
    requires |s.buckets| == BUCKETS
  {
    forall u :: (if u in s.items then s.items[u].references else 0) == Count(s, u) + releases[u]
  }

  // ---------------------------------------------------------------- ticks left

  // Ticks until a list's turn comes.
  function Distance(last: nat, bucket: nat): nat
    requires last < BUCKETS && bucket < BUCKETS
  {
    (bucket + 3 - last) % BUCKETS + 1
  }

  // Ticks an item stays beyond the one at which it is next looked at.
  function Further(duration: nat): nat {
    if duration < 1875 then 0 else if duration < 2000 then 1 else 4 + Further(duration - ROUND)
  }

  // Ticks from being listed to the end.
  function Due(duration: nat): nat {
    (if duration >= ROUND then 4 else 1) + Further(duration)
  }

  lemma {:induction false} FurtherFormula(duration: nat)
    requires duration >= ROUND
    ensures 4 + Further(duration) == 4 * (duration / 1000) + if duration % 1000 >= 875 then 1 else 0
  {
    if duration >= 2000 {
      FurtherFormula(duration - ROUND);
    }
  }

  // An item decays less than 875 ms before its time and less than 250 ms after it, late only when it lasts less
  // than a round.
  lemma {:induction false} NearlyInTime(duration: nat)
    requires duration > 0
    ensures Due(duration) == if duration < 1000 then 1
      else 4 * (duration / 1000) + if duration % 1000 >= 875 then 1 else 0
    ensures -875 < INTERVAL * Due(duration) - duration < 250
    ensures INTERVAL * Due(duration) > duration ==> duration < 250
  {
    if duration >= ROUND {
      FurtherFormula(duration);
    }
  }

  ghost predicate Listed(s: State, u: nat, b: nat) {
    b < |s.buckets| && u in s.buckets[b]
  }

  // The item stands in a list and has `ticks` ticks left.
  ghost predicate HasLeft(s: State, u: nat, ticks: nat) {
    exists b :: Listed(s, u, b) && |s.buckets| == BUCKETS && s.last < BUCKETS && u in s.items &&
      ticks == Distance(s.last, b) + Further(s.items[u].duration)
  }

  // ---------------------------------------------------------------- the wheel

  class Wheel {
    const decayItems: array<seq<nat>>
    var toDecayItems: seq<nat>
    var toReleaseItems: seq<nat>
    var lastBucket: nat
    var items: map<nat, Timer>

    constructor ()
      ensures Valid() && fresh(decayItems)
      ensures View() == State([[], [], [], []], [], 0, map[]) && toReleaseItems == []
    {
      decayItems := new seq<nat>[BUCKETS](_ => []);
      toDecayItems, toReleaseItems, lastBucket, items := [], [], 0, map[];
      new;
      assert decayItems[..] == [[], [], [], []];
    }

    ghost function View(): State
      reads this, decayItems
    {
      State(decayItems[..], toDecayItems, lastBucket, items)
    }

    ghost predicate Valid()
      reads this, decayItems
    {
      Sound(View()) && Counted(View(), multiset(toReleaseItems))
    }

    // Puts an item on the list of those to be listed.
    method Enter(uid: nat)
      requires Valid() && uid in items && Count(View(), uid) == 0 && items[uid].duration > 0
      modifies this
      ensures Valid()
      ensures View() == Entered(old(View()), uid)
      ensures toReleaseItems == old(toReleaseItems)
    {
      ghost var before := View();
      var timer := items[uid];
      items := items[uid := timer.(decaying := true, references := timer.references + 1)];
      toDecayItems := [uid] + toDecayItems;
      hide Count, Sound, Counted;
      EnteredSound(before, uid, multiset(toReleaseItems));
      assert Entered(before, uid) == View();
    }

    // What decaying does to an item that is in no list.
    method InternalDecayItem(uid: nat, outcome: Outcome)
      requires Valid() && uid in items && Count(View(), uid) == 0
      modifies this
      ensures Valid()
      ensures View() == Decayed(old(View()), uid, outcome)
      ensures toReleaseItems == old(toReleaseItems)
    {
      hide Count, Sound;
      ghost var before := View();
      match outcome
      case Gone =>
      case Settled(decaying, left) =>
        items := items[uid := items[uid].(decaying := decaying, duration := left)];
        Retimed(before, View(), uid);
      case Renewed(duration) =>
        items := items[uid := items[uid].(decaying := false, duration := duration)];
        Retimed(before, View(), uid);
        Enter(uid);
    }

    // Does nothing for an item that cannot decay or is decaying.
    method StartDecay(uid: nat, canDecay: bool, outcome: Outcome)
      requires Valid() && uid in items
      modifies this
      ensures Valid()
      ensures View() == Started(old(View()), uid, canDecay, outcome)
      ensures toReleaseItems == old(toReleaseItems)
    {
      if !canDecay || items[uid].decaying {
        return;
      }
      if items[uid].duration > 0 {
        Enter(uid);
      } else {
        InternalDecayItem(uid, outcome);
      }
    }

    // Takes an item from its list and gives its reference up for release.
    method Unlist(bucket: nat, i: nat, decaying: bool, duration: nat)
      requires Valid() && bucket < BUCKETS && i < |decayItems[bucket]|
      modifies this, decayItems
      ensures Valid() && Count(View(), old(decayItems[bucket][i])) == 0
      ensures old(decayItems[bucket][i] in items)
      ensures View() == Unlisted(old(View()), bucket, i, decaying, duration)
    {
      hide Count;
      ghost var before := View();
      var item := decayItems[bucket][i];
      ListedItem(before, bucket, i);
      items := items[item := items[item].(decaying := decaying, duration := duration)];
      decayItems[bucket] := Erased(decayItems[bucket], i);
      toReleaseItems := toReleaseItems + [item];
      assert decayItems[..] == before.buckets[bucket := Erased(before.buckets[bucket], i)];
      CountTaken(before, bucket, i);
      CountItems(Taken(before, bucket, i), View());
    }

    // Moves an item with a new duration to the end of another list.
    method Relist(bucket: nat, i: nat, duration: Millis, newBucket: nat)
      requires Valid() && bucket < BUCKETS && i < |decayItems[bucket]| && newBucket < BUCKETS && newBucket != bucket
      modifies this, decayItems
      ensures Valid() && old(decayItems[bucket][i] in items)
      ensures View() == Relisted(old(View()), bucket, i, duration, newBucket)
    {
      hide Count;
      ghost var before := View();
      var item := decayItems[bucket][i];
      ListedItem(before, bucket, i);
      items := items[item := items[item].(duration := duration)];
      decayItems[bucket] := Erased(decayItems[bucket], i);
      decayItems[newBucket] := decayItems[newBucket] + [item];
      assert decayItems[..] == Appended(Taken(before, bucket, i), newBucket, item).buckets;
      CountTaken(before, bucket, i);
      CountAppended(Taken(before, bucket, i), newBucket, item);
      CountItems(Appended(Taken(before, bucket, i), newBucket, item), View());
    }

    method Shorten(item: nat, duration: Millis)
      requires Valid() && item in items
      modifies this
      ensures Valid() && View() == WithDuration(old(View()), item, duration) && toReleaseItems == old(toReleaseItems)
    {
      hide Count;
      ghost var before := View();
      items := items[item := items[item].(duration := duration)];
      CountItems(before, View());
    }

    // Looks at one item of the list whose turn it is.
    method CheckItem(bucket: nat, i: nat, canDecay: bool, outcome: Outcome) returns (kept: bool, decayed: bool)
      requires Valid() && bucket < BUCKETS && i < |decayItems[bucket]|
      modifies this, decayItems
      ensures Valid() && old(decayItems[bucket][i] in items)
      ensures View() == Checked(old(View()), bucket, i, canDecay, outcome)
      ensures kept == (canDecay && old(items[decayItems[bucket][i]].duration) >= 2000)
      ensures decayed == (canDecay && old(items[decayItems[bucket][i]].duration) < 1875)
    {
      hide Count, Counted, Decayed, Unlisted, Relisted;
      ghost var before := View();
      var item := decayItems[bucket][i];
      ListedItem(before, bucket, i);
      var timer := items[item];
      if !canDecay {
        Unlist(bucket, i, false, timer.duration);
        return false, false;
      }
      var decreaseTime := if ROUND < timer.duration then ROUND else timer.duration;
      var duration := timer.duration - decreaseTime;
      if duration == 0 {
        Unlist(bucket, i, timer.decaying, duration);
        UnlistedKeeps(before, bucket, i, timer.decaying, duration);
        InternalDecayItem(item, outcome);
        return false, true;
      } else if duration < ROUND {
        var newBucket := (bucket + (duration + INTERVAL / 2) / 1000) % BUCKETS;
        if newBucket == bucket {
          Unlist(bucket, i, timer.decaying, duration);
          UnlistedKeeps(before, bucket, i, timer.decaying, duration);
          InternalDecayItem(item, outcome);
          return false, true;
        }
        Relist(bucket, i, duration, newBucket);
        return false, false;
      }
      Shorten(item, duration);
      return true, false;
    }

    // Gives up the references waiting for release.
    method ReleaseItems()
      requires Valid()
      modifies this
      ensures Valid() && toReleaseItems == []
      ensures View() == old(View()).(items := items) && SameTimers(old(items), items)
    {
      hide Count, Sound, Counted;
      ghost var before := View();
      var k := 0;
      assert toReleaseItems[0..] == toReleaseItems;
      SoundLength(before);
      while k < |toReleaseItems|
        invariant 0 <= k <= |toReleaseItems| && View() == before.(items := items)
        invariant SameTimers(before.items, items) && |View().buckets| == BUCKETS
        invariant Counted(View(), multiset(toReleaseItems[k..]))
      {
        var item := toReleaseItems[k];
        ghost var s := View();
        ReleaseOne(s, toReleaseItems, k);
        items := items[item := items[item].(references := items[item].references - 1)];
        ReleasedOne(s, View(), toReleaseItems, k);
        k := k + 1;
      }
      assert toReleaseItems[k..] == [];
      toReleaseItems := [];
      SoundTimers(before, View());
    }

    // Lists the items waiting for a list.
    method ListItems()
      requires Valid()
      modifies this, decayItems
      ensures Valid() && toReleaseItems == old(toReleaseItems) && Cleaned(old(View()), View())
    {
      hide Count, Sound, Cleaned;
      ghost var s := View();
      SoundLength(s);
      var k := 0;
      while k < |toDecayItems|
        invariant 0 <= k <= |toDecayItems| && View() == s.(buckets := decayItems[..])
        invariant toReleaseItems == old(toReleaseItems)
        invariant Shifted(s, decayItems[..], k)
      {
        var item := toDecayItems[k];
        ListedWaiting(s, k);
        var dur := items[item].duration;
        var bucket := Slot(lastBucket, dur);
        ShiftOne(s, decayItems[..], k);
        ghost var lists := decayItems[..];
        decayItems[bucket] := decayItems[bucket] + [item];
        assert decayItems[..] == lists[bucket := lists[bucket] + [item]];
        k := k + 1;
      }
      toDecayItems := [];
      ShiftedAll(s, decayItems[..]);
    }

    method Cleanup()
      requires Valid()
      modifies this, decayItems
      ensures Valid() && toReleaseItems == [] && Cleaned(old(View()), View())
    {
      ghost var before := View();
      ReleaseItems();
      ghost var released := View();
      ListItems();
      CleanedReleased(before, released, View());
    }

    // Looks at every item of the next list; `decayed` logs the items whose time is over.
    method CheckBucket(bucket: nat, canDecay: nat -> bool, outcome: nat -> Outcome) returns (decayed: seq<nat>)
      requires Valid() && bucket < BUCKETS
      modifies this, decayItems
      ensures Valid() && Passed(old(View()), View(), bucket, canDecay, outcome, decayed, |old(decayItems[bucket])|)
    {
      hide Count, Sound, Counted, Passed, Checked;
      ghost var s := View();
      SoundLength(s);
      PassedNone(s, bucket, canDecay, outcome);
      decayed := [];
      var i := 0;
      ghost var j := 0;
      while i < |decayItems[bucket]|
        invariant Valid() && decayItems.Length == BUCKETS && i <= |decayItems[bucket]| && j <= |s.buckets[bucket]|
        invariant decayItems[bucket][i..] == s.buckets[bucket][j..]
        invariant Passed(s, View(), bucket, canDecay, outcome, decayed, j)
        decreases |decayItems[bucket]| - i
      {
        var item := decayItems[bucket][i];
        ghost var now := View();
        CheckedOne(s, now, bucket, canDecay, outcome, decayed, j, i);
        var kept, done := CheckItem(bucket, i, canDecay(item), outcome(item));
        if kept {
          i := i + 1;
        }
        if done {
          decayed := decayed + [item];
        }
        j := j + 1;
      }
      assert j == |s.buckets[bucket]| by { assert |decayItems[bucket][i..]| == 0; }
    }

    method CheckDecay(canDecay: nat -> bool, outcome: nat -> Outcome) returns (decayed: seq<nat>)
      requires Valid()
      modifies this, decayItems
      ensures Valid() && toReleaseItems == []
      ensures Ticked(old(View()), View(), canDecay, outcome, decayed)
    {
      hide Count, Counted, Passed, Cleaned, Ticked;
      ghost var before := View();
      var bucket := (lastBucket + 1) % BUCKETS;
      decayed := CheckBucket(bucket, canDecay, outcome);
      ghost var passed := View();
      lastBucket := bucket;
      CountItems(passed, View());
      Turned(passed, View(), multiset(toReleaseItems));
      ghost var turned := View();
      Cleanup();
      PassedTicked(before, passed, View(), canDecay, outcome, decayed);
    }
  }

  function Erased(s: seq<nat>, i: nat): seq<nat>
    requires i < |s|
  {
    s[..i] + s[i + 1..]
  }

  lemma {:induction false} ErasedCount(s: seq<nat>, i: nat)
    requires i < |s|
    ensures multiset(Erased(s, i)) == multiset(s) - multiset{s[i]}
  {
    assert s == s[..i] + [s[i]] + s[i + 1..];
  }

  lemma {:induction false} ListedItem(s: State, b: nat, i: nat)
    requires Sound(s) && b < BUCKETS && i < |s.buckets[b]|
    ensures var u := s.buckets[b][i]; u in s.items && s.items[u].decaying && s.items[u].duration > 0 && Count(s, u) == 1
  {
    assert s.buckets[b][i] in multiset(s.buckets[b]);
  }

  function Entered(s: State, u: nat): State
    requires u in s.items
  {
    s.(waiting := [u] + s.waiting,
       items := s.items[u := s.items[u].(decaying := true, references := s.items[u].references + 1)])
  }

  function Decayed(s: State, u: nat, outcome: Outcome): State
    requires u in s.items
  {
    match outcome
    case Gone => s
    case Settled(decaying, left) => s.(items := s.items[u := s.items[u].(decaying := decaying, duration := left)])
    case Renewed(duration) =>
      var t := s.(items := s.items[u := s.items[u].(decaying := false, duration := duration)]);
      Entered(t, u)
  }

  function Started(s: State, u: nat, canDecay: bool, outcome: Outcome): State
    requires u in s.items
  {
    if !canDecay || s.items[u].decaying then s
    else if s.items[u].duration > 0 then Entered(s, u) else Decayed(s, u, outcome)
  }

  lemma {:induction false} CountEntered(s: State, u: nat)
    requires |s.buckets| == BUCKETS && u in s.items
    ensures forall v :: Count(Entered(s, u), v) == Count(s, v) + if v == u then 1 else 0
  {
    assert multiset([u] + s.waiting) == multiset{u} + multiset(s.waiting);
  }

  lemma {:induction false} EnteredSound(s: State, u: nat, releases: multiset<nat>)
    requires Sound(s) && Counted(s, releases) && u in s.items && Count(s, u) == 0 && s.items[u].duration > 0
    ensures Sound(Entered(s, u)) && Counted(Entered(s, u), releases)
  {
    CountEntered(s, u);
    hide Count;
  }

  // The state without the item at one place of one list.
  function Taken(s: State, b: nat, i: nat): State
    requires b < |s.buckets| && i < |s.buckets[b]|
  {
    s.(buckets := s.buckets[b := Erased(s.buckets[b], i)])
  }

  function Appended(s: State, b: nat, u: nat): State
    requires b < |s.buckets|
  {
    s.(buckets := s.buckets[b := s.buckets[b] + [u]])
  }

  function WithDuration(s: State, u: nat, duration: nat): State
    requires u in s.items
  {
    s.(items := s.items[u := s.items[u].(duration := duration)])
  }

  function Unlisted(s: State, b: nat, i: nat, decaying: bool, duration: nat): State
    requires b < |s.buckets| && i < |s.buckets[b]| && s.buckets[b][i] in s.items
  {
    var u := s.buckets[b][i];
    Taken(s, b, i).(items := s.items[u := s.items[u].(decaying := decaying, duration := duration)])
  }

  lemma {:induction false} UnlistedKeeps(s: State, b: nat, i: nat, decaying: bool, duration: nat)
    requires b < |s.buckets| && i < |s.buckets[b]| && s.buckets[b][i] in s.items
    ensures s.buckets[b][i] in Unlisted(s, b, i, decaying, duration).items
  {}

  function Relisted(s: State, b: nat, i: nat, duration: nat, b': nat): State
    requires b < |s.buckets| && i < |s.buckets[b]| && s.buckets[b][i] in s.items && b' < |s.buckets|
  {
    var u := s.buckets[b][i];
    Appended(Taken(s, b, i), b', u).(items := s.items[u := s.items[u].(duration := duration)])
  }

  // What looking at one item does, as a function of the state.
  function Checked(s: State, b: nat, i: nat, canDecay: bool, outcome: Outcome): State
    requires |s.buckets| == BUCKETS && b < BUCKETS && i < |s.buckets[b]| && s.buckets[b][i] in s.items
  {
    var u := s.buckets[b][i];
    var duration := s.items[u].duration;
    if !canDecay then Unlisted(s, b, i, false, duration)
    else if duration < 1875 then
      UnlistedKeeps(s, b, i, s.items[u].decaying, if duration < ROUND then 0 else duration - ROUND);
      Decayed(Unlisted(s, b, i, s.items[u].decaying, if duration < ROUND then 0 else duration - ROUND), u, outcome)
    else if duration < 2000 then Relisted(s, b, i, duration - ROUND, (b + 1) % BUCKETS)
    else WithDuration(s, u, duration - ROUND)
  }

  lemma {:induction false} CountTaken(s: State, b: nat, i: nat)
    requires |s.buckets| == BUCKETS && b < BUCKETS && i < |s.buckets[b]|
    ensures forall v :: Count(Taken(s, b, i), v) + (if v == s.buckets[b][i] then 1 else 0) == Count(s, v)
  {
    forall v ensures Count(Taken(s, b, i), v) + (if v == s.buckets[b][i] then 1 else 0) == Count(s, v) {
      ErasedAt(s.buckets[b], i, v);
      CountChanged(s, b, Erased(s.buckets[b], i), v);
    }
  }

  lemma {:induction false} ErasedAt(list: seq<nat>, i: nat, v: nat)
    requires i < |list|
    ensures multiset(Erased(list, i))[v] + (if v == list[i] then 1 else 0) == multiset(list)[v]
  {
    ErasedCount(list, i);
    assert list[i] in multiset(list);
  }

  // When one list changes, so does the count.
  lemma {:induction false} CountChanged(s: State, b: nat, list: seq<nat>, v: nat)
    requires |s.buckets| == BUCKETS && b < BUCKETS
    ensures Count(s.(buckets := s.buckets[b := list]), v) + multiset(s.buckets[b])[v] == Count(s, v) + multiset(list)[v]
  {}

  lemma {:induction false} CountAppended(s: State, b: nat, u: nat)
    requires |s.buckets| == BUCKETS && b < BUCKETS
    ensures forall v :: Count(Appended(s, b, u), v) == Count(s, v) + if v == u then 1 else 0
  {
    forall v ensures Count(Appended(s, b, u), v) == Count(s, v) + if v == u then 1 else 0 {
      CountChanged(s, b, s.buckets[b] + [u], v);
    }
  }

  lemma {:induction false} CountItems(s: State, s': State)
    requires |s.buckets| == BUCKETS && s'.buckets == s.buckets && s'.waiting == s.waiting
    ensures forall v :: Count(s', v) == Count(s, v)
  {}

  // ---------------------------------------------------------------- cleanup

  lemma {:induction false} SoundLength(s: State)
    requires Sound(s)
    ensures |s.buckets| == BUCKETS && s.last < BUCKETS
  {}

  ghost predicate Absent(s: State, u: nat) {
    u !in s.waiting && forall b :: !Listed(s, u, b)
  }

  lemma {:induction false} AbsentCount(s: State, u: nat)
    requires |s.buckets| == BUCKETS
    ensures Absent(s, u) <==> Count(s, u) == 0
    ensures u in s.waiting ==> Count(s, u) >= 1
    ensures forall b :: Listed(s, u, b) ==> Count(s, u) >= 1
    ensures u in s.waiting ==> Count(s, u) == 1 ==> forall b :: !Listed(s, u, b)
  {
    assert forall b :: Listed(s, u, b) ==> b == 0 || b == 1 || b == 2 || b == 3;
    assert forall b | 0 <= b < |s.buckets| :: Listed(s, u, b) <==> multiset(s.buckets[b])[u] > 0;
    if Count(s, u) > 0 {
      assert u in s.waiting || Listed(s, u, 0) || Listed(s, u, 1) || Listed(s, u, 2) || Listed(s, u, 3);
    }
  }

  ghost predicate SameTimers(items: map<nat, Timer>, items': map<nat, Timer>) {
    && (forall u :: u in items <==> u in items')
    && (forall u | u in items :: items[u].duration == items'[u].duration && items[u].decaying == items'[u].decaying)
  }

  // Where an item with a given time enters.
  function Slot(last: nat, duration: nat): nat {
    if duration >= ROUND then last else (last + 1 + duration / 1000) % BUCKETS
  }

  // Every waiting item has come to its list; nothing else has come, and nothing has left or changed its time.
  ghost predicate Cleaned(s: State, t: State) {
    && Sound(s) && Sound(t) && t.last == s.last && t.waiting == [] && SameTimers(s.items, t.items)
    && (forall u | u in s.waiting && u in s.items :: Listed(t, u, Slot(s.last, s.items[u].duration)))
    && (forall u, b | Listed(s, u, b) :: Listed(t, u, b))
    && (forall u | Absent(s, u) :: Absent(t, u))
  }

  lemma {:induction false} ReleaseOne(s: State, releases: seq<nat>, k: nat)
    requires k < |releases| && |s.buckets| == BUCKETS && Counted(s, multiset(releases[k..]))
    ensures releases[k] in s.items && s.items[releases[k]].references > 0
    ensures multiset(releases[k..]) == multiset(releases[k + 1..]) + multiset{releases[k]}
  {
    assert releases[k..] == [releases[k]] + releases[k + 1..];
  }

  // An item that stands in no list may get another time.
  lemma {:induction false} Retimed(s: State, t: State, u: nat)
    requires Sound(s) && Count(s, u) == 0 && u in s.items && u in t.items
    requires t == s.(items := s.items[u := t.items[u]]) && t.items[u].references == s.items[u].references
    ensures Sound(t) && Count(t, u) == 0
    ensures forall releases | Counted(s, releases) :: Counted(t, releases)
  {
    CountItems(s, t);
    hide Count;
  }

  // One reference less for one pending release less.
  lemma {:induction false} ReleasedOne(s: State, t: State, releases: seq<nat>, k: nat)
    requires k < |releases| && |s.buckets| == BUCKETS && Counted(s, multiset(releases[k..]))
    requires releases[k] in s.items && s.items[releases[k]].references > 0
    requires var u := releases[k];
      t == s.(items := s.items[u := s.items[u].(references := s.items[u].references - 1)])
    ensures Counted(t, multiset(releases[k + 1..])) && SameTimers(s.items, t.items)
  {
    assert releases[k..] == [releases[k]] + releases[k + 1..];
    CountItems(s, t);
    hide Count;
  }

  lemma {:induction false} SoundTimers(s: State, t: State)
    requires Sound(s) && t == s.(items := t.items) && SameTimers(s.items, t.items)
    ensures Sound(t)
  {
    CountItems(s, t);
  }

  lemma {:induction false} ListedWaiting(s: State, k: nat)
    requires Sound(s) && k < |s.waiting|
    ensures s.waiting[k] in s.items && Slot(s.last, s.items[s.waiting[k]].duration) < BUCKETS
  {
    assert s.waiting[k] in multiset(s.waiting);
  }

  // The first `k` waiting items have been listed.
  ghost predicate Shifted(s: State, buckets: seq<seq<nat>>, k: nat) {
    && |buckets| == BUCKETS == |s.buckets| && Sound(s) && k <= |s.waiting|
    && (forall u :: Count(s.(buckets := buckets, waiting := s.waiting[k..]), u) == Count(s, u))
    && (forall u | u in s.waiting[..k] && u in s.items ::
      Listed(s.(buckets := buckets), u, Slot(s.last, s.items[u].duration)))
    && (forall u, b | Listed(s, u, b) :: Listed(s.(buckets := buckets), u, b))
  }

  lemma {:induction false} ShiftOne(s: State, buckets: seq<seq<nat>>, k: nat)
    requires Shifted(s, buckets, k) && k < |s.waiting| && s.waiting[k] in s.items
    requires Slot(s.last, s.items[s.waiting[k]].duration) < BUCKETS
    ensures var b := Slot(s.last, s.items[s.waiting[k]].duration);
      Shifted(s, buckets[b := buckets[b] + [s.waiting[k]]], k + 1)
  {
    var u := s.waiting[k];
    var b := Slot(s.last, s.items[u].duration);
    var now := s.(buckets := buckets, waiting := s.waiting[k..]);
    var next := s.(buckets := buckets[b := buckets[b] + [u]], waiting := s.waiting[k + 1..]);
    CountMoved(now, b);
    assert next == Appended(now.(waiting := now.waiting[1..]), b, u);
    assert s.waiting[..k + 1] == s.waiting[..k] + [u];
    hide Count, Sound;
    var t, t' := s.(buckets := buckets), s.(buckets := next.buckets);
    assert Listed(t', u, b) by { assert t'.buckets[b][|buckets[b]|] == u; }
    assert forall v, c | Listed(t, v, c) :: Listed(t', v, c);
  }

  lemma {:induction false} CountMoved(s: State, b: nat)
    requires |s.buckets| == BUCKETS && b < BUCKETS && s.waiting != []
    ensures forall v :: Count(Appended(s.(waiting := s.waiting[1..]), b, s.waiting[0]), v) == Count(s, v)
  {
    CountAppended(s.(waiting := s.waiting[1..]), b, s.waiting[0]);
    assert s.waiting == [s.waiting[0]] + s.waiting[1..];
    assert multiset(s.waiting) == multiset{s.waiting[0]} + multiset(s.waiting[1..]);
  }

  lemma {:induction false} ShiftedAll(s: State, buckets: seq<seq<nat>>)
    requires Shifted(s, buckets, |s.waiting|)
    ensures var t := s.(buckets := buckets, waiting := []);
      Sound(t) && Cleaned(s, t) && forall u :: Count(t, u) == Count(s, u)
  {
    var t := s.(buckets := buckets, waiting := []);
    assert s.waiting[|s.waiting|..] == [];
    assert s.waiting[..|s.waiting|] == s.waiting;
    hide Count;
    assert Sound(t);
    forall u ensures Absent(s, u) ==> Absent(t, u) {
      AbsentCount(s, u);
      AbsentCount(t, u);
    }
    assert forall u, b :: Listed(s.(buckets := buckets), u, b) == Listed(t, u, b);
  }

  lemma {:induction false} CleanedReleased(s: State, r: State, t: State)
    requires Sound(s) && Cleaned(r, t) && r == s.(items := r.items) && SameTimers(s.items, r.items)
    ensures Cleaned(s, t)
  {
    hide Sound;
    assert forall u, b :: Listed(s, u, b) == Listed(r, u, b);
    assert forall u :: Absent(s, u) == Absent(r, u);
  }
  // ---------------------------------------------------------------- one tick

  ghost predicate SameItem(s: State, t: State, u: nat) {
    && (u in s.waiting <==> u in t.waiting) && (forall b :: Listed(s, u, b) <==> Listed(t, u, b))
    && (u in s.items <==> u in t.items) && (u in s.items ==> t.items[u] == s.items[u])
  }

  // Where an item is after it has been looked at with `duration` left.
  ghost predicate Handled(t: State, u: nat, duration: nat, b: nat, canDecay: bool, outcome: Outcome) {
    if !canDecay || (duration < 1875 && !outcome.Renewed?) then Absent(t, u)
    else
      && u in t.items
      && if duration < 1875 then u in t.waiting && t.items[u].duration == outcome.duration
         else t.items[u].duration == duration - ROUND && Listed(t, u, if duration < 2000 then (b + 1) % BUCKETS else b)
  }

  // The first `j` items of a list have been looked at, and nothing else has changed.
  ghost predicate Passed(s: State, t: State, b: nat, canDecay: nat -> bool, outcome: nat -> Outcome, decayed: seq<nat>,
                         j: nat) {
    && Sound(s) && Sound(t) && t.last == s.last && b < BUCKETS && j <= |s.buckets[b]|
    && Untouched(s, t, s.buckets[b][..j], decayed)
    && AllHandled(s, t, b, canDecay, outcome, s.buckets[b][..j], decayed)
    && (forall k, l | 0 <= k < l < |decayed| :: decayed[k] != decayed[l])
  }

  ghost predicate Untouched(s: State, t: State, front: seq<nat>, decayed: seq<nat>) {
    forall u | u !in front :: SameItem(s, t, u) && u !in decayed
  }

  ghost predicate AllHandled(s: State, t: State, b: nat, canDecay: nat -> bool, outcome: nat -> Outcome,
                             front: seq<nat>, decayed: seq<nat>) {
    forall u | u in front && u in s.items ::
      && Handled(t, u, s.items[u].duration, b, canDecay(u), outcome(u))
      && (u in decayed <==> canDecay(u) && s.items[u].duration < 1875)
  }

  lemma {:induction false} PassedNone(s: State, b: nat, canDecay: nat -> bool, outcome: nat -> Outcome)
    requires Sound(s) && b < BUCKETS
    ensures Passed(s, s, b, canDecay, outcome, [], 0)
  {}

  lemma {:induction false} NoDuplicate(s: State, b: nat, j: nat)
    requires Sound(s) && b < BUCKETS && j < |s.buckets[b]|
    ensures s.buckets[b][j] !in s.buckets[b][..j]
  {
    var list := s.buckets[b];
    assert list == list[..j] + [list[j]] + list[j + 1..];
    assert multiset(list) == multiset(list[..j]) + multiset{list[j]} + multiset(list[j + 1..]);
    assert Count(s, list[j]) >= multiset(list)[list[j]];
    assert list[j] in list[..j] <==> list[j] in multiset(list[..j]);
  }

  lemma {:induction false} CheckedOne(s: State, now: State, b: nat, canDecay: nat -> bool, outcome: nat -> Outcome,
                                      decayed: seq<nat>, j: nat, i: nat)
    requires Passed(s, now, b, canDecay, outcome, decayed, j) && j < |s.buckets[b]| && i < |now.buckets[b]|
    requires now.buckets[b][i..] == s.buckets[b][j..]
    ensures now.buckets[b][i] in now.items
    ensures var u := now.buckets[b][i];
      var t := Checked(now, b, i, canDecay(u), outcome(u));
      var kept, done := canDecay(u) && now.items[u].duration >= 2000, canDecay(u) && now.items[u].duration < 1875;
      && |t.buckets| == BUCKETS
      && (if kept then i + 1 else i) <= |t.buckets[b]|
      && t.buckets[b][if kept then i + 1 else i..] == s.buckets[b][j + 1..]
      && (Sound(t) ==> Passed(s, t, b, canDecay, outcome, if done then decayed + [u] else decayed, j + 1))
  {
    var u := now.buckets[b][i];
    assert u == now.buckets[b][i..][0] == s.buckets[b][j];
    ListedItem(now, b, i);
    NoDuplicate(s, b, j);
    CheckedEffect(now, b, i, canDecay(u), outcome(u));
    var t := Checked(now, b, i, canDecay(u), outcome(u));
    hide Checked, Count, Sound, Handled, Absent, SameItem;
    assert s.buckets[b][j..][1..] == s.buckets[b][j + 1..];
    assert now.buckets[b][i..][1..] == now.buckets[b][i + 1..];
    assert Erased(now.buckets[b], i)[i..] == now.buckets[b][i + 1..];
    if Sound(t) {
      PassedMore(s, now, t, b, canDecay, outcome, decayed, j);
    }
  }

  lemma {:induction false} PassedMore(s: State, now: State, t: State, b: nat, canDecay: nat -> bool,
                                      outcome: nat -> Outcome, decayed: seq<nat>, j: nat)
    requires Passed(s, now, b, canDecay, outcome, decayed, j) && Sound(t) && t.last == now.last && j < |s.buckets[b]|
    requires forall v | v != s.buckets[b][j] :: SameItem(now, t, v)
    requires s.buckets[b][j] in now.items && s.buckets[b][j] !in s.buckets[b][..j]
    requires var u := s.buckets[b][j];
      Handled(t, u, now.items[u].duration, b, canDecay(u), outcome(u))
    ensures var u := s.buckets[b][j];
      Passed(s, t, b, canDecay, outcome,
             if canDecay(u) && now.items[u].duration < 1875 then decayed + [u] else decayed, j + 1)
  {
    var u := s.buckets[b][j];
    var decayed' := if canDecay(u) && now.items[u].duration < 1875 then decayed + [u] else decayed;
    var front := s.buckets[b][..j];
    assert s.buckets[b][..j + 1] == front + [u];
    hide Count, Sound, Handled, SameItem, Untouched, AllHandled;
    UntouchedMore(s, now, t, front, decayed, u, decayed');
    HandledMore(s, now, t, b, canDecay, outcome, front, decayed, u, decayed');
  }

  lemma {:induction false} UntouchedMore(s: State, now: State, t: State, front: seq<nat>, decayed: seq<nat>, u: nat,
                                         decayed': seq<nat>)
    requires Untouched(s, now, front, decayed) && (forall v | v != u :: SameItem(now, t, v)) && u !in front
    requires decayed' == decayed || decayed' == decayed + [u]
    ensures Untouched(s, t, front + [u], decayed')
    ensures u !in decayed && (u in s.items <==> u in now.items) && (u in s.items ==> now.items[u] == s.items[u])
  {
    assert SameItem(s, now, u);
    hide SameItem;
    forall v | v !in front + [u] ensures SameItem(s, t, v) && v !in decayed' {
      SameTwice(s, now, t, v);
    }
  }

  lemma {:induction false} HandledMore(s: State, now: State, t: State, b: nat, canDecay: nat -> bool,
                                       outcome: nat -> Outcome, front: seq<nat>, decayed: seq<nat>, u: nat,
                                       decayed': seq<nat>)
    requires AllHandled(s, now, b, canDecay, outcome, front, decayed) && (forall v | v != u :: SameItem(now, t, v))
    requires u !in front && u !in decayed && u in s.items
    requires Handled(t, u, s.items[u].duration, b, canDecay(u), outcome(u))
    requires decayed' == if canDecay(u) && s.items[u].duration < 1875 then decayed + [u] else decayed
    ensures AllHandled(s, t, b, canDecay, outcome, front + [u], decayed')
  {
    hide Handled, SameItem;
    forall v | v in front + [u] && v in s.items
      ensures Handled(t, v, s.items[v].duration, b, canDecay(v), outcome(v))
      ensures v in decayed' <==> canDecay(v) && s.items[v].duration < 1875
    {
      if v != u {
        assert v in front;
        HandledSame(now, t, v, s.items[v].duration, b, canDecay(v), outcome(v));
      }
    }
  }

  lemma {:induction false} SameTwice(s: State, t: State, r: State, u: nat)
    ensures SameItem(s, t, u) && SameItem(t, r, u) ==> SameItem(s, r, u)
  {}

  lemma {:induction false} HandledSame(s: State, t: State, u: nat, duration: nat, b: nat, canDecay: bool,
                                       outcome: Outcome)
    requires SameItem(s, t, u)
    ensures Handled(s, u, duration, b, canDecay, outcome) ==> Handled(t, u, duration, b, canDecay, outcome)
  {}

  // What looking at one item of a list does to every item.
  ghost predicate LookedAt(s: State, t: State, b: nat, i: nat, canDecay: bool, outcome: Outcome)
    requires b < |s.buckets| == BUCKETS && i < |s.buckets[b]| && s.buckets[b][i] in s.items
  {
    var u := s.buckets[b][i];
    && |t.buckets| == BUCKETS && t.last == s.last
    && (forall v | v != u :: SameItem(s, t, v))
    && Handled(t, u, s.items[u].duration, b, canDecay, outcome)
    && t.buckets[b] == if canDecay && s.items[u].duration >= 2000 then s.buckets[b] else Erased(s.buckets[b], i)
  }

  lemma {:induction false} CheckedEffect(s: State, b: nat, i: nat, canDecay: bool, outcome: Outcome)
    requires Sound(s) && b < BUCKETS && i < |s.buckets[b]| && s.buckets[b][i] in s.items
    ensures LookedAt(s, Checked(s, b, i, canDecay, outcome), b, i, canDecay, outcome)
  {
    var duration := s.items[s.buckets[b][i]].duration;
    if !canDecay || duration < 1875 {
      CheckedGone(s, b, i, canDecay, outcome);
    } else if duration < 2000 {
      CheckedMoved(s, b, i, outcome);
    } else {
      hide Count, Sound, Erased;
      assert Checked(s, b, i, canDecay, outcome) == WithDuration(s, s.buckets[b][i], duration - ROUND);
    }
  }

  lemma {:induction false} CheckedGone(s: State, b: nat, i: nat, canDecay: bool, outcome: Outcome)
    requires Sound(s) && b < BUCKETS && i < |s.buckets[b]| && s.buckets[b][i] in s.items
    requires !canDecay || s.items[s.buckets[b][i]].duration < 1875
    ensures LookedAt(s, Checked(s, b, i, canDecay, outcome), b, i, canDecay, outcome)
  {
    TakenElsewhere(s, b, i);
    var u, t, taken := s.buckets[b][i], Checked(s, b, i, canDecay, outcome), Taken(s, b, i);
    hide Count, Sound, Erased;
    assert forall c: nat :: Listed(t, u, c) <==> Listed(taken, u, c);
  }

  lemma {:induction false} CheckedMoved(s: State, b: nat, i: nat, outcome: Outcome)
    requires Sound(s) && b < BUCKETS && i < |s.buckets[b]| && s.buckets[b][i] in s.items
    requires 1875 <= s.items[s.buckets[b][i]].duration < 2000
    ensures LookedAt(s, Checked(s, b, i, true, outcome), b, i, true, outcome)
  {
    TakenElsewhere(s, b, i);
    var t, next := Checked(s, b, i, true, outcome), (b + 1) % BUCKETS;
    hide Count, Sound, Erased;
    assert t.buckets[next][|s.buckets[next]|] == s.buckets[b][i];
  }

  lemma {:induction false} TakenElsewhere(s: State, b: nat, i: nat)
    requires Sound(s) && b < BUCKETS && i < |s.buckets[b]|
    ensures forall v | v != s.buckets[b][i] :: SameItem(s, Taken(s, b, i), v)
    ensures Absent(Taken(s, b, i), s.buckets[b][i])
  {
    var u, t := s.buckets[b][i], Taken(s, b, i);
    CountTaken(s, b, i);
    ListedItem(s, b, i);
    AbsentCount(t, u);
    forall v | v != u ensures SameItem(s, t, v) {
      assert v in Erased(s.buckets[b], i) <==> v in s.buckets[b] by {
        ErasedCount(s.buckets[b], i);
        assert v in s.buckets[b] <==> v in multiset(s.buckets[b]);
        assert v in Erased(s.buckets[b], i) <==> v in multiset(Erased(s.buckets[b], i));
      }
      assert forall c :: Listed(t, v, c) <==> Listed(s, v, c);
    }
  }

  lemma {:induction false} Turned(s: State, t: State, releases: multiset<nat>)
    requires Sound(s) && Counted(s, releases) && t == s.(last := t.last) && t.last < BUCKETS
    ensures Sound(t) && Counted(t, releases)
  {
    CountItems(s, t);
  }

  // What one tick does to each item: one tick fewer is left to every listed item; those with one left decay, and
  // leave or are listed anew with a new time; an item found unable to decay when its turn comes is dropped; the
  // waiting ones are listed with their whole time.
  ghost predicate Ticked(s: State, t: State, canDecay: nat -> bool, outcome: nat -> Outcome, decayed: seq<nat>) {
    && Sound(s) && Sound(t) && t.last == (s.last + 1) % BUCKETS && t.waiting == []
    && (forall k, l | 0 <= k < l < |decayed| :: decayed[k] != decayed[l])
    && forall u: nat ::
      && (Listed(s, u, t.last) && !canDecay(u) ==> Absent(t, u) && u !in decayed)
      && (forall n: nat | HasLeft(s, u, n) && (Listed(s, u, t.last) ==> canDecay(u)) ::
            if n == 1
            then u in decayed && if outcome(u).Renewed? then HasLeft(t, u, Due(outcome(u).duration)) else Absent(t, u)
            else u !in decayed && HasLeft(t, u, n - 1))
      && (u in s.waiting && u in s.items ==> u !in decayed && HasLeft(t, u, Due(s.items[u].duration)))
      && (Absent(s, u) ==> u !in decayed && Absent(t, u))
  }

  lemma {:induction false} OnePlace(s: State, u: nat, b: nat)
    requires Sound(s) && Listed(s, u, b)
    ensures u in s.items && u !in s.waiting
    ensures forall c | Listed(s, u, c) :: c == b
  {
    AbsentCount(s, u);
    assert forall c: nat | c < BUCKETS :: Listed(s, u, c) <==> multiset(s.buckets[c])[u] > 0;
    assert u in s.waiting <==> multiset(s.waiting)[u] > 0;
  }

  lemma {:induction false} EnteredLeft(t: State, u: nat)
    requires |t.buckets| == BUCKETS && t.last < BUCKETS && u in t.items
    requires Listed(t, u, Slot(t.last, t.items[u].duration))
    ensures HasLeft(t, u, Due(t.items[u].duration))
  {
    var duration := t.items[u].duration;
    var b := Slot(t.last, duration);
    assert duration < ROUND ==> b == (t.last + 1) % BUCKETS && Further(duration) == 0;
    assert Due(duration) == Distance(t.last, b) + Further(duration);
  }

  lemma {:induction false} MovedOn(p: State, q: State, u: nat)
    requires q == p.(last := q.last)
    ensures (Absent(p, u) <==> Absent(q, u)) && forall b: nat :: Listed(p, u, b) <==> Listed(q, u, b)
  {
    assert forall b: nat :: Listed(p, u, b) <==> Listed(q, u, b);
  }

  lemma {:induction false} HandledOn(p: State, q: State, u: nat, duration: nat, b: nat, canDecay: bool,
                                     outcome: Outcome)
    requires q == p.(last := q.last)
    ensures Handled(p, u, duration, b, canDecay, outcome) ==> Handled(q, u, duration, b, canDecay, outcome)
  {
    MovedOn(p, q, u);
  }

  lemma {:induction false} TickedItem(s: State, p: State, t: State, u: nat, canDecay: nat -> bool,
                                      outcome: nat -> Outcome, decayed: seq<nat>)
    requires Sound(s)
    requires var b := (s.last + 1) % BUCKETS;
      Passed(s, p, b, canDecay, outcome, decayed, |s.buckets[b]|) && Cleaned(p.(last := b), t)
    ensures Listed(s, u, t.last) && !canDecay(u) ==> Absent(t, u) && u !in decayed
    ensures u in s.waiting && u in s.items ==> u !in decayed && HasLeft(t, u, Due(s.items[u].duration))
    ensures Absent(s, u) ==> u !in decayed && Absent(t, u)
  {
    var b := (s.last + 1) % BUCKETS;
    var q := p.(last := b);
    SoundLength(t);
    assert Passed(s, p, b, canDecay, outcome, decayed, |s.buckets[b]|);
    MovedOn(p, q, u);
    hide Count, Sound, Slot, Due, Untouched, AllHandled;
    if Listed(s, u, b) {
      OnePlace(s, u, b);
    } else {
      assert SameItem(s, p, u);
      if u in s.waiting && u in s.items {
        EnteredLeft(t, u);
      }
    }
  }

  lemma {:induction false} TickedLeft(s: State, p: State, t: State, u: nat, n: nat, canDecay: nat -> bool,
                                      outcome: nat -> Outcome, decayed: seq<nat>)
    requires Sound(s) && HasLeft(s, u, n) && (Listed(s, u, (s.last + 1) % BUCKETS) ==> canDecay(u))
    requires var b := (s.last + 1) % BUCKETS;
      Passed(s, p, b, canDecay, outcome, decayed, |s.buckets[b]|) && Cleaned(p.(last := b), t)
    ensures u in decayed <==> n == 1
    ensures if n != 1 then HasLeft(t, u, n - 1)
            else if outcome(u).Renewed? then HasLeft(t, u, Due(outcome(u).duration))
            else Absent(t, u)
  {
    var b := (s.last + 1) % BUCKETS;
    var c: nat :| Listed(s, u, c) && n == Distance(s.last, c) + Further(s.items[u].duration);
    OnePlace(s, u, c);
    assert p.last == s.last && |p.buckets| == BUCKETS;
    hide Passed, Cleaned, Handled, Absent, SameItem, HasLeft, Distance, Further, Due, Sound;
    TickedAt(s, p, t, u, b, c, n, canDecay(u), outcome(u), u in decayed);
  }

  lemma {:induction false} TickedAt(s: State, p: State, t: State, u: nat, b: nat, c: nat, n: nat, canDecay: bool,
                                    outcome: Outcome, decayed: bool)
    requires s.last < BUCKETS && |s.buckets| == |p.buckets| == BUCKETS
    requires b == (s.last + 1) % BUCKETS && c < BUCKETS && u in s.items
    requires Listed(s, u, c) && n == Distance(s.last, c) + Further(s.items[u].duration)
    requires Cleaned(p.(last := b), t)
    requires if c == b
             then && canDecay && Handled(p, u, s.items[u].duration, b, canDecay, outcome)
                  && (decayed <==> s.items[u].duration < 1875)
             else SameItem(s, p, u) && !decayed
    ensures if n == 1 then decayed && if outcome.Renewed? then HasLeft(t, u, Due(outcome.duration)) else Absent(t, u)
            else n > 1 && !decayed && HasLeft(t, u, n - 1)
  {
    hide *;
    var q := p.(last := b);
    if c == b {
      HandledOn(p, q, u, s.items[u].duration, b, canDecay, outcome);
      LookedLeft(s.last, s.items[u].duration, q, t, u, b, n, outcome);
    } else {
      ElsewhereLeft(s, p, q, t, u, c);
      DistanceLess(s.last, c);
    }
  }

  lemma {:induction false} LookedLeft(last: nat, duration: nat, q: State, t: State, u: nat, b: nat, n: nat,
                                      outcome: Outcome)
    requires last < BUCKETS && b == (last + 1) % BUCKETS && q.last == b
    requires |q.buckets| == BUCKETS && n == Distance(last, b) + Further(duration)
    requires Handled(q, u, duration, b, true, outcome) && Cleaned(q, t)
    ensures n >= 1 && (n == 1 <==> duration < 1875)
    ensures if n == 1 then if outcome.Renewed? then HasLeft(t, u, Due(outcome.duration)) else Absent(t, u)
            else HasLeft(t, u, n - 1)
  {
    hide *;
    NowLooked(last, duration);
    HandledLeft(duration, q, t, u, b, outcome);
  }

  lemma {:induction false} NowLooked(last: nat, duration: nat)
    requires last < BUCKETS
    ensures Distance(last, (last + 1) % BUCKETS) == 1 && (Further(duration) == 0 <==> duration < 1875)
  {}

  lemma {:induction false} DistanceLess(last: nat, c: nat)
    requires last < BUCKETS && c < BUCKETS && c != (last + 1) % BUCKETS
    ensures Distance((last + 1) % BUCKETS, c) == Distance(last, c) - 1 >= 1
  {}

  lemma {:induction false} ElsewhereLeft(s: State, p: State, q: State, t: State, u: nat, c: nat)
    requires SameItem(s, p, u) && Listed(s, u, c) && c < BUCKETS
    requires u in s.items && q == p.(last := q.last) && Cleaned(q, t)
    ensures q.last < BUCKETS && HasLeft(t, u, Distance(q.last, c) + Further(s.items[u].duration))
  {
    SoundLength(q);
    SoundLength(t);
    MovedOn(p, q, u);
    hide Count, Sound;
    assert Listed(t, u, c);
  }

  // What has been looked at is where its ticks say.
  lemma {:induction false} HandledLeft(duration: nat, q: State, t: State, u: nat, b: nat, outcome: Outcome)
    requires b < BUCKETS && q.last == b && |q.buckets| == BUCKETS
    requires Handled(q, u, duration, b, true, outcome) && Cleaned(q, t)
    ensures if duration < 1875 then (if outcome.Renewed? then HasLeft(t, u, Due(outcome.duration)) else Absent(t, u))
            else HasLeft(t, u, Further(duration))
  {
    SoundLength(t);
    hide Count, Sound, Slot, Due;
    if duration < 1875 {
      if outcome.Renewed? {
        EnteredLeft(t, u);
      }
    } else {
      var d := if duration < 2000 then (b + 1) % BUCKETS else b;
      assert Listed(q, u, d) && Listed(t, u, d);
      assert Distance(b, d) == if duration < 2000 then 1 else 4;
      assert t.items[u].duration == duration - ROUND;
      assert Further(duration) == Distance(b, d) + Further(duration - ROUND);
    }
  }

  lemma {:induction false} PassedTicked(s: State, p: State, t: State, canDecay: nat -> bool, outcome: nat -> Outcome,
                                        decayed: seq<nat>)
    requires Sound(s)
    requires var b := (s.last + 1) % BUCKETS;
      Passed(s, p, b, canDecay, outcome, decayed, |s.buckets[b]|) && Cleaned(p.(last := b), t)
    ensures Ticked(s, t, canDecay, outcome, decayed)
  {
    var b := (s.last + 1) % BUCKETS;
    var q := p.(last := b);
    assert s.buckets[b][..|s.buckets[b]|] == s.buckets[b];
    hide Count, Sound;
    forall u
      ensures Listed(s, u, b) && !canDecay(u) ==> Absent(t, u) && u !in decayed
      ensures u in s.waiting && u in s.items ==> u !in decayed && HasLeft(t, u, Due(s.items[u].duration))
      ensures Absent(s, u) ==> u !in decayed && Absent(t, u)
    {
      TickedItem(s, p, t, u, canDecay, outcome, decayed);
    }
    forall u: nat, n: nat | HasLeft(s, u, n) && (Listed(s, u, t.last) ==> canDecay(u))
      ensures u in decayed <==> n == 1
      ensures if n != 1 then HasLeft(t, u, n - 1)
              else if outcome(u).Renewed? then HasLeft(t, u, Due(outcome(u).duration))
              else Absent(t, u)
    {
      TickedLeft(s, p, t, u, n, canDecay, outcome, decayed);
    }
  }

  // ---------------------------------------------------------------- runs

  datatype Step =
    | Start(uid: nat, canDecay: bool, outcome: Outcome)
    | Tick(able: nat -> bool, outcomes: nat -> Outcome, decayed: seq<nat>)
    | Clean

  ghost predicate Next(s: State, step: Step, t: State) {
    match step
    case Start(uid, canDecay, outcome) => Sound(s) && Sound(t) && uid in s.items &&
      t == Started(s, uid, canDecay, outcome)
    case Tick(able, outcomes, decayed) => Ticked(s, t, able, outcomes, decayed)
    case Clean => Cleaned(s, t)
  }

  ghost predicate Run(states: seq<State>, steps: seq<Step>) {
    |states| == |steps| + 1 && forall k | 0 <= k < |steps| :: Next(states[k], steps[k], states[k + 1])
  }

  function Ticks(steps: seq<Step>): nat {
    if steps == [] then 0 else (if steps[0].Tick? then 1 else 0) + Ticks(steps[1..])
  }

  // Starting an item again, or cleaning up, leaves every listed item the ticks it has.
  lemma {:induction false} StartKeepsLeft(s: State, t: State, uid: nat, canDecay: bool, outcome: Outcome, u: nat,
                                          n: nat)
    requires Sound(s) && uid in s.items && t == Started(s, uid, canDecay, outcome) && HasLeft(s, u, n)
    ensures HasLeft(t, u, n)
  {
    var b :| Listed(s, u, b) && n == Distance(s.last, b) + Further(s.items[u].duration);
    OnePlace(s, u, b);
    AbsentCount(s, u);
    assert s.items[u].decaying;
    assert Listed(t, u, b) && t.last == s.last && t.items[u].duration == s.items[u].duration;
  }

  lemma {:induction false} CleanKeepsLeft(s: State, t: State, u: nat, n: nat)
    requires Cleaned(s, t) && HasLeft(s, u, n)
    ensures HasLeft(t, u, n)
  {
    var b :| Listed(s, u, b) && n == Distance(s.last, b) + Further(s.items[u].duration);
    assert Listed(t, u, b);
  }

  // A listed item that is able to decay whenever it is looked at decays at the very tick it is due, and at no
  // tick before, whatever else is started or cleaned up in between.
  lemma {:induction false} DecaysWhenDue(states: seq<State>, steps: seq<Step>, u: nat, due: nat)
    requires Run(states, steps) && HasLeft(states[0], u, due)
    requires forall k | 0 <= k < |steps| && steps[k].Tick? :: steps[k].able(u)
    requires Ticks(steps) <= due && due > 0
    ensures Ticks(steps) < due ==> HasLeft(states[|steps|], u, due - Ticks(steps))
    ensures forall k | 0 <= k < |steps| && steps[k].Tick? :: u in steps[k].decayed <==> Ticks(steps[..k + 1]) == due
    decreases |steps|
  {
    hide HasLeft, Next;
    assert |states| == |steps| + 1 && Ticks([]) == 0;
    if steps == [] {
      hide *;
    } else {
      var step, rest := steps[0], steps[1..];
      assert Next(states[0], steps[0], states[0 + 1]);
      assert Ticks(steps) == (if step.Tick? then 1 else 0) + Ticks(rest);
      hide *;
      FirstStep(states[0], step, states[1], u, due);
      RunFrom(states, steps, 1);
      var left := if step.Tick? then due - 1 else due;
      if left > 0 {
        DecaysWhenDue(states[1..], rest, u, left);
      } else {
        NoTicks(rest);
      }
      TicksMore(steps, |steps| - 1);
      assert steps[..|steps|] == steps && rest[..|rest|] == rest && states[1..][|rest|] == states[|steps|];
      forall k | 0 <= k < |steps| && steps[k].Tick? ensures u in steps[k].decayed <==> Ticks(steps[..k + 1]) == due {
        TicksMore(steps, k);
        assert k > 0 ==> steps[k] == rest[k - 1];
        assert k == 0 ==> rest[..k] == [];
      }
    }
  }

  // From the start to the end: an item that is started with time left, while it is not decaying, waits while other
  // items are started too, is listed by the next cleanup or tick, whichever comes first, and then decays at the very
  // tick its whole time is due, if it is able to whenever it is looked at.
  lemma {:induction false} StartedThenDecays(states: seq<State>, steps: seq<Step>, u: nat, outcome: Outcome, f: nat)
    requires Run(states, steps) && 1 <= f < |steps| && steps[0] == Start(u, true, outcome)
    requires u in states[0].items && !states[0].items[u].decaying && states[0].items[u].duration > 0
    requires (forall k | 1 <= k < f :: steps[k].Start?) && !steps[f].Start?
    requires forall k | f < k < |steps| && steps[k].Tick? :: steps[k].able(u)
    requires Ticks(steps[f + 1..]) <= Due(states[0].items[u].duration)
    ensures forall k | 0 <= k < |steps| && steps[k].Tick? ::
      u in steps[k].decayed <==> k > f && Ticks(steps[f + 1..k + 1]) == Due(states[0].items[u].duration)
  {
    var due := Due(states[0].items[u].duration);
    ListedAfterWaiting(states, steps, u, outcome, f);
    hide *;
    var rest := steps[f + 1..];
    assert forall k | 0 <= k < |rest| :: rest[k] == steps[f + 1 + k];
    DecaysWhenDue(states[f + 1..], rest, u, due);
    forall k | 0 <= k < |steps| && steps[k].Tick?
      ensures u in steps[k].decayed <==> k > f && Ticks(steps[f + 1..k + 1]) == due
    {
      if k > f {
        assert steps[k] == rest[k - f - 1] && rest[..k - f] == steps[f + 1..k + 1];
      }
    }
  }

  lemma {:induction false} ListedAfterWaiting(states: seq<State>, steps: seq<Step>, u: nat, outcome: Outcome, f: nat)
    requires Run(states, steps) && 1 <= f < |steps| && steps[0] == Start(u, true, outcome)
    requires u in states[0].items && !states[0].items[u].decaying && states[0].items[u].duration > 0
    requires (forall k | 1 <= k < f :: steps[k].Start?) && !steps[f].Start?
    ensures Run(states[f + 1..], steps[f + 1..])
    ensures HasLeft(states[f + 1..][0], u, Due(states[0].items[u].duration)) && Due(states[0].items[u].duration) > 0
    ensures steps[f].Tick? ==> u !in steps[f].decayed
  {
    hide HasLeft, Due;
    var duration := states[0].items[u].duration;
    assert Next(states[0], steps[0], states[1]);
    StillWaits(states, steps, u, duration, f);
    assert Next(states[f], steps[f], states[f + 1]);
    hide *;
    WaitingIsListed(states[f], steps[f], states[f + 1], u, duration);
    RunFrom(states, steps, f + 1);
    assert states[f + 1..][0] == states[f + 1];
  }

  // The item waits to be listed with its whole time.
  ghost predicate Waits(s: State, u: nat, duration: nat) {
    u in s.waiting && u in s.items && s.items[u].duration == duration
  }

  lemma {:induction false} StillWaits(states: seq<State>, steps: seq<Step>, u: nat, duration: nat, f: nat)
    requires Run(states, steps) && 1 <= f <= |steps| && Waits(states[1], u, duration)
    requires forall k | 1 <= k < f :: steps[k].Start?
    ensures Waits(states[f], u, duration)
    decreases f
  {
    hide Waits;
    if f > 1 {
      StillWaits(states, steps, u, duration, f - 1);
      assert Next(states[f - 1], steps[f - 1], states[f - 1 + 1]);
      StartKeepsWaiting(states[f - 1], steps[f - 1], states[f], u, duration);
    }
  }

  // Starting an item, be it the same again, leaves those that wait as they are.
  lemma {:induction false} StartKeepsWaiting(s: State, step: Step, t: State, u: nat, duration: nat)
    requires Next(s, step, t) && step.Start? && Waits(s, u, duration)
    ensures Waits(t, u, duration)
  {
    AbsentCount(s, u);
    hide Count;
    assert s.items[u].decaying;
  }

  lemma {:induction false} WaitingIsListed(s: State, step: Step, t: State, u: nat, duration: nat)
    requires Next(s, step, t) && !step.Start? && Waits(s, u, duration) && duration > 0
    ensures HasLeft(t, u, Due(duration)) && Due(duration) > 0
    ensures step.Tick? ==> u !in step.decayed
  {
    hide Count, Sound, Slot, HasLeft;
    if step.Clean? {
      assert Listed(t, u, Slot(s.last, duration)) && t.items[u].duration == duration;
      SoundLength(t);
      EnteredLeft(t, u);
    }
  }

  lemma {:induction false} RunFrom(states: seq<State>, steps: seq<Step>, n: nat)
    requires Run(states, steps) && n <= |steps|
    ensures Run(states[n..], steps[n..])
  {
    hide Next;
    var states', steps' := states[n..], steps[n..];
    forall k | 0 <= k < |steps'| ensures Next(states'[k], steps'[k], states'[k + 1]) {
      assert Next(states[n + k], steps[n + k], states[n + k + 1]);
    }
  }

  lemma {:induction false} TicksMore(steps: seq<Step>, k: nat)
    requires k < |steps|
    ensures Ticks(steps[..k + 1]) == (if steps[0].Tick? then 1 else 0) + Ticks(steps[1..][..k])
  {
    assert steps[..k + 1][1..] == steps[1..][..k];
  }

  lemma {:induction false} FirstStep(s: State, step: Step, t: State, u: nat, due: nat)
    requires Next(s, step, t) && HasLeft(s, u, due) && due > 0 && (step.Tick? ==> step.able(u))
    ensures step.Tick? ==> (u in step.decayed <==> due == 1)
    ensures step.Tick? && due > 1 ==> HasLeft(t, u, due - 1)
    ensures !step.Tick? ==> HasLeft(t, u, due)
  {
    hide HasLeft, Sound, Cleaned, Ticked;
    match step {
      case Start(uid, canDecay, outcome) => StartKeepsLeft(s, t, uid, canDecay, outcome, u, due);
      case Clean => CleanKeepsLeft(s, t, u, due);
      case Tick(able, outcomes, decayed) => TickTakesOne(s, t, able, outcomes, decayed, u, due);
    }
  }

  lemma {:induction false} TickTakesOne(s: State, t: State, able: nat -> bool, outcomes: nat -> Outcome,
                                        decayed: seq<nat>, u: nat, due: nat)
    requires Ticked(s, t, able, outcomes, decayed) && HasLeft(s, u, due) && able(u)
    ensures u in decayed <==> due == 1
    ensures due > 1 ==> HasLeft(t, u, due - 1)
  {}

  lemma {:induction false} NoTicks(steps: seq<Step>)
    requires Ticks(steps) == 0
    ensures forall k | 0 <= k < |steps| :: !steps[k].Tick?
  {
    if steps != [] {
      NoTicks(steps[1..]);
    }
  }
}
