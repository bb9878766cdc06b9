/** The conditions a player is under, and the running modifiers of speed, skills and stats that they leave. */
module Conditions {

  import opened Wrappers

  const SKILLS := 7
  const SPECIAL_SKILLS := 6
  const STATS := 4
  const NOTHING := [0, 0, 0, 0]

  datatype Kind = Haste | Paralyze | Attributes | Other(number: nat)

  // A condition in the creature's list. `skillsPercent` and `statsPercent` are 0 where no percentage is asked for.
  datatype Condition = Condition(
    kind: Kind, id: int, subId: nat, ticks: int, endTime: int, speedDelta: int,
    skills: seq<int>, skillsPercent: seq<int>, specialSkills: seq<int>, stats: seq<int>, statsPercent: seq<int>)

  datatype Key = Key(kind: Kind, id: int, subId: nat)

  function KeyOf(c: Condition): Key {
    Key(c.kind, c.id, c.subId)
  }

  predicate WellFormed(c: Condition) {
    |c.skills| == |c.skillsPercent| == SKILLS && |c.specialSkills| == SPECIAL_SKILLS &&
      |c.stats| == |c.statsPercent| == STATS
  }

  // What can be modified.
  datatype Slot = Speed | Skill(s: nat) | Special(p: nat) | Stat(t: nat)

  predicate Exists(slot: Slot) {
    match slot
    case Speed => true
    case Skill(i) => i < SKILLS
    case Special(i) => i < SPECIAL_SKILLS
    case Stat(i) => i < STATS
  }

  // What a condition adds to a slot while it lasts.
  function Effect(c: Condition, slot: Slot): int
    requires WellFormed(c) && Exists(slot)
  {
    match slot
    case Speed => if c.kind.Haste? || c.kind.Paralyze? then c.speedDelta else 0
    case Skill(i) => if c.kind.Attributes? then c.skills[i] else 0
    case Special(i) => if c.kind.Attributes? then c.specialSkills[i] else 0
    case Stat(i) => if c.kind.Attributes? then c.stats[i] else 0
  }

  ghost predicate AllWellFormed(conditions: seq<Condition>) {
    forall c | c in conditions :: WellFormed(c)
  }

  function Total(conditions: seq<Condition>, slot: Slot): int
    requires AllWellFormed(conditions) && Exists(slot)
  {
    if conditions == [] then 0 else Effect(conditions[0], slot) + Total(conditions[1..], slot)
  }

  ghost predicate Unique(conditions: seq<Condition>) {
    forall i, j | 0 <= i < j < |conditions| :: KeyOf(conditions[i]) != KeyOf(conditions[j])
  }

  ghost predicate HasKey(conditions: seq<Condition>, key: Key) {
    exists c :: c in conditions && KeyOf(c) == key
  }

  // A percentage of a base value as the difference it makes, cut off toward zero.
  function Share(base: int, percent: int): int {
    var x := base * (percent - 100);
    if x >= 0 then x / 100 else -(-x / 100)
  }

  predicate IsSpeed(kind: Kind) {
    kind.Haste? || kind.Paralyze?
  }

  // The speed that a haste or a paralysis stores: its own, or the one rolled for it.
  function NewSpeed(c: Condition, roll: int): int {
    if c.speedDelta == 0 then roll else c.speedDelta
  }

  function AtLeast(least: int, x: int): int {
    if x < least then least else x
  }

  // ---------------------------------------------------------------- totals

  lemma {:induction false} TotalConcat(a: seq<Condition>, b: seq<Condition>, slot: Slot)
    requires AllWellFormed(a) && AllWellFormed(b) && AllWellFormed(a + b) && Exists(slot)
    ensures Total(a + b, slot) == Total(a, slot) + Total(b, slot)
  {
    if a == [] {
      assert a + b == b;
    } else {
      assert (a + b)[1..] == a[1..] + b;
      TotalConcat(a[1..], b, slot);
    }
  }

  lemma {:induction false} TotalSplit(conditions: seq<Condition>, k: nat, slot: Slot)
    requires AllWellFormed(conditions) && k < |conditions| && Exists(slot)
    ensures AllWellFormed(conditions[..k]) && AllWellFormed(conditions[k + 1..])
    ensures Total(conditions, slot) ==
      Total(conditions[..k], slot) + Effect(conditions[k], slot) + Total(conditions[k + 1..], slot)
  {
    assert conditions == conditions[..k] + ([conditions[k]] + conditions[k + 1..]);
    TotalConcat(conditions[..k], [conditions[k]] + conditions[k + 1..], slot);
    assert ([conditions[k]] + conditions[k + 1..])[1..] == conditions[k + 1..];
  }

  function Dropped(conditions: seq<Condition>, k: nat): seq<Condition>
    requires k < |conditions|
  {
    conditions[..k] + conditions[k + 1..]
  }

  lemma {:induction false} TotalDropped(conditions: seq<Condition>, k: nat, slot: Slot)
    requires AllWellFormed(conditions) && k < |conditions| && Exists(slot)
    ensures AllWellFormed(Dropped(conditions, k))
    ensures Total(Dropped(conditions, k), slot) == Total(conditions, slot) - Effect(conditions[k], slot)
  {
    TotalSplit(conditions, k, slot);
    TotalConcat(conditions[..k], conditions[k + 1..], slot);
  }

  lemma {:induction false} TotalReplaced(conditions: seq<Condition>, k: nat, c: Condition, slot: Slot)
    requires AllWellFormed(conditions) && k < |conditions| && WellFormed(c) && Exists(slot)
    ensures AllWellFormed(conditions[k := c])
    ensures Total(conditions[k := c], slot) == Total(conditions, slot) - Effect(conditions[k], slot) + Effect(c, slot)
  {
    TotalSplit(conditions, k, slot);
    TotalSplit(conditions[k := c], k, slot);
    assert conditions[k := c][..k] == conditions[..k] && conditions[k := c][k + 1..] == conditions[k + 1..];
  }

  lemma {:induction false} TotalMore(conditions: seq<Condition>, c: Condition, slot: Slot)
    requires AllWellFormed(conditions) && WellFormed(c) && Exists(slot)
    ensures AllWellFormed(conditions + [c])
    ensures Total(conditions + [c], slot) == Total(conditions, slot) + Effect(c, slot)
  {
    TotalConcat(conditions, [c], slot);
    assert [c][1..] == [];
  }

  lemma {:induction false} UniqueDropped(conditions: seq<Condition>, k: nat)
    requires Unique(conditions) && k < |conditions|
    ensures Unique(Dropped(conditions, k))
  {
    assert forall i | 0 <= i < |Dropped(conditions, k)| ::
      Dropped(conditions, k)[i] == conditions[if i < k then i else i + 1];
  }

  // ---------------------------------------------------------------- the player

  // Where a modifier would be without conditions.
  type Gear = Slot -> int

  class Player {
    var conditions: seq<Condition>
    var suppressed: set<Kind>
    var baseSpeed: int
    var varSpeed: int
    var baseSkills: seq<int>
    var baseStats: seq<int>
    var varStatsPercent: seq<int>
    const varSkills: array<int>
    const varSpecialSkills: array<int>
    const varStats: array<int>
    ghost var gear: Gear

    constructor (baseSpeed: int, baseSkills: seq<int>, baseStats: seq<int>)
      requires |baseSkills| == SKILLS && |baseStats| == STATS
      ensures Valid() && conditions == [] && fresh(varSkills) && fresh(varSpecialSkills) && fresh(varStats)
    {
      this.conditions, this.suppressed, this.baseSpeed, this.varSpeed := [], {}, baseSpeed, 0;
      this.baseSkills, this.baseStats, this.varStatsPercent := baseSkills, baseStats, NOTHING;
      varSkills := new int[SKILLS](_ => 0);
      varSpecialSkills := new int[SPECIAL_SKILLS](_ => 0);
      varStats := new int[STATS](_ => 0);
      gear := _ => 0;
    }

    ghost predicate Shaped()
      reads this
    {
      && varSkills.Length == SKILLS && varSpecialSkills.Length == SPECIAL_SKILLS && varStats.Length == STATS
      && varSkills != varSpecialSkills && varSkills != varStats && varSpecialSkills != varStats
      && |baseSkills| == SKILLS && |baseStats| == |varStatsPercent| == STATS
    }

    // The value a percentage of a stat is taken of: for health and mana the maximum of the moment, with everything that
    // modifies it but `without`, and for the magic level its base value.
    function StatNow(i: nat, without: int): int
      requires Shaped() && i < STATS
      reads this, varStats
    {
      if i < 2 then AtLeast(if i == 0 then 1 else 0, baseStats[i] + varStats[i] - without + varStatsPercent[i])
      else baseStats[i]
    }

    // `d` has the differences for the percentages of `c`, and what `c` has where it asks for none.
    ghost predicate Percented(c: Condition, d: Condition, without: seq<int>)
      requires Shaped() && WellFormed(c) && WellFormed(d) && |without| == STATS
      reads this, varStats
    {
      && (forall i | 0 <= i < SKILLS ::
          d.skills[i] == if c.skillsPercent[i] == 0 then c.skills[i] else Share(baseSkills[i], c.skillsPercent[i]))
      && (forall i | 0 <= i < STATS ::
          d.stats[i] == if c.statsPercent[i] == 0 || i == 2 then c.stats[i]
                        else Share(StatNow(i, without[i]), c.statsPercent[i]))
    }

    // What starting a condition makes of it: it ends in time, and a speed of its own, or the one rolled, or the
    // differences for its percentages are stored in it.
    ghost predicate StartedAs(c: Condition, d: Condition, now: int, roll: int)
      requires Shaped() && WellFormed(c) && WellFormed(d)
      reads this, varStats
    {
      && d.endTime == (if c.ticks > 0 then c.ticks + now else c.endTime)
      && (if IsSpeed(c.kind) then d == c.(endTime := d.endTime, speedDelta := NewSpeed(c, roll))
          else if c.kind.Attributes?
          then d == c.(endTime := d.endTime, skills := d.skills, stats := d.stats) && Percented(c, d, NOTHING)
          else d == c.(endTime := d.endTime))
    }

    // What merging a condition into one of its key makes of that one.
    ghost predicate MergedAs(prev: Condition, c: Condition, d: Condition, now: int, roll: int)
      requires Shaped() && WellFormed(prev) && WellFormed(c) && WellFormed(d)
      reads this, varStats
    {
      if !Updates(prev, c, now) then d == prev
      else if IsSpeed(c.kind)
      then d == prev.(ticks := c.ticks, endTime := c.ticks + now, speedDelta := NewSpeed(c, roll))
      else if c.kind.Attributes?
      then d == c.(endTime := c.ticks + now, skills := d.skills, stats := d.stats) && Percented(c, d, prev.stats)
      else d == prev.(ticks := c.ticks, endTime := c.ticks + now)
    }

    ghost function Modifier(slot: Slot): int
      requires Shaped() && Exists(slot)
      reads this, varSkills, varSpecialSkills, varStats
    {
      match slot
      case Speed => varSpeed
      case Skill(i) => varSkills[i]
      case Special(i) => varSpecialSkills[i]
      case Stat(i) => varStats[i]
    }

    // Every modifier is what it would be without conditions plus what the conditions add, and no condition is
    // there twice.
    ghost predicate Valid()
      reads this, varSkills, varSpecialSkills, varStats
    {
      && Shaped() && AllWellFormed(conditions) && Unique(conditions)
      && forall slot | Exists(slot) :: Modifier(slot) == gear(slot) + Total(conditions, slot)
    }

    // With no condition left every modifier is back where it would be.
    lemma {:induction false} BackToBase()
      requires Valid() && conditions == []
      ensures forall slot | Exists(slot) :: Modifier(slot) == gear(slot)
    {
    }

    // ---- modifiers

    // Adds to the entries that differ from 0, or takes away.
    method AddTo(a: array<int>, deltas: seq<int>, sign: int)
      requires a.Length == |deltas| && sign in {-1, 1}
      modifies a
      ensures forall i | 0 <= i < a.Length :: a[i] == old(a[i]) + sign * deltas[i]
    {
      for i := 0 to a.Length
        invariant forall k | 0 <= k < a.Length :: a[k] == if k < i then old(a[k]) + sign * deltas[k] else old(a[k])
      {
        if deltas[i] != 0 {
          a[i] := a[i] + sign * deltas[i];
        }
      }
    }

    function Speed(): int
      reads this
    {
      baseSpeed + varSpeed
    }

    method ChangeSpeed(delta: int)
      modifies this`varSpeed
      ensures varSpeed == old(varSpeed) + delta
    {
      var varSpeedNow := Speed() - baseSpeed;
      varSpeed := varSpeedNow + delta;
    }

    // Skills of items and the like, beside all conditions.
    method ChangeGear(slot: Slot, delta: int)
      requires Valid() && Exists(slot)
      modifies this`varSpeed, this`gear, varSkills, varSpecialSkills, varStats
      ensures Valid()
      ensures forall s | Exists(s) :: Modifier(s) == old(Modifier(s)) + if s == slot then delta else 0
    {
      match slot {
        case Speed => ChangeSpeed(delta);
        case Skill(i) => varSkills[i] := varSkills[i] + delta;
        case Special(i) => varSpecialSkills[i] := varSpecialSkills[i] + delta;
        case Stat(i) => varStats[i] := varStats[i] + delta;
      }
      ghost var was := gear;
      gear := s => was(s) + if s == slot then delta else 0;
    }

    // The attribute arrays of a condition added to the modifiers, or taken off them.
    method ApplyAttributes(c: Condition, sign: int)
      requires Shaped() && WellFormed(c) && c.kind.Attributes? && sign in {-1, 1}
      modifies varSkills, varSpecialSkills, varStats
      ensures forall slot | Exists(slot) :: Modifier(slot) == old(Modifier(slot)) + sign * Effect(c, slot)
    {
      AddTo(varSkills, c.skills, sign);
      AddTo(varSpecialSkills, c.specialSkills, sign);
      AddTo(varStats, c.stats, sign);
    }

    // The differences for the percentages asked for, from the base skills and the stats of the moment.
    method UpdatePercents(c: Condition) returns (d: Condition)
      requires Shaped() && WellFormed(c)
      ensures WellFormed(d) && d == c.(skills := d.skills, stats := d.stats)
      ensures Percented(c, d, NOTHING)
    {
      d := c;
      for i := 0 to SKILLS
        invariant WellFormed(d) && d == c.(skills := d.skills)
        invariant forall k | 0 <= k < SKILLS ::
          d.skills[k] == if c.skillsPercent[k] == 0 || k >= i then c.skills[k]
            else Share(baseSkills[k], c.skillsPercent[k])
      {
        if c.skillsPercent[i] != 0 {
          d := d.(skills := d.skills[i := Share(baseSkills[i], c.skillsPercent[i])]);
        }
      }
      for i := 0 to STATS
        invariant WellFormed(d) && d == c.(skills := d.skills, stats := d.stats)
        invariant forall k | 0 <= k < SKILLS ::
          d.skills[k] == if c.skillsPercent[k] == 0 then c.skills[k] else Share(baseSkills[k], c.skillsPercent[k])
        invariant forall k | 0 <= k < STATS ::
          d.stats[k] == if c.statsPercent[k] == 0 || k == 2 || k >= i then c.stats[k]
            else Share(StatNow(k, 0), c.statsPercent[k])
      {
        if c.statsPercent[i] != 0 && i != 2 {
          d := d.(stats := d.stats[i := Share(StatNow(i, 0), c.statsPercent[i])]);
        }
      }
    }

    // ---- one condition

    // Starts a condition; `roll` is the random speed of one that brings none of its own.
    method StartCondition(c: Condition, now: int, roll: int) returns (d: Condition)
      requires Shaped() && WellFormed(c)
      modifies this`varSpeed, varSkills, varSpecialSkills, varStats
      ensures WellFormed(d) && KeyOf(d) == KeyOf(c) && old(StartedAs(c, d, now, roll))
      ensures forall slot | Exists(slot) :: Modifier(slot) == old(Modifier(slot)) + Effect(d, slot)
    {
      d := if c.ticks > 0 then c.(endTime := c.ticks + now) else c;
      match c.kind {
        case Haste => d := StartSpeed(d, roll);
        case Paralyze => d := StartSpeed(d, roll);
        case Attributes =>
          d := UpdatePercents(d);
          ApplyAttributes(d, 1);
        case Other(_) =>
      }
    }

    method StartSpeed(c: Condition, roll: int) returns (d: Condition)
      modifies this`varSpeed
      ensures d == c.(speedDelta := NewSpeed(c, roll))
      ensures varSpeed == old(varSpeed) + d.speedDelta
    {
      d := if c.speedDelta == 0 then c.(speedDelta := roll) else c;
      ChangeSpeed(d.speedDelta);
    }

    method EndCondition(c: Condition)
      requires Shaped() && WellFormed(c)
      modifies this`varSpeed, varSkills, varSpecialSkills, varStats
      ensures forall slot | Exists(slot) :: Modifier(slot) == old(Modifier(slot)) - Effect(c, slot)
    {
      match c.kind {
        case Haste => ChangeSpeed(-c.speedDelta);
        case Paralyze => ChangeSpeed(-c.speedDelta);
        case Attributes => ApplyAttributes(c, -1);
        case Other(_) =>
      }
    }

    // A condition of the same key takes the place of one that is there, unless it would end sooner; a speed always
    // gives way, except a lasting one to a limited one.
    method Merge(prev: Condition, c: Condition, now: int, roll: int) returns (d: Condition)
      requires Shaped() && WellFormed(prev) && WellFormed(c) && KeyOf(prev) == KeyOf(c)
      modifies this`varSpeed, varSkills, varSpecialSkills, varStats
      ensures WellFormed(d) && KeyOf(d) == KeyOf(prev) && old(MergedAs(prev, c, d, now, roll))
      ensures forall slot | Exists(slot) :: Modifier(slot) == old(Modifier(slot)) - Effect(prev, slot) + Effect(d, slot)
    {
      d := prev;
      if !Updates(prev, c, now) {
        return;
      }
      match c.kind {
        case Haste => d := MergeSpeed(prev, c, now, roll);
        case Paralyze => d := MergeSpeed(prev, c, now, roll);
        case Attributes => d := MergeAttributes(prev, c, now);
        case Other(_) =>
          d := prev.(ticks := c.ticks, endTime := c.ticks + now);
      }
    }

    method MergeAttributes(prev: Condition, c: Condition, now: int) returns (d: Condition)
      requires Shaped() && WellFormed(prev) && WellFormed(c) && KeyOf(prev) == KeyOf(c) && c.kind.Attributes?
      modifies this`varSpeed, varSkills, varSpecialSkills, varStats
      ensures WellFormed(d) && d == c.(endTime := c.ticks + now, skills := d.skills, stats := d.stats)
      ensures old(Percented(c, d, prev.stats))
      ensures forall slot | Exists(slot) :: Modifier(slot) == old(Modifier(slot)) - Effect(prev, slot) + Effect(d, slot)
    {
      EndCondition(prev);
      assert forall i | 0 <= i < STATS :: Modifier(Stat(i)) == old(Modifier(Stat(i))) - prev.stats[i];
      d := UpdatePercents(c.(endTime := c.ticks + now));
      ApplyAttributes(d, 1);
    }

    method MergeSpeed(prev: Condition, c: Condition, now: int, roll: int) returns (d: Condition)
      modifies this`varSpeed
      ensures d == prev.(ticks := c.ticks, endTime := c.ticks + now, speedDelta := NewSpeed(c, roll))
      ensures varSpeed == old(varSpeed) - prev.speedDelta + d.speedDelta
    {
      d := prev.(ticks := c.ticks, endTime := c.ticks + now, speedDelta := c.speedDelta);
      if d.speedDelta == 0 {
        d := d.(speedDelta := roll);
      }
      var newSpeedChange := d.speedDelta - prev.speedDelta;
      if newSpeedChange != 0 {
        ChangeSpeed(newSpeedChange);
      }
    }

    // ---- the list

    method HasCondition(kind: Kind, now: int) returns (has: bool)
      ensures has == Active(conditions, suppressed, kind, now)
    {
      if kind in suppressed {
        return false;
      }
      for i := 0 to |conditions|
        invariant forall c | c in conditions[..i] :: !IsActive(c, kind, now)
      {
        if IsActive(conditions[i], kind, now) {
          return true;
        }
      }
      assert conditions[..|conditions|] == conditions;
      return false;
    }

    // The place of the condition with a key; the length of the list when there is none.
    method GetCondition(key: Key) returns (k: nat)
      ensures k <= |conditions| && (k < |conditions| ==> KeyOf(conditions[k]) == key)
      ensures k == |conditions| ==> !HasKey(conditions, key)
    {
      k := 0;
      while k < |conditions| && KeyOf(conditions[k]) != key
        invariant 0 <= k <= |conditions| && forall j | 0 <= j < k :: KeyOf(conditions[j]) != key
      {
        k := k + 1;
      }
    }

    // Takes a condition off the list and its effects off the modifiers.
    method RemoveAt(k: nat)
      requires Valid() && k < |conditions|
      modifies this`conditions, this`varSpeed, varSkills, varSpecialSkills, varStats
      ensures Valid() && conditions == Dropped(old(conditions), k)
    {
      hide Unique, Effect;
      ghost var before := conditions;
      var c := conditions[k];
      UniqueDropped(conditions, k);
      conditions := Dropped(conditions, k);
      EndCondition(c);
      forall slot | Exists(slot)
        ensures AllWellFormed(conditions) && Modifier(slot) == gear(slot) + Total(conditions, slot) {
        TotalDropped(before, k, slot);
      }
      assert AllWellFormed(conditions) by { TotalDropped(before, k, Slot.Speed); }
    }

    // Takes all conditions of a kind, or of a kind and an origin, off the list. A paralysis is left for later when
    // the player still has to wait for a step.
    method RemoveConditions(kind: Kind, id: Option<int>, force: bool, walkDelay: int)
      requires Valid()
      modifies this`conditions, this`varSpeed, varSkills, varSpecialSkills, varStats
      ensures Valid()
      ensures conditions == if !force && kind.Paralyze? && walkDelay > 0 then old(conditions)
        else Others(old(conditions), kind, id)
    {
      hide Valid;
      ghost var before := conditions;
      var i := 0;
      while i < |conditions|
        invariant Valid() && i <= |conditions|
        invariant Others(conditions, kind, id) == Others(before, kind, id)
        invariant forall j | 0 <= j < i :: !Chosen(conditions[j], kind, id)
        invariant !force && kind.Paralyze? && walkDelay > 0 ==> conditions == before
        decreases |conditions| - i
      {
        if !Chosen(conditions[i], kind, id) {
          i := i + 1;
        } else {
          if !force && kind.Paralyze? && walkDelay > 0 {
            return;
          }
          OthersDropped(conditions, i, kind, id);
          RemoveAt(i);
        }
      }
      OthersAll(conditions, kind, id);
    }

    // Haste and paralysis drive each other out.
    method OnAddCondition(kind: Kind, now: int, walkDelay: int)
      requires Valid()
      modifies this`conditions, this`varSpeed, varSkills, varSpecialSkills, varStats
      ensures Valid() && conditions == AfterAdd(old(conditions), suppressed, kind, now, walkDelay)
    {
      var hasted := HasCondition(Haste, now);
      var paralyzed := HasCondition(Paralyze, now);
      if kind.Paralyze? && hasted {
        RemoveConditions(Haste, None, false, walkDelay);
      } else if kind.Haste? && paralyzed {
        RemoveConditions(Paralyze, None, false, walkDelay);
      }
    }

    // Adds a condition, or merges it with the one of its key. `starts` says whether one of another kind can be
    // started. A haste has to wait while a paralyzed player waits for a step.
    method AddCondition(c: Condition, force: bool, walkDelay: int, now: int, roll: int, starts: bool)
      returns (added: bool)
      requires Valid() && WellFormed(c)
      modifies this`conditions, this`varSpeed, varSkills, varSpecialSkills, varStats
      ensures Valid()
      ensures added == (
        && !(!force && c.kind.Haste? && Active(old(conditions), suppressed, Paralyze, now) && walkDelay > 0)
        && (HasKey(old(conditions), KeyOf(c)) || !c.kind.Other? || starts))
      ensures !added ==> conditions == old(conditions)
      ensures added ==> HasKey(conditions, KeyOf(c))
      ensures added && HasKey(old(conditions), KeyOf(c)) ==>
        && |conditions| == |old(conditions)|
        && (forall j | 0 <= j < |conditions| :: KeyOf(conditions[j]) == KeyOf(old(conditions)[j]))
        && (forall j | 0 <= j < |conditions| && KeyOf(conditions[j]) != KeyOf(c) ::
              conditions[j] == old(conditions)[j])
        && (forall d, j | 0 <= j < |conditions| && d == conditions[j] && KeyOf(d) == KeyOf(c) ::
              old(MergedAs(conditions[j], c, d, now, roll)))
      ensures added && !HasKey(old(conditions), KeyOf(c)) ==>
        exists d ::
          && WellFormed(d) && KeyOf(d) == KeyOf(c) && old(StartedAs(c, d, now, roll))
          && conditions == AfterAdd(old(conditions) + [d], suppressed, c.kind, now, walkDelay)
    {
      hide Effect, Total, Dropped;
      var paralyzed := HasCondition(Paralyze, now);
      if !force && c.kind.Haste? && paralyzed && walkDelay > 0 {
        return false;
      }
      ghost var before := conditions;
      var k := GetCondition(KeyOf(c));
      if k < |conditions| {
        assert conditions[k] in conditions;
        var d := Merge(conditions[k], c, now, roll);
        conditions := conditions[k := d];
        Replaced(before, k, d);
        assert conditions[k] == d && d in conditions;
        return true;
      }
      if c.kind.Other? && !starts {
        return false;
      }
      var d := StartCondition(c, now, roll);
      conditions := conditions + [d];
      Appended(before, d);
      OnAddCondition(c.kind, now, walkDelay);
      AfterAddKeeps(before, d, suppressed, now, walkDelay);
      return true;
    }

    method ElapseAt(k: nat, interval: nat)
      requires Valid() && k < |conditions|
      modifies this`conditions
      ensures Valid() && conditions == old(conditions)[k := Elapsed(old(conditions)[k], interval)]
    {
      ghost var before := conditions;
      assert conditions[k] in conditions;
      var c := Elapsed(conditions[k], interval);
      assert WellFormed(c) && forall slot | Exists(slot) :: Effect(c, slot) == Effect(conditions[k], slot);
      hide Unique, Effect;
      conditions := conditions[k := c];
      Replaced(before, k, c);
    }

    // Time goes by for every condition; those that are over go. `lives` says so of conditions of other kinds.
    method ExecuteConditions(interval: nat, now: int, lives: Condition -> bool)
      requires Valid()
      modifies this`conditions, this`varSpeed, varSkills, varSpecialSkills, varStats
      ensures Valid() && conditions == Executed(old(conditions), interval, now, lives)
    {
      hide Valid, Dropped, Elapsed, Lasts, Executed;
      ghost var before := conditions;
      var i := 0;
      ExecutedNone(interval, now, lives);
      ghost var j := 0;
      assert before[..0] == [];
      while i < |conditions|
        invariant Valid() && i <= |conditions| && j <= |before|
        invariant conditions[i..] == before[j..] && conditions[..i] == Executed(before[..j], interval, now, lives)
        decreases |conditions| - i
      {
        assert conditions[i] == conditions[i..][0] == before[j];
        assert before[..j + 1] == before[..j] + [before[j]] && conditions[i + 1..] == before[j + 1..];
        ExecutedMore(before[..j], before[j], interval, now, lives);
        ghost var list := conditions;
        var c := Elapsed(conditions[i], interval);
        ElapseAt(i, interval);
        if Lasts(c, now, lives) {
          i := i + 1;
        } else {
          RemoveAt(i);
          DroppedParts(list[i := c], i);
        }
        j := j + 1;
      }
      assert conditions[..i] == conditions && conditions[i..] == [];
      assert j == |before| by { assert |before[j..]| == 0; }
      assert before[..j] == before;
    }
  }

  predicate IsActive(c: Condition, kind: Kind, now: int) {
    c.kind == kind && c.subId == 0 && c.endTime >= now
  }

  ghost predicate Active(conditions: seq<Condition>, suppressed: set<Kind>, kind: Kind, now: int) {
    kind !in suppressed && exists c :: c in conditions && IsActive(c, kind, now)
  }

  predicate Chosen(c: Condition, kind: Kind, id: Option<int>) {
    c.kind == kind && (id.None? || c.id == id.value)
  }

  function Others(conditions: seq<Condition>, kind: Kind, id: Option<int>): seq<Condition> {
    if conditions == [] then []
    else (if Chosen(conditions[0], kind, id) then [] else [conditions[0]]) + Others(conditions[1..], kind, id)
  }

  // The list after a condition of a kind has been added to it.
  ghost function AfterAdd(conditions: seq<Condition>, suppressed: set<Kind>, kind: Kind, now: int,
                          walkDelay: int): seq<Condition> {
    if kind.Paralyze? && Active(conditions, suppressed, Haste, now) then Others(conditions, Haste, None)
    else if kind.Haste? && Active(conditions, suppressed, Paralyze, now) && walkDelay <= 0
    then Others(conditions, Paralyze, None)
    else conditions
  }

  function Elapsed(c: Condition, interval: nat): Condition {
    if c.ticks == -1 then c else c.(ticks := if c.ticks - interval > 0 then c.ticks - interval else 0)
  }

  predicate Lasts(c: Condition, now: int, lives: Condition -> bool) {
    if c.kind.Other? then lives(c) else c.ticks == -1 || c.endTime >= now
  }

  function Executed(conditions: seq<Condition>, interval: nat, now: int, lives: Condition -> bool): seq<Condition> {
    if conditions == [] then []
    else
      var c := Elapsed(conditions[0], interval);
      (if Lasts(c, now, lives) then [c] else []) + Executed(conditions[1..], interval, now, lives)
  }

  lemma {:induction false} ExecutedNone(interval: nat, now: int, lives: Condition -> bool)
    ensures Executed([], interval, now, lives) == []
  {}

  lemma {:induction false} ExecutedMore(conditions: seq<Condition>, c: Condition, interval: nat, now: int,
                                        lives: Condition -> bool)
    ensures Executed(conditions + [c], interval, now, lives) == Executed(conditions, interval, now, lives) +
      if Lasts(Elapsed(c, interval), now, lives) then [Elapsed(c, interval)] else []
  {
    hide Elapsed, Lasts;
    if conditions == [] {
      assert conditions + [c] == [c] && [c][1..] == [];
    } else {
      var rest := conditions[1..];
      assert (conditions + [c])[0] == conditions[0] && (conditions + [c])[1..] == rest + [c];
      var d := Elapsed(conditions[0], interval);
      var first := if Lasts(d, now, lives) then [d] else [];
      assert Executed(conditions, interval, now, lives) == first + Executed(rest, interval, now, lives);
      assert Executed(conditions + [c], interval, now, lives) == first + Executed(rest + [c], interval, now, lives);
      hide Executed;
      ExecutedMore(rest, c, interval, now, lives);
    }
  }

  lemma {:induction false} DroppedParts(conditions: seq<Condition>, k: nat)
    requires k < |conditions|
    ensures |Dropped(conditions, k)| == |conditions| - 1
    ensures Dropped(conditions, k)[..k] == conditions[..k] && Dropped(conditions, k)[k..] == conditions[k + 1..]
  {}

  lemma {:induction false} OthersConcat(a: seq<Condition>, b: seq<Condition>, kind: Kind, id: Option<int>)
    ensures Others(a + b, kind, id) == Others(a, kind, id) + Others(b, kind, id)
  {
    if a == [] {
      assert a + b == b;
    } else {
      assert (a + b)[1..] == a[1..] + b;
      OthersConcat(a[1..], b, kind, id);
    }
  }

  lemma {:induction false} OthersDropped(conditions: seq<Condition>, k: nat, kind: Kind, id: Option<int>)
    requires k < |conditions| && Chosen(conditions[k], kind, id)
    ensures Others(Dropped(conditions, k), kind, id) == Others(conditions, kind, id)
    ensures forall j | 0 <= j < k :: Dropped(conditions, k)[j] == conditions[j]
  {
    assert conditions == conditions[..k] + ([conditions[k]] + conditions[k + 1..]);
    OthersConcat(conditions[..k], [conditions[k]] + conditions[k + 1..], kind, id);
    OthersConcat(conditions[..k], conditions[k + 1..], kind, id);
    assert ([conditions[k]] + conditions[k + 1..])[1..] == conditions[k + 1..];
  }

  lemma {:induction false} OthersAll(conditions: seq<Condition>, kind: Kind, id: Option<int>)
    requires forall j | 0 <= j < |conditions| :: !Chosen(conditions[j], kind, id)
    ensures Others(conditions, kind, id) == conditions
  {
    if conditions != [] {
      OthersAll(conditions[1..], kind, id);
    }
  }

  lemma {:induction false} Replaced(conditions: seq<Condition>, k: nat, c: Condition)
    requires AllWellFormed(conditions) && Unique(conditions) && k < |conditions|
    requires WellFormed(c) && KeyOf(c) == KeyOf(conditions[k])
    ensures AllWellFormed(conditions[k := c]) && Unique(conditions[k := c])
    ensures forall slot | Exists(slot) ::
      Total(conditions[k := c], slot) == Total(conditions, slot) - Effect(conditions[k], slot) + Effect(c, slot)
  {
    forall slot | Exists(slot)
      ensures AllWellFormed(conditions[k := c])
      ensures Total(conditions[k := c], slot) == Total(conditions, slot) - Effect(conditions[k], slot) + Effect(c, slot)
    {
      TotalReplaced(conditions, k, c, slot);
    }
  }

  lemma {:induction false} Appended(conditions: seq<Condition>, c: Condition)
    requires AllWellFormed(conditions) && Unique(conditions) && WellFormed(c) && !HasKey(conditions, KeyOf(c))
    ensures AllWellFormed(conditions + [c]) && Unique(conditions + [c])
    ensures forall slot | Exists(slot) :: Total(conditions + [c], slot) == Total(conditions, slot) + Effect(c, slot)
  {
    assert forall i | 0 <= i < |conditions| :: conditions[i] in conditions;
    forall slot | Exists(slot)
      ensures AllWellFormed(conditions + [c])
      ensures Total(conditions + [c], slot) == Total(conditions, slot) + Effect(c, slot)
    {
      TotalMore(conditions, c, slot);
    }
  }

  // The added condition itself is not driven out.
  lemma {:induction false} AfterAddKeeps(conditions: seq<Condition>, c: Condition, suppressed: set<Kind>, now: int,
                                         walkDelay: int)
    ensures c in AfterAdd(conditions + [c], suppressed, c.kind, now, walkDelay)
  {
    OthersConcat(conditions, [c], Haste, None);
    OthersConcat(conditions, [c], Paralyze, None);
    assert [c][1..] == [];
  }

  // Whether a condition takes the place of the one that is there.
  predicate Updates(prev: Condition, c: Condition, now: int) {
    && !(prev.ticks == -1 && c.ticks > 0)
    && (c.kind.Haste? || c.kind.Paralyze? || !(c.ticks >= 0 && prev.endTime > now + c.ticks))
  }
}
