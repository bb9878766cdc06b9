/** The trade between two players: asking, answering with an offer of one's own, accepting, closing. */
module Trade {

  import opened Wrappers

  datatype TradeState = NONE | INITIATED | ACCEPT | ACKNOWLEDGE | TRANSFER

  // What a player knows of a trade.
  datatype Side = TradeSide(state: TradeState, partner: Player?, item: Option<nat>)

  class Player {
    var tradeState: TradeState
    var tradePartner: Player?
    var tradeItem: Option<nat>

    constructor ()
      ensures tradeState == NONE && tradePartner == null && tradeItem == None
    {
      tradeState, tradePartner, tradeItem := NONE, null, None;
    }

    function Side(): Side
      reads this
    {
      TradeSide(tradeState, tradePartner, tradeItem)
    }
  }

  // ---------------------------------------------------------------- nesting

  // Steps from an item outwards, each to the container it lies in.
  ghost predicate Outwards(parent: map<nat, nat>, path: seq<nat>) {
    forall k | 0 <= k < |path| - 1 :: path[k] in parent && parent[path[k]] == path[k + 1]
  }

  ghost predicate Leads(parent: map<nat, nat>, path: seq<nat>, inner: nat, outer: nat) {
    |path| >= 2 && path[0] == inner && path[|path| - 1] == outer && Outwards(parent, path)
  }

  // `inner` lies in `outer` at some depth.
  ghost predicate Holds(parent: map<nat, nat>, outer: nat, inner: nat) {
    exists path :: Leads(parent, path, inner, outer)
  }

  ghost predicate NotNested(parent: map<nat, nat>, items: set<nat>) {
    forall i, j | i in items && j in items && i != j :: !Holds(parent, i, j)
  }

  // Moving an item takes it and what it holds elsewhere, so items that it does not hold are nested afterwards
  // only if they were before.
  lemma {:induction false} MoveKeepsNesting(parent: map<nat, nat>, moved: nat, to: nat, outer: nat, inner: nat)
    requires inner != moved && !Holds(parent, moved, inner)
    requires Holds(parent[moved := to], outer, inner)
    ensures Holds(parent, outer, inner)
  {
    var path :| Leads(parent[moved := to], path, inner, outer);
    PathAvoids(parent, moved, to, path, |path| - 1);
    assert path[..|path| - 1] + [path[|path| - 1]] == path;
    assert forall k | 0 <= k < |path| - 1 :: path[k] in path[..|path| - 1];
    assert Leads(parent, path, inner, outer);
  }

  lemma {:induction false} PathAvoids(parent: map<nat, nat>, moved: nat, to: nat, path: seq<nat>, n: nat)
    requires |path| > 0 && Outwards(parent[moved := to], path) && n < |path|
    requires path[0] != moved && !Holds(parent, moved, path[0])
    ensures moved !in path[..n]
  {
    if n > 0 {
      PathAvoids(parent, moved, to, path, n - 1);
      assert forall k | 0 <= k < n - 1 :: path[k] in path[..n - 1];
      if path[n - 1] == moved {
        assert Leads(parent, path[..n], path[0], moved);
      }
      assert path[..n] == path[..n - 1] + [path[n - 1]];
    }
  }

  // Offered items stay apart when one of them is moved and is no longer offered.
  lemma {:induction false} MoveKeepsApart(parent: map<nat, nat>, items: set<nat>, moved: nat, to: nat)
    requires NotNested(parent, items) && moved in items
    ensures NotNested(parent[moved := to], items - {moved})
  {
    forall i, j | i in items - {moved} && j in items - {moved} && i != j ensures !Holds(parent[moved := to], i, j) {
      if Holds(parent[moved := to], i, j) {
        MoveKeepsNesting(parent, moved, to, i, j);
      }
    }
  }

  // ---------------------------------------------------------------- the state of all trades

  type Sides = map<Player, Side>

  const NO_TRADE := TradeSide(NONE, null, None)

  ghost predicate SideOk(sides: Sides, items: map<nat, Player>, p: Player)
    requires p in sides
  {
    var side := sides[p];
    && (side.partner == null <==> side.state == NONE)
    && side.state != TRANSFER
    && (side.state == INITIATED ==> side.item.Some?)
    && (side.state in {NONE, ACKNOWLEDGE} ==> side.item == None)
    && (side.item.Some? ==> side.item.value in items && items[side.item.value] == p)
  }

  // Partners have each other and only each other; never do both wait for the other's offer, and one has offered
  // something.
  ghost predicate PairOk(sides: Sides, p: Player)
    requires p in sides
  {
    sides[p].partner != null ==>
      var q := sides[p].partner;
      && q in sides && q != p && sides[q].partner == p
      && !(sides[p].state == ACKNOWLEDGE && sides[q].state == ACKNOWLEDGE)
      && (sides[p].item.Some? || sides[q].item.Some?)
  }

  // The table of offered items is the inverse of the players' offers.
  ghost predicate ItemsOk(sides: Sides, items: map<nat, Player>) {
    forall i | i in items :: items[i] in sides && sides[items[i]].item == Some(i)
  }

  ghost predicate Paired(sides: Sides, items: map<nat, Player>) {
    (forall p | p in sides :: SideOk(sides, items, p) && PairOk(sides, p)) && ItemsOk(sides, items)
  }

  // Both have accepted: the trade is to be carried out.
  predicate BothAccepted(sides: Sides, p: Player)
    requires p in sides
  {
    sides[p].partner != null && sides[p].state == ACCEPT && sides[p].partner in sides &&
      sides[sides[p].partner].state == ACCEPT
  }

  // Between two requests no trade is left that both have accepted.
  ghost predicate Settled(sides: Sides, items: map<nat, Player>) {
    Paired(sides, items) && forall p | p in sides :: !BothAccepted(sides, p)
  }

  predicate MayStart(sides: Sides, player: Player, partner: Player)
    requires player in sides && partner in sides
  {
    && (sides[player].state == NONE || (sides[player].state == ACKNOWLEDGE && sides[player].partner == partner))
    && (sides[partner].state == NONE || sides[partner].partner == player)
  }

  function Started(sides: Sides, player: Player, partner: Player, item: nat): Sides
    requires player in sides && partner in sides
  {
    sides[player := TradeSide(INITIATED, partner, Some(item))]
         [partner := TradeSide(if sides[partner].state == NONE then ACKNOWLEDGE
           else sides[partner].state, player, sides[partner].item)]
  }

  function Accepted(sides: Sides, player: Player): Sides
    requires player in sides
  {
    sides[player := sides[player].(state := ACCEPT)]
  }

  function Closed(sides: Sides, player: Player): Sides
    requires player in sides
  {
    var rest := sides[player := NO_TRADE];
    if sides[player].partner == null then rest else rest[sides[player].partner := NO_TRADE]
  }

  function Offered(item: Option<nat>): set<nat> {
    if item.Some? then {item.value} else {}
  }

  // What a player and the partner have offered.
  function Offers(sides: Sides, player: Player): set<nat>
    requires player in sides
  {
    Offered(sides[player].item) + if sides[player].partner in sides then Offered(sides[sides[player].partner].item)
      else {}
  }

  lemma {:induction false} StartedSettled(sides: Sides, items: map<nat, Player>, player: Player, partner: Player,
                                          item: nat)
    requires Settled(sides, items) && player in sides && partner in sides && player != partner && item !in items
    requires MayStart(sides, player, partner)
    ensures Settled(Started(sides, player, partner, item), items[item := player])
  {
    var sides', items' := Started(sides, player, partner, item), items[item := player];
    assert SideOk(sides, items, player) && PairOk(sides, player) && SideOk(sides, items, partner) &&
      PairOk(sides, partner);
    forall p | p in sides' ensures SideOk(sides', items', p) && PairOk(sides', p) && !BothAccepted(sides', p) {
      assert SideOk(sides, items, p) && PairOk(sides, p) && !BothAccepted(sides, p);
    }
  }

  lemma {:induction false} AcceptedPaired(sides: Sides, items: map<nat, Player>, player: Player)
    requires Settled(sides, items) && player in sides && sides[player].state in {ACKNOWLEDGE, INITIATED}
    ensures Paired(Accepted(sides, player), items)
    ensures sides[sides[player].partner].state != ACCEPT ==> Settled(Accepted(sides, player), items)
    ensures forall p | p in sides && p != player && p != sides[player].partner ::
      !BothAccepted(Accepted(sides, player), p)
  {
    var sides' := Accepted(sides, player);
    assert SideOk(sides, items, player) && PairOk(sides, player);
    forall p | p in sides'
      ensures SideOk(sides', items, p) && PairOk(sides', p)
      ensures p != player && p != sides[player].partner ==> !BothAccepted(sides', p)
      ensures sides[sides[player].partner].state != ACCEPT ==> !BothAccepted(sides', p)
    {
      assert SideOk(sides, items, p) && PairOk(sides, p) && !BothAccepted(sides, p);
    }
  }

  lemma {:induction false} ClosedSettled(sides: Sides, items: map<nat, Player>, player: Player)
    requires Paired(sides, items) && player in sides
    requires forall p | p in sides && p != player && p != sides[player].partner :: !BothAccepted(sides, p)
    ensures Settled(Closed(sides, player), items - Offers(sides, player))
    ensures sides[player].partner != null ==> sides[player].partner in sides
  {
    var sides', items' := Closed(sides, player), items - Offers(sides, player);
    assert SideOk(sides, items, player) && PairOk(sides, player);
    forall p | p in sides' ensures SideOk(sides', items', p) && PairOk(sides', p) && !BothAccepted(sides', p) {
      assert SideOk(sides, items, p) && PairOk(sides, p);
      if sides[p].partner != null {
        assert PairOk(sides, sides[p].partner);
      }
    }
  }

  // The table of offered items is exactly the map from what each player offers to that player.
  lemma {:induction false} TableIsInverse(sides: Sides, items: map<nat, Player>)
    requires Paired(sides, items)
    ensures forall i, p :: i in items && items[i] == p <==> p in sides && sides[p].item == Some(i)
  {
    forall i, p ensures i in items && items[i] == p <==> p in sides && sides[p].item == Some(i) {
      if p in sides {
        assert SideOk(sides, items, p);
      }
    }
  }

  // ---------------------------------------------------------------- the game

  // What happens when both have accepted: whether each offer would fit and could be taken, and where the moves
  // end (or that a move is refused).
  datatype Transfer = Transfer(fits1: bool, fits2: bool, loose1: bool, loose2: bool, move1: Option<nat>,
    move2: Option<nat>)

  // Where things lie after the transfer; the second move's refusal does not undo the first.
  function Transferred(parent: map<nat, nat>, item1: Option<nat>, item2: Option<nat>, t: Transfer): map<nat, nat> {
    if item1.Some? && item2.Some? && t.fits1 && t.fits2 && t.loose1 && t.loose2 && t.move1.Some? then
      var moved := parent[item1.value := t.move1.value];
      if t.move2.Some? then moved[item2.value := t.move2.value] else moved
    else parent
  }

  lemma {:induction false} TransferKeepsApart(parent: map<nat, nat>, items: set<nat>, item1: Option<nat>,
                                              item2: Option<nat>, t: Transfer)
    requires NotNested(parent, items) && item1 != item2
    requires (item1.Some? ==> item1.value in items) && (item2.Some? ==> item2.value in items)
    ensures NotNested(Transferred(parent, item1, item2, t),
              items - (if item1.Some? then {item1.value} else {}) - (if item2.Some? then {item2.value} else {}))
  {
    if Transferred(parent, item1, item2, t) != parent && item1.Some? && item2.Some? {
      var moved := parent[item1.value := t.move1.value];
      MoveKeepsApart(parent, items, item1.value, t.move1.value);
      if t.move2.Some? {
        MoveKeepsApart(moved, items - {item1.value}, item2.value, t.move2.value);
      }
    }
  }

  class Game {
    const players: set<Player>
    var tradeItems: map<nat, Player>
    var parent: map<nat, nat>

    constructor (players: set<Player>, parent: map<nat, nat>)
      requires forall p | p in players :: p.Side() == NO_TRADE
      ensures this.players == players && Valid()
    {
      this.players, this.tradeItems, this.parent := players, map[], parent;
    }

    ghost function AllSides(): Sides
      reads this, players
    {
      map p | p in players :: p.Side()
    }

    ghost predicate Valid()
      reads this, players
    {
      Settled(AllSides(), tradeItems)
    }

    method InternalStartTrade(player: Player, partner: Player, tradeItem: nat) returns (started: bool)
      requires Valid() && player in players && partner in players && player != partner && tradeItem !in tradeItems
      modifies this`tradeItems, player, partner
      ensures Valid() && started == MayStart(old(AllSides()), player, partner)
      ensures AllSides() == if started then Started(old(AllSides()), player, partner, tradeItem) else old(AllSides())
      ensures tradeItems == if started then old(tradeItems)[tradeItem := player] else old(tradeItems)
    {
      hide Settled;
      ghost var sides := AllSides();
      if player.tradeState != NONE && !(player.tradeState == ACKNOWLEDGE && player.tradePartner == partner) {
        return false;
      } else if partner.tradeState != NONE && partner.tradePartner != player {
        return false;
      }
      StartedSettled(sides, tradeItems, player, partner, tradeItem);
      PartnerIs(sides, tradeItems, player, partner);
      player.tradePartner := partner;
      player.tradeItem := Some(tradeItem);
      player.tradeState := INITIATED;
      tradeItems := tradeItems[tradeItem := player];
      if partner.tradeState == NONE {
        partner.tradeState := ACKNOWLEDGE;
        partner.tradePartner := player;
      }
      assert AllSides() == Started(sides, player, partner, tradeItem);
      return true;
    }

    // Asks another player to trade, or answers with an offer. `holds` is the search in containers, `allowed` the
    // checks on positions and on the item itself, `content` the number of items in it, `agreed` the script's say.
    method PlayerRequestTrade(player: Player, partner: Player, tradeItem: nat, allowed: bool, holds: (nat, nat) -> bool,
                              content: nat, agreed: bool)
        returns (started: bool)
      requires Valid() && player in players && partner in players
      requires forall i, j :: holds(i, j) == Holds(parent, i, j)
      modifies this`tradeItems, player, partner
      ensures Valid()
      ensures started ==
        (allowed && partner != player && content + 1 <= 100 && agreed && MayStart(old(AllSides()), player, partner) &&
        forall i | i in old(tradeItems) ::
          i != tradeItem && !Holds(parent, tradeItem, i) && !Holds(parent, i, tradeItem))
      ensures AllSides() == if started then Started(old(AllSides()), player, partner, tradeItem) else old(AllSides())
      ensures tradeItems == if started then old(tradeItems)[tradeItem := player] else old(tradeItems)
      ensures NotNested(parent, old(tradeItems).Keys) ==> NotNested(parent, tradeItems.Keys)
    {
      hide Holds, Settled;
      if partner == player || !allowed {
        return false;
      }
      var others := tradeItems.Keys;
      while others != {}
        invariant others <= tradeItems.Keys
        invariant forall i | i in tradeItems && i !in others ::
          i != tradeItem && !Holds(parent, tradeItem, i) && !Holds(parent, i, tradeItem)
        decreases |others|
      {
        var item :| item in others;
        if tradeItem == item || holds(tradeItem, item) || holds(item, tradeItem) {
          return false;
        }
        others := others - {item};
      }
      if content + 1 > 100 || !agreed {
        return false;
      }
      started := InternalStartTrade(player, partner, tradeItem);
    }

    // Gives up one side of a trade.
    method Withdraw(p: Player)
      modifies this`tradeItems, p
      ensures p.Side() == NO_TRADE && tradeItems == old(tradeItems) - Offered(old(p.tradeItem))
    {
      if p.tradeItem.Some? {
        tradeItems := tradeItems - {p.tradeItem.value};
        p.tradeItem := None;
      }
      p.tradeState := NONE;
      p.tradePartner := null;
    }

    // Ends a trade for both sides.
    method InternalCloseTrade(player: Player)
      requires Paired(AllSides(), tradeItems) && player in players
      requires forall p | p in players && p != player && p != player.tradePartner :: !BothAccepted(AllSides(), p)
      modifies this`tradeItems, players
      ensures Valid() && AllSides() == Closed(old(AllSides()), player)
      ensures tradeItems == old(tradeItems) - Offers(old(AllSides()), player)
    {
      hide Settled, Paired, BothAccepted;
      ghost var sides := AllSides();
      ClosedSettled(sides, tradeItems, player);
      NeverTransfer(sides, tradeItems);
      var partner := player.tradePartner;
      if (partner != null && partner.tradeState == TRANSFER) || player.tradeState == TRANSFER {
        return;
      }
      Withdraw(player);
      if partner != null {
        Withdraw(partner);
      }
      assert AllSides() == Closed(sides, player);
      assert tradeItems == old(tradeItems) - Offers(sides, player);
    }

    method PlayerCloseTrade(player: Player)
      requires Valid() && player in players
      modifies this`tradeItems, players
      ensures Valid() && AllSides() == Closed(old(AllSides()), player)
      ensures tradeItems == old(tradeItems) - Offers(old(AllSides()), player)
    {
      InternalCloseTrade(player);
    }

    // One player accepts; the second acceptance carries the trade out and ends it whatever comes of it. `agreed`
    // is the script's say.
    method PlayerAcceptTrade(player: Player, reachable: bool, agreed: bool, transfer: Transfer)
      requires Valid() && player in players
      modifies this`tradeItems, this`parent, players
      ensures Valid()
      ensures
        var sides := old(AllSides());
        if sides[player].state !in {ACKNOWLEDGE, INITIATED} || !reachable then
          AllSides() == sides && tradeItems == old(tradeItems) && parent == old(parent)
        else
          && sides[player].partner in sides
          && var partner := sides[player].partner;
          if sides[partner].state != ACCEPT then
            AllSides() == Accepted(sides, player) && tradeItems == old(tradeItems) && parent == old(parent)
          else
            && AllSides() == Closed(sides, player) && tradeItems == old(tradeItems) - Offers(sides, player)
            && parent == if agreed then Transferred(old(parent), sides[player].item, sides[partner].item, transfer)
              else old(parent)
      ensures NotNested(old(parent), old(tradeItems).Keys) ==> NotNested(parent, tradeItems.Keys)
    {
      hide Settled, Paired, BothAccepted, NotNested;
      ghost var sides, items, before := AllSides(), tradeItems, parent;
      if player.tradeState != ACKNOWLEDGE && player.tradeState != INITIATED {
        return;
      }
      AcceptedPaired(sides, tradeItems, player);
      PartnerThere(sides, tradeItems, player);
      var partner := player.tradePartner;
      if partner == null || !reachable {
        return;
      }
      player.tradeState := ACCEPT;
      assert AllSides() == Accepted(sides, player);
      if partner.tradeState == ACCEPT {
        SameOnceClosed(sides, player);
        CarryOut(player, partner, agreed, transfer);
      }
    }

    // The exchange of the two offers; none happens when a script objects, an offer is missing, or a check fails.
    method CarryOut(player: Player, partner: Player, agreed: bool, transfer: Transfer)
      requires Paired(AllSides(), tradeItems) && player in players && partner in players && player != partner
      requires player.tradePartner == partner
      requires forall p | p in players && p != player && p != player.tradePartner :: !BothAccepted(AllSides(), p)
      modifies this`tradeItems, this`parent, players
      ensures Valid() && AllSides() == Closed(old(AllSides()), player)
      ensures tradeItems == old(tradeItems) - Offers(old(AllSides()), player)
      ensures parent == if agreed
        then Transferred(old(parent), old(player.tradeItem), old(partner.tradeItem), transfer) else old(parent)
      ensures NotNested(old(parent), old(tradeItems).Keys) ==> NotNested(parent, tradeItems.Keys)
    {
      hide Settled, Paired, BothAccepted, NotNested, Transferred, Offered;
      ghost var sides, items, before := AllSides(), tradeItems, parent;
      ghost var offers := Offers(sides, player);
      ClosedSettled(sides, items, player);
      NotNestedLess(before, items.Keys, offers);
      assert (items - offers).Keys == items.Keys - offers;
      KeptApart(sides, items, player, before, transfer);
      if !agreed {
        InternalCloseTrade(player);
        return;
      }
      TransferItems(player, partner, transfer);
    }

    // Both sides are in transfer while the items move, then out of the trade.
    method TransferItems(player: Player, partner: Player, transfer: Transfer)
      requires player in players && partner in players && player != partner && player.tradePartner == partner
      modifies this`tradeItems, this`parent, player, partner
      ensures AllSides() == Closed(old(AllSides()), player)
      ensures tradeItems == old(tradeItems) - Offers(old(AllSides()), player)
      ensures parent == Transferred(old(parent), old(player.tradeItem), old(partner.tradeItem), transfer)
    {
      hide Transferred, Offered;
      ghost var sides := AllSides();
      var tradeItem1, tradeItem2 := player.tradeItem, partner.tradeItem;
      player.tradeState, partner.tradeState := TRANSFER, TRANSFER;
      ExchangeItems(tradeItem1, tradeItem2, transfer);
      player.tradeState, player.tradeItem, player.tradePartner := NONE, None, null;
      partner.tradeState, partner.tradeItem, partner.tradePartner := NONE, None, null;
      assert AllSides() == Closed(sides, player);
    }

    method ExchangeItems(tradeItem1: Option<nat>, tradeItem2: Option<nat>, transfer: Transfer)
      modifies this`tradeItems, this`parent
      ensures tradeItems == old(tradeItems) - (Offered(tradeItem1) + Offered(tradeItem2))
      ensures parent == Transferred(old(parent), tradeItem1, tradeItem2, transfer)
    {
      if tradeItem1.Some? {
        tradeItems := tradeItems - {tradeItem1.value};
      }
      if tradeItem2.Some? {
        tradeItems := tradeItems - {tradeItem2.value};
      }
      if tradeItem1.Some? && tradeItem2.Some? && transfer.fits1 && transfer.fits2 && transfer.loose1 &&
        transfer.loose2 {
        if transfer.move1.Some? {
          parent := parent[tradeItem1.value := transfer.move1.value];
          if transfer.move2.Some? {
            parent := parent[tradeItem2.value := transfer.move2.value];
          }
        }
      }
    }
  }

  lemma {:induction false} SameOnceClosed(sides: Sides, player: Player)
    requires player in sides && sides[player].partner in sides && sides[player].partner != player
    ensures Closed(Accepted(sides, player), player) == Closed(sides, player)
    ensures Offers(Accepted(sides, player), player) == Offers(sides, player)
  {}

  lemma {:induction false} PartnerIs(sides: Sides, items: map<nat, Player>, player: Player, partner: Player)
    requires Settled(sides, items) && player in sides && partner in sides && MayStart(sides, player, partner)
    ensures sides[partner].state == NONE ==> sides[partner].item == None
    ensures sides[partner].state != NONE ==> sides[partner].partner == player
  {
    assert SideOk(sides, items, partner);
  }

  lemma {:induction false} NeverTransfer(sides: Sides, items: map<nat, Player>)
    requires Paired(sides, items)
    ensures forall p | p in sides :: sides[p].state != TRANSFER
  {
    assert forall p | p in sides :: SideOk(sides, items, p);
  }

  lemma {:induction false} PartnerThere(sides: Sides, items: map<nat, Player>, player: Player)
    requires Settled(sides, items) && player in sides && sides[player].state != NONE
    ensures sides[player].partner in sides && sides[player].partner != player
  {
    assert SideOk(sides, items, player) && PairOk(sides, player);
  }

  lemma {:induction false} NotNestedLess(parent: map<nat, nat>, items: set<nat>, gone: set<nat>)
    ensures NotNested(parent, items) ==> NotNested(parent, items - gone)
  {}

  lemma {:induction false} KeptApart(sides: Sides, items: map<nat, Player>, player: Player, parent: map<nat, nat>,
                                     t: Transfer)
    requires Paired(sides, items) && player in sides && sides[player].partner in sides
    ensures NotNested(parent, items.Keys) ==>
      NotNested(Transferred(parent, sides[player].item, sides[sides[player].partner].item, t),
        (items - Offers(sides, player)).Keys)
  {
    var partner := sides[player].partner;
    assert SideOk(sides, items, player) && SideOk(sides, items, partner) && PairOk(sides, player);
    var item1, item2 := sides[player].item, sides[partner].item;
    assert (items - Offers(sides, player)).Keys ==
      items.Keys - (if item1.Some? then {item1.value} else {}) - (if item2.Some? then {item2.value} else {});
    if NotNested(parent, items.Keys) {
      TransferKeepsApart(parent, items.Keys, item1, item2, t);
    }
  }

  // ---------------------------------------------------------------- runs

  datatype World = World(sides: Sides, items: map<nat, Player>, parent: map<nat, nat>)

  datatype Step = Request(player: Player, partner: Player, item: nat) | Accept(player: Player, agreed: bool,
    transfer: Transfer) | Close(player: Player)

  // The requests that change something, as the methods above answer them.
  ghost predicate Next(w: World, step: Step, w': World) {
    && step.player in w.sides
    && match step
       case Request(player, partner, item) =>
         && partner in w.sides && partner != player && item !in w.items && MayStart(w.sides, player, partner)
         && (forall i | i in w.items :: !Holds(w.parent, item, i) && !Holds(w.parent, i, item))
         && w' == World(Started(w.sides, player, partner, item), w.items[item := player], w.parent)
       case Accept(player, agreed, transfer) =>
         && w.sides[player].state in {ACKNOWLEDGE, INITIATED} && w.sides[player].partner in w.sides
         && var partner := w.sides[player].partner;
            w' == if w.sides[partner].state != ACCEPT then World(Accepted(w.sides, player), w.items, w.parent)
                  else World(Closed(w.sides, player), w.items - Offers(w.sides, player),
                    if agreed then Transferred(w.parent, w.sides[player].item, w.sides[partner].item, transfer)
                      else w.parent)
       case Close(player) => w' == World(Closed(w.sides, player), w.items - Offers(w.sides, player), w.parent)
  }

  ghost predicate Run(worlds: seq<World>, steps: seq<Step>) {
    |worlds| == |steps| + 1 && forall k | 0 <= k < |steps| :: Next(worlds[k], steps[k], worlds[k + 1])
  }

  ghost predicate Safe(w: World) {
    Settled(w.sides, w.items) && NotNested(w.parent, w.items.Keys)
  }

  lemma {:induction false} StepSafe(w: World, step: Step, w': World)
    requires Safe(w) && Next(w, step, w')
    ensures Safe(w')
  {
    hide Settled, Holds;
    match step
    case Request(player, partner, item) =>
      StartedSettled(w.sides, w.items, player, partner, item);
    case Close(player) =>
      SettledIsPaired(w.sides, w.items);
      ClosedSettled(w.sides, w.items, player);
      assert w'.items.Keys == w.items.Keys - Offers(w.sides, player);
    case Accept(player, agreed, transfer) =>
      SettledIsPaired(w.sides, w.items);
      AcceptedPaired(w.sides, w.items, player);
      PartnerThere(w.sides, w.items, player);
      if w.sides[w.sides[player].partner].state == ACCEPT {
        ClosedSettled(w.sides, w.items, player);
        assert w'.items.Keys == w.items.Keys - Offers(w.sides, player);
        KeptApart(w.sides, w.items, player, w.parent, transfer);
      }
  }

  lemma {:induction false} SettledIsPaired(sides: Sides, items: map<nat, Player>)
    requires Settled(sides, items)
    ensures Paired(sides, items) && forall p | p in sides :: !BothAccepted(sides, p)
  {}

  // In every run, from before any trade: partnership stays mutual, the table stays the inverse of the offers, and
  // no offered item ever lies in another.
  lemma {:induction false} RunSafe(worlds: seq<World>, steps: seq<Step>)
    requires Run(worlds, steps) && worlds[0].items == map[]
    requires forall p | p in worlds[0].sides :: worlds[0].sides[p] == NO_TRADE
    ensures forall w | w in worlds :: Safe(w)
  {
    if steps == [] {
      assert worlds == [worlds[0]];
    } else {
      var n := |steps| - 1;
      assert worlds == worlds[..n + 1] + [worlds[n + 1]];
      assert worlds[..n + 1][n] == worlds[n] && worlds[n] in worlds[..n + 1];
      hide Next, Safe;
      forall k | 0 <= k < n ensures Next(worlds[..n + 1][k], steps[..n][k], worlds[..n + 1][k + 1]) {
        assert Next(worlds[k], steps[k], worlds[k + 1]);
      }
      RunSafe(worlds[..n + 1], steps[..n]);
      StepSafe(worlds[n], steps[n], worlds[n + 1]);
    }
  }

  // ---------------------------------------------------------------- what has been accepted

  ghost predicate FromStart(worlds: seq<World>, steps: seq<Step>) {
    && Run(worlds, steps) && worlds[0].items == map[]
    && forall p | p in worlds[0].sides :: worlds[0].sides[p] == NO_TRADE
  }

  // A player makes an offer at one of the steps from k on and before n.
  predicate Answers(steps: seq<Step>, p: Player, k: nat, n: nat)
    requires k <= n <= |steps|
  {
    exists j | k <= j < n :: steps[j].Request? && steps[j].player == p
  }

  // One step of other players, or of the partner, while `q` waits as one that has accepted.
  lemma {:induction false} StaysAccepted(w: World, step: Step, w': World, q: Player, p: Player)
    requires Safe(w) && Next(w, step, w') && q in w.sides && w.sides[q].state == ACCEPT && w.sides[q].partner == p
    requires q in w'.sides && w'.sides[q].state == ACCEPT
    ensures w'.sides[q] == w.sides[q] && p in w.sides && p in w'.sides
    ensures step.Request? && step.player == p ==> w.sides[p].item == None && w'.sides[p].item.Some?
    ensures !(step.Request? && step.player == p) ==> w'.sides[p].item == w.sides[p].item
  {
    hide Holds, NotNested, Transferred;
    assert SideOk(w.sides, w.items, q) && PairOk(w.sides, q) && SideOk(w.sides, w.items, p) && PairOk(w.sides, p);
    assert SideOk(w.sides, w.items, step.player) && PairOk(w.sides, step.player);
  }

  // The step that makes a player one that has accepted.
  lemma {:induction false} BecomesAccepted(w: World, step: Step, w': World, q: Player)
    requires Safe(w) && Next(w, step, w') && q in w'.sides && w'.sides[q].state == ACCEPT
    requires q in w.sides && w.sides[q].state != ACCEPT
    ensures step.Accept? && step.player == q && w'.sides[q] == w.sides[q].(state := ACCEPT)
    ensures var p := w.sides[q].partner;
      && p in w.sides && p in w'.sides && w'.sides[p] == w.sides[p]
      && (w.sides[p].item == None <==> w.sides[p].state == ACKNOWLEDGE)
  {
    hide Holds, NotNested, Transferred;
    assert SideOk(w.sides, w.items, q) && PairOk(w.sides, q);
    assert SideOk(w.sides, w.items, step.player) && PairOk(w.sides, step.player);
    if w.sides[q].partner in w.sides {
      assert SideOk(w.sides, w.items, w.sides[q].partner) && PairOk(w.sides, w.sides[q].partner);
    }
  }

  lemma {:induction false} SamePlayers(w: World, step: Step, w': World)
    requires Safe(w) && Next(w, step, w')
    ensures w'.sides.Keys == w.sides.Keys
  {
    hide Holds, NotNested, Transferred;
    assert SideOk(w.sides, w.items, step.player) && PairOk(w.sides, step.player);
  }

  lemma {:induction false} SafeAt(worlds: seq<World>, steps: seq<Step>, n: nat)
    requires FromStart(worlds, steps) && n < |worlds|
    ensures Safe(worlds[n]) && (n < |steps| ==> Next(worlds[n], steps[n], worlds[n + 1]))
  {
    hide Next, Safe;
    RunSafe(worlds, steps);
    assert worlds[n] in worlds;
  }

  // In every run, when a player has accepted there is one step at which that was done. Up to now nothing has changed
  // for the player since; what the partner has on the table has changed exactly if the partner made an offer since,
  // and then there was nothing on it before.
  lemma {:induction false} AcceptedAt(worlds: seq<World>, steps: seq<Step>, n: nat, q: Player, p: Player)
    returns (k: nat)
    requires FromStart(worlds, steps) && n <= |steps|
    requires q in worlds[n].sides && worlds[n].sides[q].state == ACCEPT && worlds[n].sides[q].partner == p
    ensures k < n && steps[k].Accept? && steps[k].player == q
    ensures forall j | k <= j <= n :: q in worlds[j].sides && p in worlds[j].sides
    ensures forall j | k < j <= n :: worlds[j].sides[q] == worlds[n].sides[q]
    ensures worlds[n].sides[q] == worlds[k].sides[q].(state := ACCEPT) && worlds[k].sides[q].state != ACCEPT
    ensures worlds[k].sides[p].item == None <==> worlds[k].sides[p].state == ACKNOWLEDGE
    ensures if Answers(steps, p, k, n) then worlds[k].sides[p].item == None && worlds[n].sides[p].item.Some?
            else worlds[n].sides[p].item == worlds[k].sides[p].item
  {
    hide Next, Safe;
    if n == 0 {
      assert false;
    }
    SafeAt(worlds, steps, n - 1);
    var w, step, w' := worlds[n - 1], steps[n - 1], worlds[n];
    SamePlayers(w, step, w');
    if w.sides[q].state != ACCEPT {
      k := n - 1;
      BecomesAccepted(w, step, w', q);
    } else {
      AcceptedBefore(w, step, w', q, p);
      k := AcceptedAt(worlds, steps, n - 1, q, p);
      StaysAccepted(w, step, w', q, p);
    }
  }

  lemma {:induction false} AcceptedBefore(w: World, step: Step, w': World, q: Player, p: Player)
    requires Safe(w) && Next(w, step, w') && q in w.sides && w.sides[q].state == ACCEPT
    requires q in w'.sides && w'.sides[q].state == ACCEPT && w'.sides[q].partner == p
    ensures w.sides[q].partner == p
  {
    assert SideOk(w.sides, w.items, q) && PairOk(w.sides, q);
    StaysAccepted(w, step, w', q, w.sides[q].partner);
  }

  // When a second acceptance carries a trade out, what the first one to accept gets was on the table at that
  // acceptance if and only if the other was not still to make an offer then, so if and only if none was made since.
  lemma {:induction false} SeenIff(worlds: seq<World>, steps: seq<Step>, n: nat, p: Player, q: Player) returns (k: nat)
    requires FromStart(worlds, steps) && n < |steps| && steps[n].Accept? && steps[n].player == p
    requires q in worlds[n].sides && worlds[n].sides[q].state == ACCEPT && worlds[n].sides[q].partner == p
    requires p in worlds[n].sides && worlds[n].sides[p].item.Some?
    ensures k < n && steps[k].Accept? && steps[k].player == q && p in worlds[k].sides
    ensures forall j | k < j <= n :: q in worlds[j].sides && worlds[j].sides[q] == worlds[n].sides[q]
    ensures worlds[k].sides[p].item == worlds[n].sides[p].item <==> worlds[k].sides[p].state != ACKNOWLEDGE
    ensures worlds[k].sides[p].item == worlds[n].sides[p].item <==> !Answers(steps, p, k, n)
  {
    k := AcceptedAt(worlds, steps, n, q, p);
  }

  // It can happen: a player who accepts before there is an answer gets whatever is offered then.
  lemma {:induction false} SwappedUnseen(a: Player, b: Player) returns (worlds: seq<World>, steps: seq<Step>)
    requires a != b
    ensures FromStart(worlds, steps) && |steps| == 4
    ensures steps[1].Accept? && steps[1].player == a && steps[2] == Request(b, a, 2) && steps[3].Accept?
    ensures b in worlds[1].sides && worlds[1].sides[b].item == None
    ensures worlds[0].parent == map[1 := 10, 2 := 20] && worlds[4].parent == map[1 := 20, 2 := 10]
  {
    var parent := map[1 := 10, 2 := 20];
    var swap := Transfer(true, true, true, true, Some(10), Some(20));
    var s0: Sides := map[a := NO_TRADE, b := NO_TRADE];
    var s1 := Started(s0, a, b, 1);
    var s2 := Accepted(s1, a);
    var s3 := Started(s2, b, a, 2);
    var s4 := Closed(s3, b);
    steps := [Request(a, b, 1), Accept(a, true, swap), Request(b, a, 2), Accept(b, true, swap)];
    worlds := [World(s0, map[], parent), World(s1, map[1 := a], parent), World(s2, map[1 := a], parent),
               World(s3, map[1 := a, 2 := b], parent), World(s4, map[], map[1 := 20, 2 := 10])];
    ApartHere(parent);
    assert Next(worlds[0], steps[0], worlds[1]);
    assert Next(worlds[1], steps[1], worlds[2]);
    assert Next(worlds[2], steps[2], worlds[3]);
    assert Next(worlds[3], steps[3], worlds[4]);
  }

  lemma {:induction false} ApartHere(parent: map<nat, nat>)
    requires parent == map[1 := 10, 2 := 20]
    ensures !Holds(parent, 1, 2) && !Holds(parent, 2, 1)
  {
    forall path: seq<nat>, i, j | Leads(parent, path, i, j) && i in {1, 2} ensures j in {10, 20} {
      assert path[0] in parent && parent[path[0]] == path[1];
      assert path[1] !in parent;
    }
  }
}
