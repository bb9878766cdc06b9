/** The market: offers to buy, backed by money, and offers to sell, backed by goods. */
module Market {

  import opened MarketGoods

  const MAX_AMOUNT := 64000
  const MAX_PRICE := 999999999

  datatype Offer = Offer(id: nat, owner: nat, sale: bool, ware: nat, amount: nat, price: nat, created: nat)

  // The accounts by player number, the live offers, and all fees ever charged.
  datatype Books = Books(accounts: seq<Account>, offers: seq<Offer>, nextId: nat, nextUid: nat, fees: nat)

  function Fee(price: nat, amount: nat): nat {
    var fee := price * amount / 100;
    if fee < 20 then 20 else if fee > 1000 then 1000 else fee
  }

  // ---------------------------------------------------------------- sums

  function Sum<T>(f: T -> nat, s: seq<T>): nat {
    if s == [] then 0 else f(s[0]) + Sum(f, s[1..])
  }

  function BalanceOf(a: Account): nat {
    a.balance
  }

  function UnitsIn(ware: nat): Account -> nat {
    (a: Account) => Units(All(a), ware)
  }

  // Money that backs an offer to buy.
  function Deposit(o: Offer): nat {
    if o.sale then 0 else o.price * o.amount
  }

  // Goods that back an offer to sell.
  function Deposited(ware: nat): Offer -> nat {
    (o: Offer) => GoodsOf(o, ware)
  }

  function GoodsOf(o: Offer, ware: nat): nat {
    if o.sale && o.ware == ware then o.amount else 0
  }

  // All money: in the bank, in offers, and spent on fees.
  ghost function Coins(b: Books): nat {
    Sum(BalanceOf, b.accounts) + Sum(Deposit, b.offers) + b.fees
  }

  // All units of a ware: with players and in offers.
  ghost function Goods(b: Books, ware: nat): nat {
    Sum(UnitsIn(ware), b.accounts) + Sum(Deposited(ware), b.offers)
  }

  lemma {:induction false} SumUpdate<T>(f: T -> nat, s: seq<T>, k: nat, v: T)
    requires k < |s|
    ensures Sum(f, s[k := v]) + f(s[k]) == Sum(f, s) + f(v)
  {
    if k > 0 {
      assert s[k := v][1..] == s[1..][k - 1 := v];
      SumUpdate(f, s[1..], k - 1, v);
    } else {
      assert s[0 := v][1..] == s[1..];
    }
  }

  lemma {:induction false} SumConcat<T>(f: T -> nat, a: seq<T>, b: seq<T>)
    ensures Sum(f, a + b) == Sum(f, a) + Sum(f, b)
  {
    if a == [] {
      assert a + b == b;
    } else {
      assert (a + b)[1..] == a[1..] + b;
      SumConcat(f, a[1..], b);
    }
  }

  lemma {:induction false} SumSnoc<T>(f: T -> nat, s: seq<T>, v: T)
    ensures Sum(f, s + [v]) == Sum(f, s) + f(v)
  {
    SumConcat(f, s, [v]);
    assert [v][1..] == [];
  }

  function Dropped<T>(s: seq<T>, k: nat): seq<T>
    requires k < |s|
  {
    s[..k] + s[k + 1..]
  }

  lemma {:induction false} SumDropped<T>(f: T -> nat, s: seq<T>, k: nat)
    requires k < |s|
    ensures Sum(f, Dropped(s, k)) + f(s[k]) == Sum(f, s)
  {
    assert s == s[..k] + ([s[k]] + s[k + 1..]);
    SumConcat(f, s[..k], [s[k]] + s[k + 1..]);
    SumConcat(f, s[..k], s[k + 1..]);
    assert ([s[k]] + s[k + 1..])[1..] == s[k + 1..];
  }

  // ---------------------------------------------------------------- what is always so

  ghost predicate OfferOk(o: Offer, players: nat, nextId: nat) {
    o.owner < players && 1 <= o.amount <= MAX_AMOUNT && 1 <= o.price <= MAX_PRICE && o.id < nextId
  }

  ghost predicate BooksOk(b: Books, stackable: nat -> bool) {
    && (forall a | a in b.accounts :: AccountOk(a, stackable, b.nextUid))
    && OffersOk(b.offers, |b.accounts|, b.nextId)
  }

  // ---------------------------------------------------------------- what changes

  // An offer of `player`'s is added and paid for: the fee, and the goods or the whole price.
  ghost predicate Created(b: Books, c: Books, player: nat, o: Offer) {
    && player < |b.accounts| && o.owner == player && o.id == b.nextId
    && c.nextId == b.nextId + 1 && c.offers == b.offers + [o] && c.fees == b.fees + Fee(o.price, o.amount)
    && |c.accounts| == |b.accounts| && c.accounts == b.accounts[player := c.accounts[player]]
    && var before, after := b.accounts[player], c.accounts[player];
       && after.balance + Deposit(o) + Fee(o.price, o.amount) == before.balance
       && if o.sale then Gone(before, after.(balance := before.balance), o.ware, o.amount)
          else after == before.(balance := after.balance)
  }

  // An offer is taken out and what is left of what backs it goes back to its owner.
  ghost predicate Returned(b: Books, c: Books, k: nat) {
    && k < |b.offers| && b.offers[k].owner < |b.accounts|
    && c.nextId == b.nextId && c.offers == Dropped(b.offers, k) && c.fees == b.fees
    && |c.accounts| == |b.accounts|
    && var o := b.offers[k];
       && c.accounts == b.accounts[o.owner := c.accounts[o.owner]]
       && var before, after := b.accounts[o.owner], c.accounts[o.owner];
          if o.sale then Come(before, after, o.ware, o.amount)
          else after == before.(balance := before.balance + o.price * o.amount)
  }

  // Part of an offer, or all of it, changes hands at its price: `giver` has given goods for money, then `taker`
  // has got them; `between` are the accounts after the first half.
  ghost predicate Accepted(b: Books, c: Books, between: seq<Account>, player: nat, k: nat, amount: nat) {
    && k < |b.offers| && player < |b.accounts| == |between| == |c.accounts| && b.offers[k].owner < |b.accounts|
    && var o := b.offers[k];
       && amount <= o.amount
       && c.nextId == b.nextId && c.fees == b.fees
       && c.offers ==
         (if amount == o.amount then Dropped(b.offers, k) else b.offers[k := o.(amount := o.amount - amount)])
       && between == b.accounts[player := between[player]]
       && c.accounts == between[o.owner := c.accounts[o.owner]]
       && var total := o.price * amount;
          if o.sale then
            && b.accounts[player].balance >= total
            && Come(b.accounts[player].(balance := b.accounts[player].balance - total), between[player], o.ware, amount)
            && c.accounts[o.owner] == between[o.owner].(balance := between[o.owner].balance + total)
          else
            && Gone(b.accounts[player], between[player].(balance := b.accounts[player].balance), o.ware, amount)
            && between[player].balance == b.accounts[player].balance + total
            && Come(between[o.owner], c.accounts[o.owner], o.ware, amount)
  }

  // ---------------------------------------------------------------- nothing is made or lost

  // The balance does not matter to what is held.
  lemma {:induction false} BalanceApart(a: Account, balance: nat)
    ensures All(a.(balance := balance)) == All(a)
  {}

  lemma {:induction false} CreatedConserves(b: Books, c: Books, player: nat, o: Offer)
    requires Created(b, c, player, o)
    ensures Coins(c) == Coins(b) && forall w :: Goods(c, w) == Goods(b, w)
  {
    var before, after := b.accounts[player], c.accounts[player];
    SumUpdate(BalanceOf, b.accounts, player, after);
    SumSnoc(Deposit, b.offers, o);
    BalanceApart(after, before.balance);
    forall w ensures Goods(c, w) == Goods(b, w) {
      SumUpdate(UnitsIn(w), b.accounts, player, after);
      SumSnoc(Deposited(w), b.offers, o);
    }
  }

  lemma {:induction false} ReturnedConserves(b: Books, c: Books, k: nat)
    requires Returned(b, c, k)
    ensures Coins(c) == Coins(b) && forall w :: Goods(c, w) == Goods(b, w)
  {
    var o := b.offers[k];
    var before, after := b.accounts[o.owner], c.accounts[o.owner];
    SumUpdate(BalanceOf, b.accounts, o.owner, after);
    SumDropped(Deposit, b.offers, k);
    BalanceApart(before, after.balance);
    forall w ensures Goods(c, w) == Goods(b, w) {
      SumUpdate(UnitsIn(w), b.accounts, o.owner, after);
      SumDropped(Deposited(w), b.offers, k);
    }
  }

  // The owner of an offer may accept it too.
  lemma {:induction false} AcceptedConserves(b: Books, c: Books, between: seq<Account>, player: nat, k: nat,
                                             amount: nat)
    requires Accepted(b, c, between, player, k, amount)
    ensures Coins(c) == Coins(b) && forall w :: Goods(c, w) == Goods(b, w)
  {
    AcceptedCoins(b, c, between, player, k, amount);
    forall w ensures Goods(c, w) == Goods(b, w) {
      AcceptedGoods(b, c, between, player, k, amount, w);
    }
  }

  lemma {:induction false} AcceptedCoins(b: Books, c: Books, between: seq<Account>, player: nat, k: nat, amount: nat)
    requires Accepted(b, c, between, player, k, amount)
    ensures Coins(c) == Coins(b)
  {
    hide Sum, Dropped, Units, All;
    var o := b.offers[k];
    SumUpdate(BalanceOf, b.accounts, player, between[player]);
    SumUpdate(BalanceOf, between, o.owner, c.accounts[o.owner]);
    OffersLess(Deposit, b.offers, c.offers, k, amount);
    assert o.price * o.amount == o.price * (o.amount - amount) + o.price * amount;
  }

  lemma {:induction false} AcceptedGoods(b: Books, c: Books, between: seq<Account>, player: nat, k: nat, amount: nat,
                                         w: nat)
    requires Accepted(b, c, between, player, k, amount)
    ensures Goods(c, w) == Goods(b, w)
  {
    hide Come, Gone, Sum, UnitsIn, Dropped;
    var o := b.offers[k];
    AcceptedUnits(b, c, between, player, k, amount, w);
    DepositedLess(o, amount, w);
    assert Goods(b, w) == Sum(UnitsIn(w), b.accounts) + Sum(Deposited(w), b.offers);
    assert Goods(c, w) == Sum(UnitsIn(w), c.accounts) + Sum(Deposited(w), c.offers);
    assert between == b.accounts[player := between[player]] && c.accounts == between[o.owner := c.accounts[o.owner]];
    assert c.offers == if amount == o.amount then Dropped(b.offers, k)
      else b.offers[k := o.(amount := o.amount - amount)];
    hide *;
    SumUpdate(UnitsIn(w), b.accounts, player, between[player]);
    SumUpdate(UnitsIn(w), between, o.owner, c.accounts[o.owner]);
    OffersLess(Deposited(w), b.offers, c.offers, k, amount);
  }

  lemma {:induction false} DepositedLess(o: Offer, amount: nat, w: nat)
    requires amount <= o.amount
    ensures Deposited(w)(o) == Deposited(w)(o.(amount := o.amount - amount)) + if o.sale && o.ware == w then amount
      else 0
    ensures Deposited(w)(o.(amount := 0)) == 0
  {}

  lemma {:induction false} AcceptedUnits(b: Books, c: Books, between: seq<Account>, player: nat, k: nat, amount: nat,
                                         w: nat)
    requires Accepted(b, c, between, player, k, amount)
    ensures var o := b.offers[k];
      UnitsIn(w)(between[player]) + UnitsIn(w)(c.accounts[o.owner]) ==
      UnitsIn(w)(b.accounts[player]) + UnitsIn(w)(between[o.owner]) + if o.sale && w == o.ware then amount else 0
  {
    var o := b.offers[k];
    hide Units;
    BalanceApart(b.accounts[player], b.accounts[player].balance - if o.sale then o.price * amount else 0);
    BalanceApart(between[player], b.accounts[player].balance);
    BalanceApart(between[o.owner], c.accounts[o.owner].balance);
  }

  lemma {:induction false} OffersLess(f: Offer -> nat, s: seq<Offer>, t: seq<Offer>, k: nat, amount: nat)
    requires k < |s| && amount <= s[k].amount && f(s[k].(amount := 0)) == 0
    requires t == if amount == s[k].amount then Dropped(s, k) else s[k := s[k].(amount := s[k].amount - amount)]
    ensures Sum(f, t) + f(s[k]) == Sum(f, s) + f(s[k].(amount := s[k].amount - amount))
  {
    if amount == s[k].amount {
      SumDropped(f, s, k);
    } else {
      SumUpdate(f, s, k, s[k].(amount := s[k].amount - amount));
    }
  }

  // ---------------------------------------------------------------- what stays so

  lemma {:induction false} LaterName(a: Account, stackable: nat -> bool, next: nat, next': nat)
    requires AccountOk(a, stackable, next) && next <= next'
    ensures AccountOk(a, stackable, next')
  {
    hide All;
  }

  lemma {:induction false} BalanceOk(a: Account, balance: nat, stackable: nat -> bool, next: nat)
    requires AccountOk(a, stackable, next)
    ensures AccountOk(a.(balance := balance), stackable, next)
  {
    BalanceApart(a, balance);
  }

  lemma {:induction false} AccountsOk(accounts: seq<Account>, player: nat, after: Account, stackable: nat -> bool,
                                      next: nat, next': nat)
    requires player < |accounts| && next <= next' && AccountOk(after, stackable, next')
    requires forall a | a in accounts :: AccountOk(a, stackable, next)
    ensures forall a | a in accounts[player := after] :: AccountOk(a, stackable, next')
  {
    hide AccountOk;
    forall a | a in accounts[player := after] ensures AccountOk(a, stackable, next') {
      if a != after {
        assert a in accounts;
        LaterName(a, stackable, next, next');
      }
    }
  }

  ghost predicate OffersOk(offers: seq<Offer>, players: nat, nextId: nat) {
    && (forall o | o in offers :: OfferOk(o, players, nextId))
    && (forall i, j | 0 <= i < j < |offers| :: offers[i].id != offers[j].id)
  }

  lemma {:induction false} OffersMore(offers: seq<Offer>, o: Offer, players: nat, nextId: nat)
    requires OffersOk(offers, players, nextId) && OfferOk(o, players, nextId + 1) && o.id == nextId
    ensures OffersOk(offers + [o], players, nextId + 1)
  {
    assert forall i | 0 <= i < |offers| :: offers[i] in offers;
  }

  lemma {:induction false} OffersFewer(offers: seq<Offer>, k: nat, players: nat, nextId: nat)
    requires OffersOk(offers, players, nextId) && k < |offers|
    ensures OffersOk(Dropped(offers, k), players, nextId)
  {
    assert forall i | 0 <= i < |Dropped(offers, k)| :: Dropped(offers, k)[i] == offers[if i < k then i else i + 1];
  }

  lemma {:induction false} OffersSmaller(offers: seq<Offer>, k: nat, amount: nat, players: nat, nextId: nat)
    requires OffersOk(offers, players, nextId) && k < |offers| && 1 <= amount <= offers[k].amount
    ensures OffersOk(offers[k := offers[k].(amount := amount)], players, nextId)
  {
    assert offers[k] in offers;
  }

  // ---------------------------------------------------------------- the market

  class Market {
    const stackable: nat -> bool
    const duration: nat
    const maxOffers: nat
    var accounts: seq<Account>
    var offers: seq<Offer>
    var nextId: nat
    var nextUid: nat
    ghost var fees: nat

    constructor (stackable: nat -> bool, duration: nat, maxOffers: nat, accounts: seq<Account>, nextUid: nat)
      requires forall a | a in accounts :: AccountOk(a, stackable, nextUid)
      ensures Valid() && View() == Books(accounts, [], 0, nextUid, 0)
      ensures this.stackable == stackable && this.duration == duration && this.maxOffers == maxOffers
    {
      this.stackable, this.duration, this.maxOffers := stackable, duration, maxOffers;
      this.accounts, this.offers, this.nextId, this.nextUid, this.fees := accounts, [], 0, nextUid, 0;
    }

    ghost function View(): Books
      reads this
    {
      Books(accounts, offers, nextId, nextUid, fees)
    }

    ghost predicate Valid()
      reads this
    {
      BooksOk(View(), stackable)
    }

    method CountOffers(player: nat) returns (count: nat)
      ensures count == Sum(OwnedBy(player), offers)
    {
      count := 0;
      assert offers[..0] == [];
      for i := 0 to |offers|
        invariant count == Sum(OwnedBy(player), offers[..i])
      {
        assert offers[..i + 1] == offers[..i] + [offers[i]];
        SumSnoc(OwnedBy(player), offers[..i], offers[i]);
        if offers[i].owner == player {
          count := count + 1;
        }
      }
      assert offers[..|offers|] == offers;
    }

    // The first offer with a creation time and the low half of its number; the number of offers when there is none.
    method GetOfferByCounter(timestamp: nat, counter: nat) returns (k: nat)
      ensures FirstMatch(offers, timestamp - duration, counter, k)
    {
      k := 0;
      while k < |offers| && !Matches(offers[k], timestamp - duration, counter)
        invariant 0 <= k <= |offers|
        invariant forall j | 0 <= j < k :: !Matches(offers[j], timestamp - duration, counter)
      {
        k := k + 1;
      }
    }

    // `allowed` stands for the checks on player and ware, `hasDepot` for there being a depot chest.
    method PlayerCreateMarketOffer(player: nat, sale: bool, ware: nat, amount: nat, price: nat, now: nat, allowed: bool,
                                   hasDepot: bool)
      returns (created: bool)
      requires Valid() && player < |accounts|
      modifies this
      ensures Valid()
      ensures created == (
        && 1 <= amount <= MAX_AMOUNT && 1 <= price <= MAX_PRICE && allowed && (stackable(ware) || amount <= 2000)
        && (maxOffers != 0 ==> Sum(OwnedBy(player), old(offers)) < maxOffers)
        && if sale
           then && hasDepot && Fee(price, amount) <= old(accounts)[player].balance
                && amount <= Offerable(old(accounts)[player], ware)
           else price * amount + Fee(price, amount) <= old(accounts)[player].balance)
      ensures if !created then View() == old(View())
              else Created(old(View()), View(), player, Offer(old(nextId), player, sale, ware, amount, price, now))
    {
      hide AccountOk, Offerable, Units, All, Collected, Sum, OffersOk;
      if amount == 0 || amount > MAX_AMOUNT || price == 0 || price > MAX_PRICE || !allowed
         || (!stackable(ware) && amount > 2000)
      {
        return false;
      }
      var count := CountOffers(player);
      if maxOffers != 0 && count >= maxOffers {
        return false;
      }
      ghost var before := View();
      var fee := Fee(price, amount);
      var account := accounts[player];
      assert account in accounts;
      if sale {
        if fee > account.balance || !hasDepot {
          return false;
        }
        var itemList := GetMarketItemList(account, ware, amount, stackable, nextUid);
        if itemList == [] {
          return false;
        }
        account := TakeListed(account, ware, itemList, amount, stackable, nextUid);
        BalanceOk(account, account.balance - fee, stackable, nextUid);
        account := account.(balance := account.balance - fee);
      } else {
        var totalPrice := price * amount + fee;
        if totalPrice > account.balance {
          return false;
        }
        BalanceOk(account, account.balance - totalPrice, stackable, nextUid);
        account := account.(balance := account.balance - totalPrice);
      }
      AccountsOk(accounts, player, account, stackable, nextUid, nextUid);
      CreateOffer(player, account, Offer(nextId, player, sale, ware, amount, price, now));
      return true;
    }

    method CreateOffer(player: nat, account: Account, offer: Offer)
      requires Valid() && player < |accounts| && OfferOk(offer, |accounts|, nextId + 1) && offer.id == nextId
      requires forall a | a in accounts[player := account] :: AccountOk(a, stackable, nextUid)
      modifies this
      ensures Valid()
      ensures View() ==
        Books(old(accounts)[player := account], old(offers) + [offer], old(nextId) + 1, old(nextUid),
              old(fees) + Fee(offer.price, offer.amount))
    {
      hide AccountOk, OfferOk;
      OffersMore(offers, offer, |accounts|, nextId);
      accounts := accounts[player := account];
      offers := offers + [offer];
      nextId := nextId + 1;
      fees := fees + Fee(offer.price, offer.amount);
    }

    // Takes an offer out and gives its owner back what is left of it.
    method ReturnOffer(k: nat)
      requires Valid() && k < |offers|
      modifies this
      ensures Valid() && Returned(old(View()), View(), k)
    {
      hide AccountOk, All, Units, OffersOk, Come, Dropped;
      OfferInRange(offers, k, |accounts|, nextId);
      var offer := offers[k];
      var account := accounts[offer.owner];
      var next := nextUid;
      assert account in accounts;
      if offer.sale {
        account, next := Deliver(account, offer.ware, offer.amount, stackable, nextUid);
      } else {
        BalanceOk(account, account.balance + offer.price * offer.amount, stackable, nextUid);
        account := account.(balance := account.balance + offer.price * offer.amount);
      }
      AccountsOk(accounts, offer.owner, account, stackable, nextUid, next);
      OffersFewer(offers, k, |accounts|, nextId);
      accounts := accounts[offer.owner := account];
      nextUid := next;
      offers := Dropped(offers, k);
    }

    // Only the owner can cancel an offer.
    method PlayerCancelMarketOffer(player: nat, timestamp: nat, counter: nat, allowed: bool)
      returns (cancelled: bool, ghost k: nat)
      requires Valid()
      modifies this
      ensures Valid() && FirstMatch(old(offers), timestamp - duration, counter, k)
      ensures cancelled == (allowed && k < |old(offers)| && old(offers)[k].owner == player)
      ensures if cancelled then Returned(old(View()), View(), k) else View() == old(View())
    {
      var found := GetOfferByCounter(timestamp, counter);
      k := found;
      if !allowed || found == |offers| || offers[found].owner != player {
        return false, k;
      }
      ReturnOffer(found);
      cancelled := true;
    }

    // A player takes part of an offer or all of it: delivers what is asked for, or pays for what is sold.
    method PlayerAcceptMarketOffer(player: nat, timestamp: nat, counter: nat, amount: nat, allowed: bool,
                                   hasDepot: bool)
        returns (accepted: bool, ghost k: nat, ghost between: seq<Account>)
      requires Valid() && player < |accounts|
      modifies this
      ensures Valid() && FirstMatch(old(offers), timestamp - duration, counter, k)
      ensures accepted == (
        && allowed && 1 <= amount <= MAX_AMOUNT && k < |old(offers)| && amount <= old(offers)[k].amount
        && var o := old(offers)[k];
           if o.sale then o.price * amount <= old(accounts)[player].balance
           else hasDepot && amount <= Offerable(old(accounts)[player], o.ware))
      ensures if accepted then Accepted(old(View()), View(), between, player, k, amount) else View() == old(View())
    {
      hide AccountOk, Offerable, Units, All, Collected, OffersOk, Come, Dropped;
      between := accounts;
      var found := GetOfferByCounter(timestamp, counter);
      k := found;
      if amount == 0 || amount > MAX_AMOUNT || !allowed || found == |offers| || amount > offers[found].amount {
        return false, k, between;
      }
      OfferInRange(offers, found, |accounts|, nextId);
      var offer := offers[found];
      var totalPrice := offer.price * amount;
      var account := accounts[player];
      var next := nextUid;
      assert account in accounts;
      if offer.sale {
        if totalPrice > account.balance {
          return false, k, between;
        }
        BalanceOk(account, account.balance - totalPrice, stackable, nextUid);
        account, next :=
          Deliver(account.(balance := account.balance - totalPrice), offer.ware, amount, stackable, nextUid);
        AccountsOk(accounts, player, account, stackable, nextUid, next);
        between := accounts[player := account];
        var seller := accounts[player := account][offer.owner];
        assert seller in between;
        BalanceOk(seller, seller.balance + totalPrice, stackable, next);
        seller := seller.(balance := seller.balance + totalPrice);
        AccountsOk(between, offer.owner, seller, stackable, next, next);
        accounts := accounts[player := account][offer.owner := seller];
      } else {
        if !hasDepot {
          return false, k, between;
        }
        var itemList := GetMarketItemList(account, offer.ware, amount, stackable, nextUid);
        if itemList == [] {
          return false, k, between;
        }
        account := TakeListed(account, offer.ware, itemList, amount, stackable, nextUid);
        BalanceOk(account, account.balance + totalPrice, stackable, nextUid);
        ghost var taken := account;
        account := account.(balance := account.balance + totalPrice);
        assert account.(balance := taken.balance) == taken;
        AccountsOk(accounts, player, account, stackable, nextUid, nextUid);
        between := accounts[player := account];
        var buyer := accounts[player := account][offer.owner];
        assert buyer in between;
        buyer, next := Deliver(buyer, offer.ware, amount, stackable, nextUid);
        AccountsOk(between, offer.owner, buyer, stackable, nextUid, next);
        accounts := accounts[player := account][offer.owner := buyer];
      }
      nextUid := next;
      ReduceOffer(found, amount);
      accepted := true;
    }

    // Every offer made by `limit` goes back to its owner, and only those: each player has the money of the expired
    // offers to buy and the goods of the expired offers to sell.
    method ProcessExpiredOffers(limit: nat)
      requires Valid()
      modifies this
      ensures Valid() && offers == Live(old(offers), limit) && nextId == old(nextId) && fees == old(fees)
      ensures Repaid(old(View()), View(), old(offers), [], limit)
      ensures Coins(View()) == old(Coins(View())) && forall w :: Goods(View(), w) == old(Goods(View(), w))
    {
      hide AccountOk, OffersOk, Repaid, Returned, Coins, Goods;
      ghost var before := View();
      RepaidNothing(before, limit);
      var i := 0;
      while i < |offers|
        invariant Valid() && i <= |offers| && fees == before.fees && nextId == before.nextId
        invariant Live(offers, limit) == Live(before.offers, limit)
        invariant forall j | 0 <= j < i :: offers[j].created > limit
        invariant Repaid(before, View(), before.offers, offers, limit)
        invariant Coins(View()) == Coins(before) && forall w :: Goods(View(), w) == Goods(before, w)
        decreases |offers| - i
      {
        if offers[i].created <= limit {
          ghost var now := View();
          ReturnOffer(i);
          RepaidMore(before, now, View(), i, limit);
          ReturnedConserves(now, View(), i);
        } else {
          i := i + 1;
        }
      }
      RepaidAll(before, View(), limit);
    }

    method ReduceOffer(k: nat, amount: nat)
      requires k < |offers| && amount <= offers[k].amount && OffersOk(offers, |accounts|, nextId)
      modifies this`offers
      ensures OffersOk(offers, |accounts|, nextId)
      ensures offers == var o := old(offers)[k];
        if amount == o.amount then Dropped(old(offers), k) else old(offers)[k := o.(amount := o.amount - amount)]
    {
      var offer := offers[k].(amount := offers[k].amount - amount);
      OffersFewer(offers, k, |accounts|, nextId);
      if offer.amount == 0 {
        offers := Dropped(offers, k);
      } else {
        OffersSmaller(offers, k, offer.amount, |accounts|, nextId);
        offers := offers[k := offer];
      }
    }
  }

  lemma {:induction false} OfferInRange(offers: seq<Offer>, k: nat, players: nat, nextId: nat)
    requires OffersOk(offers, players, nextId) && k < |offers|
    ensures OfferOk(offers[k], players, nextId)
  {}

  function OwnedBy(player: nat): Offer -> nat {
    (o: Offer) => if o.owner == player then 1 else 0
  }

  ghost predicate FirstMatch(offers: seq<Offer>, created: int, counter: nat, k: nat) {
    && k <= |offers| && (k < |offers| ==> Matches(offers[k], created, counter))
    && forall j | 0 <= j < k :: !Matches(offers[j], created, counter)
  }

  predicate Matches(o: Offer, created: int, counter: nat) {
    o.created == created && o.id % 65536 == counter
  }
  // ---------------------------------------------------------------- expiry

  function Live(offers: seq<Offer>, limit: nat): seq<Offer> {
    if offers == [] then [] else (if offers[0].created > limit then [offers[0]] else []) + Live(offers[1..], limit)
  }

  // What a player gets back for an expired offer.
  function Refund(player: nat, limit: nat): Offer -> nat {
    (o: Offer) => if o.owner == player && o.created <= limit then Deposit(o) else 0
  }

  function GoodsBack(player: nat, ware: nat, limit: nat): Offer -> nat {
    (o: Offer) => if o.owner == player && o.created <= limit then GoodsOf(o, ware) else 0
  }

  // Every player has got what is expired among `from` and no longer among `to`.
  ghost predicate Repaid(b: Books, c: Books, from: seq<Offer>, to: seq<Offer>, limit: nat) {
    && |c.accounts| == |b.accounts|
    && (forall p | 0 <= p < |b.accounts| ::
      Sum(Refund(p, limit), from) + b.accounts[p].balance == Sum(Refund(p, limit), to) + c.accounts[p].balance)
    && (forall p, w | 0 <= p < |b.accounts| ::
          Sum(GoodsBack(p, w, limit), from) + UnitsIn(w)(b.accounts[p]) ==
            Sum(GoodsBack(p, w, limit), to) + UnitsIn(w)(c.accounts[p]))
  }

  lemma {:induction false} RepaidNothing(b: Books, limit: nat)
    ensures Repaid(b, b, b.offers, b.offers, limit)
  {}

  lemma {:induction false} LiveConcat(a: seq<Offer>, b: seq<Offer>, limit: nat)
    ensures Live(a + b, limit) == Live(a, limit) + Live(b, limit)
  {
    if a == [] {
      assert a + b == b;
    } else {
      assert (a + b)[1..] == a[1..] + b;
      LiveConcat(a[1..], b, limit);
    }
  }

  lemma {:induction false} LiveDropped(offers: seq<Offer>, k: nat, limit: nat)
    requires k < |offers| && offers[k].created <= limit
    ensures Live(Dropped(offers, k), limit) == Live(offers, limit)
  {
    assert offers == offers[..k] + ([offers[k]] + offers[k + 1..]);
    LiveConcat(offers[..k], [offers[k]] + offers[k + 1..], limit);
    LiveConcat(offers[..k], offers[k + 1..], limit);
    assert ([offers[k]] + offers[k + 1..])[1..] == offers[k + 1..];
  }

  lemma {:induction false} LiveAll(offers: seq<Offer>, limit: nat)
    requires forall o | o in offers :: o.created > limit
    ensures Live(offers, limit) == offers
  {
    if offers != [] {
      LiveAll(offers[1..], limit);
    }
  }

  lemma {:induction false} SumNothing<T>(f: T -> nat, s: seq<T>)
    requires forall x | x in s :: f(x) == 0
    ensures Sum(f, s) == 0
  {
    if s != [] {
      SumNothing(f, s[1..]);
    }
  }

  // What one returned offer gives to each player.
  lemma {:induction false} ReturnedTo(b: Books, c: Books, k: nat, p: nat, limit: nat)
    requires Returned(b, c, k) && p < |b.accounts| && b.offers[k].created <= limit
    ensures |c.accounts| == |b.accounts|
    ensures c.accounts[p].balance == b.accounts[p].balance + Refund(p, limit)(b.offers[k])
    ensures forall w :: UnitsIn(w)(c.accounts[p]) == UnitsIn(w)(b.accounts[p]) + GoodsBack(p, w, limit)(b.offers[k])
  {
    var o := b.offers[k];
    BalanceApart(b.accounts[o.owner], c.accounts[o.owner].balance);
    hide All, Units;
    assert p != o.owner ==> c.accounts[p] == b.accounts[p];
    forall w ensures UnitsIn(w)(c.accounts[p]) == UnitsIn(w)(b.accounts[p]) + GoodsBack(p, w, limit)(o) {
      assert p == o.owner && o.sale ==> Come(b.accounts[p], c.accounts[p], o.ware, o.amount);
    }
  }

  lemma {:induction false} RepaidMore(before: Books, b: Books, c: Books, k: nat, limit: nat)
    requires Repaid(before, b, before.offers, b.offers, limit) && Returned(b, c, k) && b.offers[k].created <= limit
    ensures Repaid(before, c, before.offers, c.offers, limit) && Live(c.offers, limit) == Live(b.offers, limit)
    ensures c.fees == b.fees && c.nextId == b.nextId && c.offers == Dropped(b.offers, k)
  {
    var o := b.offers[k];
    LiveDropped(b.offers, k, limit);
    assert |c.accounts| == |before.accounts|;
    forall p: nat | p < |before.accounts|
      ensures Sum(Refund(p, limit), before.offers) + before.accounts[p].balance ==
        Sum(Refund(p, limit), c.offers) + c.accounts[p].balance
    {
      ReturnedTo(b, c, k, p, limit);
      SumDropped(Refund(p, limit), b.offers, k);
    }
    forall p: nat, w: nat | p < |before.accounts|
      ensures Sum(GoodsBack(p, w, limit), before.offers) + UnitsIn(w)(before.accounts[p]) ==
        Sum(GoodsBack(p, w, limit), c.offers) + UnitsIn(w)(c.accounts[p])
    {
      ReturnedTo(b, c, k, p, limit);
      SumDropped(GoodsBack(p, w, limit), b.offers, k);
    }
  }

  lemma {:induction false} RepaidAll(before: Books, b: Books, limit: nat)
    requires Repaid(before, b, before.offers, b.offers, limit)
    requires forall j | 0 <= j < |b.offers| :: b.offers[j].created > limit
    ensures Repaid(before, b, before.offers, [], limit) && Live(b.offers, limit) == b.offers
  {
    LiveAll(b.offers, limit);
    forall p ensures Sum(Refund(p, limit), b.offers) == 0 == Sum(Refund(p, limit), []) {
      SumNothing(Refund(p, limit), b.offers);
    }
    forall p, w ensures Sum(GoodsBack(p, w, limit), b.offers) == 0 == Sum(GoodsBack(p, w, limit), []) {
      SumNothing(GoodsBack(p, w, limit), b.offers);
    }
  }

  // ---------------------------------------------------------------- runs

  datatype Step =
    | Create(player: nat, offer: Offer)
    | Return(k: nat)
    | Accept(between: seq<Account>, player: nat, k: nat, amount: nat)

  ghost predicate Next(b: Books, step: Step, c: Books) {
    match step
    case Create(player, offer) => Created(b, c, player, offer)
    case Return(k) => Returned(b, c, k)
    case Accept(between, player, k, amount) => Accepted(b, c, between, player, k, amount)
  }

  ghost predicate Run(books: seq<Books>, steps: seq<Step>) {
    |books| == |steps| + 1 && forall i | 0 <= i < |steps| :: Next(books[i], steps[i], books[i + 1])
  }

  // Over every run of creating, cancelling or expiring, and accepting, no coin and no unit of any ware is made or
  // lost.
  lemma {:induction false} RunConserves(books: seq<Books>, steps: seq<Step>, ware: nat)
    requires Run(books, steps)
    ensures Coins(books[|steps|]) == Coins(books[0]) && Goods(books[|steps|], ware) == Goods(books[0], ware)
  {
    if steps != [] {
      var n := |steps| - 1;
      var last := steps[n];
      RunConserves(books[..n + 1], steps[..n], ware);
      assert Next(books[n], last, books[n + 1]);
      match last
      case Create(player, offer) => CreatedConserves(books[n], books[n + 1], player, offer);
      case Return(k) => ReturnedConserves(books[n], books[n + 1], k);
      case Accept(between, player, k, amount) => AcceptedConserves(books[n], books[n + 1], between, player, k, amount);
    }
  }
}
