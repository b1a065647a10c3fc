/**
 * One purchase attempt: the seller's stock is searched for the named item,
 * the customer's balance is checked against its price, and only then are
 * money and item moved. `Buy` states the attempt on values; `Shop` performs
 * it on the two characters' objects and is proved to agree with `Buy`.
 */
module Trade {
  import opened Items
  import opened Inventory
  import opened Characters

  /** The three results of the buy menu. */
  datatype Outcome = NotInStock | InsufficientCoins | Purchased

  /** Both balances and both item lists at one moment. */
  datatype Market = Market(sellerMoney: int, sellerItems: seq<Item>, playerMoney: int, playerItems: seq<Item>)

  /** The state after an attempt together with its outcome. */
  datatype Attempt = Attempt(outcome: Outcome, after: Market)

  /** The buy decision: existence first, then affordability, then commit. */
  function Buy(m: Market, name: string): (r: Attempt)
    ensures r.outcome == NotInStock <==> !HasName(m.sellerItems, name)
    ensures r.outcome != Purchased ==> r.after == m
    ensures Total(r.after) == Total(m)
  {
    match FirstNamed(m.sellerItems, name)
    case None => Attempt(NotInStock, m)
    case Some(i) =>
      var item := m.sellerItems[i];
      if m.playerMoney >= item.price then
        Attempt(Purchased, Market(m.sellerMoney + item.price, RemoveAt(m.sellerItems, i),
                                  m.playerMoney - item.price, m.playerItems + [item]))
      else
        Attempt(InsufficientCoins, m)
  }

  /** A session of buy requests, one after another; the outcomes in request order. */
  function Run(m: Market, names: seq<string>): (r: (seq<Outcome>, Market))
    ensures |r.0| == |names|
    decreases names
  {
    if names == [] then ([], m)
    else
      var first := Buy(m, names[0]);
      var rest := Run(first.after, names[1..]);
      ([first.outcome] + rest.0, rest.1)
  }

  /** The sum of the two balances. */
  function Total(m: Market): int {
    m.sellerMoney + m.playerMoney
  }

  /** How many requests of `names` are for `name`. */
  function Occurrences(names: seq<string>, name: string): nat
  {
    if names == [] then 0
    else (if names[0] == name then 1 else 0) + Occurrences(names[1..], name)
  }

  // ---------------------------------------------------------------------------
  // Lemmas about one attempt
  // ---------------------------------------------------------------------------

  /** The outcome is classified exactly by existence and then affordability. */
  lemma BuyOutcome(m: Market, name: string)
    ensures Buy(m, name).outcome == NotInStock <==> !HasName(m.sellerItems, name)
    ensures Buy(m, name).outcome == InsufficientCoins <==>
      HasName(m.sellerItems, name) && m.playerMoney < Lookup(m.sellerItems, name).value.price
    ensures Buy(m, name).outcome == Purchased <==>
      HasName(m.sellerItems, name) && m.playerMoney >= Lookup(m.sellerItems, name).value.price
  {
  }

  /** A failed attempt changes nothing at all. */
  lemma BuyFailureChangesNothing(m: Market, name: string)
    requires Buy(m, name).outcome != Purchased
    ensures Buy(m, name).after == m
  {
  }

  /** What a successful attempt does to each of the four parts of the state. */
  lemma BuySuccess(m: Market, name: string)
    requires Buy(m, name).outcome == Purchased
    ensures var item := Lookup(m.sellerItems, name).value;
      var r := Buy(m, name).after;
      && r.sellerMoney == m.sellerMoney + item.price
      && r.playerMoney == m.playerMoney - item.price
      && r.sellerItems == RemoveAt(m.sellerItems, FirstNamed(m.sellerItems, name).value)
      && r.playerItems == m.playerItems + [item]
      && item.name == name
  {
  }

  /** No money is created or destroyed, whatever the outcome. */
  lemma BuyConservesMoney(m: Market, name: string)
    ensures Total(Buy(m, name).after) == Total(m)
  {
  }

  /** A customer who starts solvent stays solvent. */
  lemma BuyKeepsPlayerSolvent(m: Market, name: string)
    requires m.playerMoney >= 0
    ensures Buy(m, name).after.playerMoney >= 0
  {
  }

  /** No item is created or destroyed: the items only change hands. */
  lemma BuyConservesItems(m: Market, name: string)
    ensures var r := Buy(m, name).after;
      multiset(r.sellerItems) + multiset(r.playerItems) == multiset(m.sellerItems) + multiset(m.playerItems)
  {
    match FirstNamed(m.sellerItems, name)
    case None =>
    case Some(i) =>
      RemoveAtMultiset(m.sellerItems, i);
  }

  /** A purchase moves exactly one unit of the requested name and no other, from seller to customer. */
  lemma BuyCounts(m: Market, name: string, other: string)
    ensures var r := Buy(m, name);
      var d := if r.outcome == Purchased && other == name then 1 else 0;
      && Count(r.after.sellerItems, other) == Count(m.sellerItems, other) - d
      && Count(r.after.playerItems, other) == Count(m.playerItems, other) + d
  {
    match FirstNamed(m.sellerItems, name)
    case None =>
    case Some(i) =>
      var item := m.sellerItems[i];
      CountRemoveAt(m.sellerItems, i, other);
      CountAppend(m.playerItems, item, other);
  }

  /** Selling the last unit of a name makes the seller stop stocking it. */
  lemma LastUnitSold(m: Market, name: string)
    requires Count(m.sellerItems, name) == 1
    requires Buy(m, name).outcome == Purchased
    ensures !HasName(Buy(m, name).after.sellerItems, name)
  {
    BuyCounts(m, name, name);
    CountPositive(Buy(m, name).after.sellerItems, name);
  }

  // ---------------------------------------------------------------------------
  // Lemmas about a session of attempts
  // ---------------------------------------------------------------------------

  /** Money is conserved over any session. */
  lemma {:induction false} RunConservesMoney(m: Market, names: seq<string>)
    ensures Total(Run(m, names).1) == Total(m)
    decreases names
  {
    if names != [] {
      BuyConservesMoney(m, names[0]);
      RunConservesMoney(Buy(m, names[0]).after, names[1..]);
    }
  }

  /**
   * In a session where every request succeeds, each request of a name takes
   * one unit of it from the seller and gives one unit of it to the customer;
   * requests are not batched.
   */
  lemma {:induction false} RunOfPurchases(m: Market, names: seq<string>, name: string)
    requires forall k :: 0 <= k < |names| ==> Run(m, names).0[k] == Purchased
    ensures Count(Run(m, names).1.sellerItems, name) == Count(m.sellerItems, name) - Occurrences(names, name)
    ensures Count(Run(m, names).1.playerItems, name) == Count(m.playerItems, name) + Occurrences(names, name)
    decreases names
  {
    if names != [] {
      var first := Buy(m, names[0]);
      assert Run(m, names).0[0] == first.outcome;
      forall k | 0 <= k < |names| - 1
        ensures Run(first.after, names[1..]).0[k] == Purchased
      {
        assert Run(m, names).0[k + 1] == Run(first.after, names[1..]).0[k];
      }
      BuyCounts(m, names[0], name);
      RunOfPurchases(first.after, names[1..], name);
    }
  }

  /**
   * A seller seeded with seven swords at 200 and a customer with 1000 coins:
   * one purchase leaves six swords, 700 coins with the seller and 800 with the
   * customer, who now owns one sword.
   */
  lemma SwordPurchase()
    ensures var sword := Item("Sword", 200);
      var r := Buy(Market(500, Stock([sword], 7), 1000, []), "Sword");
      && r.outcome == Purchased
      && Count(r.after.sellerItems, "Sword") == 6
      && r.after.sellerMoney == 700
      && r.after.playerMoney == 800
      && r.after.playerItems == [sword]
  {
    var sword := Item("Sword", 200);
    var m := Market(500, Stock([sword], 7), 1000, []);
    StockAt([sword], 7, 0, 0);
    assert FirstNamed(m.sellerItems, "Sword") == Some(0);
    CountStock([sword], 7, "Sword");
    assert Count([sword], "Sword") == 1;
    BuyCounts(m, "Sword", "Sword");
  }

  // ---------------------------------------------------------------------------
  // The shop, acting on the two characters' objects
  // ---------------------------------------------------------------------------

  /** The shop front of one seller. */
  class Shop {
    const seller: Seller

    constructor (seller: Seller)
      ensures this.seller == seller
    {
      this.seller := seller;
    }

    /** The current balances and item lists of the seller and `customer`. */
    ghost function View(customer: Player): Market
      reads seller.character, customer.character
    {
      Market(seller.character.money, seller.character.items, customer.character.money, customer.character.items)
    }

    /**
     * Settles a purchase of an item the seller is known to stock: the price of
     * the first item with that name is checked against the customer's balance;
     * if it is covered, the money moves to the seller and that item moves to
     * the end of the customer's list, otherwise nothing changes.
     */
    method TryDeal(customer: Player, name: string) returns (ok: bool)
      requires HasName(seller.character.items, name)
      requires customer.character != seller.character
      modifies seller.character, customer.character
      ensures var i := FirstNamed(old(seller.character.items), name).value;
        var item := old(seller.character.items)[i];
        && ok == (old(customer.character.money) >= item.price)
        && (ok ==>
              && seller.character.money == old(seller.character.money) + item.price
              && customer.character.money == old(customer.character.money) - item.price
              && seller.character.items == RemoveAt(old(seller.character.items), i)
              && customer.character.items == old(customer.character.items) + [item])
        && (!ok ==> View(customer) == old(View(customer)))
      ensures ok == (Buy(old(View(customer)), name).outcome == Purchased)
      ensures View(customer) == Buy(old(View(customer)), name).after
    {
      var price := seller.GetItemPrice(name);
      ok := customer.CanPay(price);
      if ok {
        var paid := customer.GiveMoney(price);
        seller.character.TakeMoney(paid);
        var given := seller.GiveItem(name);
        customer.character.TakeItem(given.value);
      }
    }

    /**
     * The decision of the buy menu for the name the customer typed: not in
     * stock, not enough coins, or a completed purchase, with the state
     * changed exactly as `Buy` says.
     */
    method OpenBuyMenu(customer: Player, name: string) returns (outcome: Outcome)
      requires customer.character != seller.character
      modifies seller.character, customer.character
      ensures outcome == Buy(old(View(customer)), name).outcome
      ensures View(customer) == Buy(old(View(customer)), name).after
    {
      var has := seller.IsHaveItem(name);
      if has {
        var ok := TryDeal(customer, name);
        outcome := if ok then Purchased else InsufficientCoins;
      } else {
        outcome := NotInStock;
      }
    }
  }
}
