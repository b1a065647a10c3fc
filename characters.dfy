/**
 * The two actors of the shop. In the source, `Seller` and `Player` derive
 * from the abstract `Character`, which owns the money balance and the list of
 * item instances. Here each role holds its own `Character` object.
 */
module Characters {
  import opened Items
  import opened Inventory

  /** A money balance and a list of item instances, both updated in place. */
  class Character {
    var money: int
    var items: seq<Item>

    constructor (money: int)
      ensures this.money == money && items == []
    {
      this.money := 0;
      items := [];
      new;
      TakeMoney(money);
    }

    /** Deposit: the balance rises by `amount`; the items are untouched. */
    method TakeMoney(amount: int)
      modifies this
      ensures money == old(money) + amount
      ensures items == old(items)
    {
      money := money + amount;
    }

    /** Exactly one item is appended at the end; the balance is untouched. */
    method TakeItem(item: Item)
      modifies this
      ensures items == old(items) + [item]
      ensures money == old(money)
    {
      items := items + [item];
    }

    /**
     * `List.Remove`: the first element equal to `item` is removed and the rest
     * keep their order; with no such element nothing changes.
     */
    method RemoveItem(item: Item)
      modifies this
      ensures items == Remove(old(items), item)
      ensures money == old(money)
    {
      var i := 0;
      while i < |items| && items[i] != item
        invariant 0 <= i <= |items|
        invariant forall j :: 0 <= j < i ==> items[j] != item
      {
        i := i + 1;
      }
      if i < |items| {
        items := RemoveAt(items, i);
      }
    }
  }

  /** The shopkeeper: seeded with stock, looks items up by name and hands them over. */
  class Seller {
    const character: Character

    /** The stock is `count` clones of each catalog item, in catalog order. */
    constructor (catalog: seq<Item>, count: int, money: int)
      ensures fresh(character)
      ensures character.money == money
      ensures character.items == Stock(catalog, count)
    {
      character := new Character(money);
      new;
      Initialize(catalog, count);
    }

    /** Appends `count` clones of every catalog item, catalog entry by catalog entry. */
    method Initialize(catalog: seq<Item>, count: int)
      modifies character
      ensures character.items == old(character.items) + Stock(catalog, count)
      ensures character.money == old(character.money)
    {
      var k := 0;
      while k < |catalog|
        invariant 0 <= k <= |catalog|
        invariant character.items == old(character.items) + Stock(catalog[..k], count)
        invariant character.money == old(character.money)
      {
        var item := catalog[k];
        var i := 0;
        while i < count
          invariant 0 <= i <= Copies(count)
          invariant character.items == old(character.items) + Stock(catalog[..k], count) + Repeat(item, i)
          invariant character.money == old(character.money)
        {
          character.TakeItem(item.Clone());
          i := i + 1;
        }
        assert catalog[..k + 1][..k] == catalog[..k];
        k := k + 1;
      }
      assert catalog[..k] == catalog;
    }

    /** The first-match linear scan over the stock. */
    method GetItem(name: string) returns (found: Option<Item>)
      ensures found == Lookup(character.items, name)
      ensures found.Some? <==> HasName(character.items, name)
      ensures found.Some? ==> found.value.name == name
    {
      var items := character.items;
      var i := 0;
      while i < |items|
        invariant 0 <= i <= |items|
        invariant forall j :: 0 <= j < i ==> items[j].name != name
      {
        if items[i].name == name {
          return Some(items[i]);
        }
        i := i + 1;
      }
      return None;
    }

    /** Whether the seller stocks some item called `name`. */
    method IsHaveItem(name: string) returns (has: bool)
      ensures has <==> HasName(character.items, name)
      ensures has <==> Count(character.items, name) > 0
    {
      var found := GetItem(name);
      has := found.Some?;
      CountPositive(character.items, name);
    }

    /** The price of the first stocked item called `name`; the source dereferences the lookup. */
    method GetItemPrice(name: string) returns (price: int)
      requires HasName(character.items, name)
      ensures price == character.items[FirstNamed(character.items, name).value].price
    {
      var found := GetItem(name);
      price := found.value.price;
    }

    /**
     * Hands over the first stocked item called `name`, removing it from the
     * stock at the index where it was found. When no item has that name the
     * source's `List.Remove(null)` changes nothing and null comes back.
     */
    method GiveItem(name: string) returns (given: Option<Item>)
      modifies character
      ensures given == Lookup(old(character.items), name)
      ensures given.Some? ==> character.items == RemoveAt(old(character.items), FirstNamed(old(character.items), name).value)
      ensures given.None? ==> character.items == old(character.items)
      ensures character.money == old(character.money)
    {
      given := GetItem(name);
      if given.Some? {
        RemoveFound(character.items, name);
        character.RemoveItem(given.value);
      }
    }
  }

  /** The customer: checks affordability and pays. */
  class Player {
    const character: Character

    constructor (money: int)
      ensures fresh(character)
      ensures character.money == money && character.items == []
    {
      character := new Character(money);
    }

    /** Affordability: the balance covers `price`. */
    predicate CanPay(price: int)
      reads character
    {
      character.money >= price
    }

    /** Withdraws `amount` without any check and returns it. */
    method GiveMoney(amount: int) returns (paid: int)
      modifies character
      ensures paid == amount
      ensures character.money == old(character.money) - amount
      ensures character.items == old(character.items)
    {
      character.money := character.money - amount;
      paid := amount;
    }
  }
}
