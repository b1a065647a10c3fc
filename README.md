# Shop: a verified model of the buy-transaction engine

This project models the trading core of a small console shop (`Shop/Program.cs`).
A **Seller** is seeded with `count` clones of each catalog **Item**. A **Player**
has a coin balance. Through the buy menu the player names an item. The shop
finds the first stocked item with that name and checks whether the player can
pay its price. Only then does it move the coins to the seller and that item to
the end of the player's list. The menu reports one of three outcomes: not in
stock, not enough coins, or success.

Layout:

- `items.dfy` (module `Items`): `Item` is an immutable name and price. `Clone`
  returns an equal value. `Option` stands in for a null result.
- `inventory.dfy` (module `Inventory`): pure functions over a list of item
  instances, kept in list order. They give the first item with a name
  (`FirstNamed`, `Lookup`), the first element equal to an item (`IndexOf`),
  `List.Remove` (`Remove`, `RemoveAt`), the per-name stock (`Count`) and the
  seeded stock (`Stock`). Lemmas about these functions sit beside them.
- `characters.dfy` (module `Characters`): the classes `Character`, `Seller` and
  `Player`. In the source, `Character` is the abstract base class of the other
  two. It holds the coin balance and the list of items. Here `Seller` and
  `Player` each own a `Character` object instead. Methods update the fields in
  place, under `modifies` clauses. The first-match lookup, `List.Remove` and
  the seeding are `while` loops with invariants.
- `trade.dfy` (module `Trade`): `Buy` is one purchase attempt on a snapshot of
  both actors (`Market`). `Run` is a sequence of attempts. Lemmas cover the
  outcome classification, atomic failure, conservation of money and items,
  and per-name stock bookkeeping. The class `Shop` performs `TryDeal` and the
  buy-menu decision (`OpenBuyMenu`) on the two objects. Both methods are
  proved to leave exactly the state that `Buy` computes. `OpenBuyMenu` also
  returns `Buy`'s outcome, and `TryDeal` returns whether that outcome is a
  purchase.

This model follows the program as written:

- Stock is a flat list of item instances. A seeded seller holds `count`
  clones of each catalog item. The stock of a name is the number of
  instances with that name (`Count`). An exhausted name simply has no
  instance left.
- Looking up a name returns the earliest instance in list order. `GetItem`
  scans the list and stops at the first match.
- `Seller.GiveItem` with a name that is not stocked changes nothing and
  returns `None`. In the source, `GetItem` returns null, `List.Remove(null)`
  removes nothing, and null is returned.
- `GetItemPrice` dereferences the lookup result, so it requires the name to
  be stocked. So does `TryDeal`, which calls it. The buy menu calls
  `TryDeal` only after `IsHaveItem` has succeeded.

`TryDeal` and `OpenBuyMenu` require the seller's and the customer's
`Character` objects to be distinct. In the source this holds by type: a
`Seller` is never a `Player`.

## Model

| member | source | states |
|---|---|---|
| `Items.Item.Clone` | Shop/Program.cs:243 | a clone has the same name and price as the original, so it is an equal value |
| `Inventory.FirstNamed` | Shop/Program.cs:160-174 | the index found is the earliest whose item has the name; none means no item has it |
| `Inventory.Lookup` | Shop/Program.cs:160-174 | the item found exists exactly when the name is stocked, carries that name and is one of the stocked items |
| `Inventory.IndexOf` | Shop/Program.cs:120-123 | the first element equal to the item, as `List.Remove` locates it; none exactly when the item is absent |
| `Inventory.Remove` | Shop/Program.cs:120-123 | `List.Remove` by value: an absent item leaves the list as it is; otherwise the list shrinks by one and its multiset loses exactly one copy of the item |
| `Inventory.RemoveAt` | Shop/Program.cs:120-123 | removal shrinks the list by one; elements before the index stay, those after shift down by one in order |
| `Inventory.RemoveFound` | Shop/Program.cs:153-158 | `List.Remove` of the item found by name removes it at the index where the name was first matched |
| `Inventory.RemoveAtMultiset` | Shop/Program.cs:120-123 | removal takes exactly one copy of the removed element out of the multiset of items |
| `Inventory.CountAppend` | Shop/Program.cs:115-118 | appending an item raises the count of its own name by one and leaves every other count alone |
| `Inventory.CountRemoveAt` | Shop/Program.cs:153-158 | removing an item lowers the count of its name by one and leaves every other name's count unchanged |
| `Inventory.CountPositive` | Shop/Program.cs:143-146 | a name is stocked exactly when its count is positive |
| `Inventory.Repeat` | Shop/Program.cs:180-183 | the inner loop yields max(count, 0) items, each equal to the catalog item |
| `Inventory.Copies` | Shop/Program.cs:180 | no contract: the trip count of the `for` loop, which is `count` when non-negative and zero otherwise |
| `Inventory.Stock` | Shop/Program.cs:176-185 | no contract: the list `Initialize` appends, one block of clones per catalog entry; described by `StockLength`, `StockAt` and `CountStock` |
| `Inventory.StockLength` | Shop/Program.cs:176-185 | the seeded stock has length (catalog size) * max(count, 0) |
| `Inventory.StockAt` | Shop/Program.cs:176-185 | unit j of catalog entry i sits at position i*count+j and equals that entry: consecutive blocks in catalog order |
| `Inventory.CountStock` | Shop/Program.cs:176-185 | the seeded stock holds count units of a name for each catalog entry with that name |
| `Inventory.StockHasName` | Shop/Program.cs:128-131 | a fresh seller stocks a name exactly when count is positive and the catalog has that name |
| `Characters.Character.constructor` | Shop/Program.cs:100-104 | a new character has the given balance and no items |
| `Characters.Character.TakeMoney` | Shop/Program.cs:110-113 | the balance rises by the amount; the items are unchanged |
| `Characters.Character.TakeItem` | Shop/Program.cs:115-118 | exactly the given item is appended at the end; the balance is unchanged |
| `Characters.Character.RemoveItem` | Shop/Program.cs:120-123 | the first element equal to the item is removed, otherwise nothing changes; the balance is unchanged |
| `Characters.Seller.constructor` | Shop/Program.cs:128-131 | the seller starts with the given balance and with exactly the seeded stock |
| `Characters.Seller.Initialize` | Shop/Program.cs:176-185 | the list grows by count clones of each catalog item, in catalog order; the balance is unchanged |
| `Characters.Seller.GetItem` | Shop/Program.cs:160-174 | the scan returns the earliest stocked item with the name, or none exactly when no item has it |
| `Characters.Seller.IsHaveItem` | Shop/Program.cs:143-146 | true exactly when some stocked item has the name, i.e. its count is positive |
| `Characters.Seller.GetItemPrice` | Shop/Program.cs:148-151 | the price of the earliest stocked item with the name, for a stocked name |
| `Characters.Seller.GiveItem` | Shop/Program.cs:153-158 | returns the earliest item with the name and removes it at that index; nothing changes when the name is absent |
| `Characters.Player.constructor` | Shop/Program.cs:209-212 | a new player has the given balance and no items |
| `Characters.Player.GiveMoney` | Shop/Program.cs:219-223 | the balance falls by the amount, which is returned; the items are unchanged |
| `Characters.Player.CanPay` | Shop/Program.cs:214-217 | no contract: the predicate `money >= price`; its result is the result of `TryDeal` and decides `BuyOutcome` |
| `Trade.Buy` | Shop/Program.cs:62-93 | the outcome is not-in-stock exactly when no stocked item has the name; a failed attempt leaves the market unchanged; the total money is unchanged; fully characterised by `BuyOutcome`, `BuySuccess` and `BuyCounts` |
| `Trade.Run` | Shop/Program.cs:31-49 | a session yields one outcome per request |
| `Trade.BuyOutcome` | Shop/Program.cs:62-76 | the outcome is not-in-stock exactly when the name is absent; otherwise it is insufficient coins or success depending on balance >= price |
| `Trade.BuyFailureChangesNothing` | Shop/Program.cs:81-93 | a failed attempt leaves both balances and both lists unchanged |
| `Trade.BuySuccess` | Shop/Program.cs:86-90 | success moves the price from player to seller, removes the first item with the name from the seller and appends it to the player |
| `Trade.BuyConservesMoney` | Shop/Program.cs:88 | the sum of the two balances is the same after any attempt |
| `Trade.BuyKeepsPlayerSolvent` | Shop/Program.cs:84-88 | a player who starts with a non-negative balance keeps one |
| `Trade.BuyConservesItems` | Shop/Program.cs:88-89 | the multiset of all items of both actors is unchanged: items only change hands |
| `Trade.BuyCounts` | Shop/Program.cs:88-89 | a purchase moves one unit of the requested name from seller to player; other names' counts are unchanged |
| `Trade.LastUnitSold` | Shop/Program.cs:153-158 | after the last unit of a name is sold the seller no longer stocks that name |
| `Trade.RunConservesMoney` | Shop/Program.cs:31-49 | the total money is conserved over any session of attempts |
| `Trade.RunOfPurchases` | Shop/Program.cs:31-49 | in a session of successes every request of a name moves exactly one unit of it from seller to player |
| `Trade.SwordPurchase` | Shop/Program.cs:128-131 | seven swords at 200 and a 1000-coin player: one purchase leaves six swords, 700 and 800 coins, and one sword with the player |
| `Trade.Shop.constructor` | Shop/Program.cs:19-22 | the shop serves the given seller |
| `Trade.Shop.TryDeal` | Shop/Program.cs:81-93 | returns whether the balance covers the first matching item's price; if so, moves the money and that item, otherwise changes nothing; the result and the new state are those of `Buy` |
| `Trade.Shop.OpenBuyMenu` | Shop/Program.cs:62-76 | the outcome and the new state of both actors are exactly those of `Buy` on the state before |

## Left out

- Console I/O: `Main`, the `Serv` command loop and every console call. The item name the player types is a parameter of `OpenBuyMenu`. The menu loop is modelled only as `Run`, a sequence of buy requests. The exit command is not modelled.
- `ShowItems`, `SortItems` and `ShowMoney` are display code and are left out. As written, `SortItems` starts each name's list empty, so every displayed count is one short. `Value[0]` then fails when a single unit of a name remains.
- Object identity of `Item` instances is not modelled. `List.Remove` with the default reference equality is modelled by value equality. `RemoveFound` shows that both remove the element at the index of the first name match.
- C# `int` overflow is not modelled. Balances, prices and amounts are unbounded integers. Negative prices and amounts are not rejected, because the source does not reject them.
- The hardcoded catalog in `Main` is not modelled. `SwordPurchase` uses its own example instead.
