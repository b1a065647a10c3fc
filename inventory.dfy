/**
 * Pure functions over an actor's list of item instances, in list order.
 * They specify what the scans and list updates of the Seller and Character
 * classes compute.
 */
module Inventory {
  import opened Items

  /** Some item of `s` is named `name`. */
  predicate HasName(s: seq<Item>, name: string) {
    exists i :: 0 <= i < |s| && s[i].name == name
  }

  /** The index of the earliest item of `s` named `name`, or `None`. */
  function FirstNamed(s: seq<Item>, name: string): (r: Option<nat>)
    ensures r.None? <==> !HasName(s, name)
    ensures r.Some? ==> r.value < |s| && s[r.value].name == name
    ensures r.Some? ==> forall j :: 0 <= j < r.value ==> s[j].name != name
  {
    if s == [] then None
    else if s[0].name == name then Some(0)
    else match FirstNamed(s[1..], name)
      case None =>
        assert forall j :: 1 <= j < |s| ==> s[j] == s[1..][j - 1];
        None
      case Some(k) =>
        assert s[k + 1] == s[1..][k];
        assert forall j :: 1 <= j < k + 1 ==> s[j] == s[1..][j - 1];
        Some(k + 1)
  }

  /** The earliest item of `s` named `name`, or `None`: what `Seller.GetItem` returns. */
  function Lookup(s: seq<Item>, name: string): (r: Option<Item>)
    ensures r.Some? <==> HasName(s, name)
    ensures r.Some? ==> r.value.name == name
    ensures r.Some? ==> exists i :: 0 <= i < |s| && s[i] == r.value
  {
    match FirstNamed(s, name)
    case None => None
    case Some(i) => Some(s[i])
  }

  /** The index of the first element of `s` equal to `x`, or `None`. */
  function IndexOf(s: seq<Item>, x: Item): (r: Option<nat>)
    ensures r.None? <==> x !in s
    ensures r.Some? ==> r.value < |s| && s[r.value] == x
    ensures r.Some? ==> forall j :: 0 <= j < r.value ==> s[j] != x
  {
    if s == [] then None
    else if s[0] == x then Some(0)
    else match IndexOf(s[1..], x)
      case None => None
      case Some(k) =>
        assert forall j :: 1 <= j < k + 1 ==> s[j] == s[1..][j - 1];
        Some(k + 1)
  }

  /** `s` without its element at index `i`; the others keep their order. */
  function RemoveAt(s: seq<Item>, i: nat): (r: seq<Item>)
    requires i < |s|
    ensures |r| == |s| - 1
    ensures forall j :: 0 <= j < i ==> r[j] == s[j]
    ensures forall j :: i <= j < |r| ==> r[j] == s[j + 1]
  {
    s[..i] + s[i + 1..]
  }

  /** `List<Item>.Remove`: drop the first element equal to `x`; no change when there is none. */
  function Remove(s: seq<Item>, x: Item): (r: seq<Item>)
    ensures x !in s ==> r == s
    ensures x in s ==> |r| == |s| - 1
    ensures multiset(r) == multiset(s) - multiset{x}
  {
    match IndexOf(s, x)
    case None => s
    case Some(i) =>
      RemoveAtMultiset(s, i);
      RemoveAt(s, i)
  }

  /** The number of items of `s` named `name`: the stock of that name. */
  function Count(s: seq<Item>, name: string): nat
  {
    if s == [] then 0
    else Count(s[..|s| - 1], name) + (if s[|s| - 1].name == name then 1 else 0)
  }

  /** How many times a `for (i = 0; i < count; i++)` loop runs. */
  function Copies(count: int): nat {
    if count < 0 then 0 else count
  }

  /** `count` copies of `x`. */
  function Repeat(x: Item, count: int): (r: seq<Item>)
    ensures |r| == Copies(count)
    ensures forall k :: 0 <= k < |r| ==> r[k] == x
    decreases count
  {
    if count <= 0 then [] else Repeat(x, count - 1) + [x]
  }

  /** The stock a seller is seeded with: `count` clones of each catalog item, in catalog order. */
  function Stock(catalog: seq<Item>, count: int): seq<Item>
  {
    if catalog == [] then []
    else Stock(catalog[..|catalog| - 1], count) + Repeat(catalog[|catalog| - 1], count)
  }

  // ---------------------------------------------------------------------------
  // Lemmas
  // ---------------------------------------------------------------------------

  /** The stock holds `count` units per catalog entry. */
  lemma {:induction false} StockLength(catalog: seq<Item>, count: int)
    ensures |Stock(catalog, count)| == |catalog| * Copies(count)
  {
    if catalog != [] {
      var n := |catalog| - 1;
      StockLength(catalog[..n], count);
      assert |catalog| * Copies(count) == n * Copies(count) + Copies(count);
    }
  }

  /**
   * Unit `j` of the block of catalog entry `i` sits at `i * count + j` and is
   * equal to that catalog entry: the blocks are consecutive and in catalog order.
   */
  lemma {:induction false} StockAt(catalog: seq<Item>, count: int, i: nat, j: nat)
    requires i < |catalog| && j < count
    ensures i * count + j < |Stock(catalog, count)|
    ensures Stock(catalog, count)[i * count + j] == catalog[i]
  {
    var n := |catalog| - 1;
    var front := catalog[..n];
    StockLength(front, count);
    assert Stock(catalog, count) == Stock(front, count) + Repeat(catalog[n], count);
    assert |Stock(front, count)| == n * count;
    if i < n {
      StockAt(front, count, i, j);
    } else {
      assert i * count + j == n * count + j;
    }
  }

  /** Counting names distributes over concatenation. */
  lemma {:induction false} CountConcat(a: seq<Item>, b: seq<Item>, name: string)
    ensures Count(a + b, name) == Count(a, name) + Count(b, name)
  {
    if b != [] {
      var n := |b| - 1;
      assert (a + b)[..|a + b| - 1] == a + b[..n];
      CountConcat(a, b[..n], name);
    } else {
      assert a + b == a;
    }
  }

  /** Appending one item raises the count of its own name by one and no other. */
  lemma CountAppend(s: seq<Item>, x: Item, name: string)
    ensures Count(s + [x], name) == Count(s, name) + (if x.name == name then 1 else 0)
  {
    assert (s + [x])[..|s|] == s;
  }

  /** Removing the element at `i` lowers the count of that element's name by one and no other. */
  lemma CountRemoveAt(s: seq<Item>, i: nat, name: string)
    requires i < |s|
    ensures Count(RemoveAt(s, i), name) == Count(s, name) - (if s[i].name == name then 1 else 0)
  {
    assert s == s[..i] + [s[i]] + s[i + 1..];
    CountConcat(s[..i] + [s[i]], s[i + 1..], name);
    CountAppend(s[..i], s[i], name);
    CountConcat(s[..i], s[i + 1..], name);
  }

  /** A name is present exactly when its count is positive. */
  lemma {:induction false} CountPositive(s: seq<Item>, name: string)
    ensures HasName(s, name) <==> Count(s, name) > 0
  {
    if s != [] {
      var n := |s| - 1;
      CountPositive(s[..n], name);
      if HasName(s[..n], name) {
        var k :| 0 <= k < n && s[..n][k].name == name;
        assert s[k].name == name;
      }
      if HasName(s, name) && s[n].name != name {
        var k :| 0 <= k < |s| && s[k].name == name;
        assert s[..n][k].name == name;
      }
    }
  }

  /** Removing an element is a permutation step: the multiset loses exactly that element. */
  lemma RemoveAtMultiset(s: seq<Item>, i: nat)
    requires i < |s|
    ensures multiset(RemoveAt(s, i)) == multiset(s) - multiset{s[i]}
  {
    assert s == s[..i] + [s[i]] + s[i + 1..];
  }

  /**
   * The first element equal to the first item named `name` is that item itself,
   * so `List.Remove` on the found item removes it at the index where it was found.
   */
  lemma RemoveFound(s: seq<Item>, name: string)
    requires HasName(s, name)
    ensures Remove(s, Lookup(s, name).value) == RemoveAt(s, FirstNamed(s, name).value)
  {
    var i := FirstNamed(s, name).value;
    assert IndexOf(s, s[i]).Some?;
  }

  /** The stock holds `count` units of a name per catalog entry of that name. */
  lemma {:induction false} CountStock(catalog: seq<Item>, count: int, name: string)
    ensures Count(Stock(catalog, count), name) == Copies(count) * Count(catalog, name)
  {
    if catalog != [] {
      var n := |catalog| - 1;
      var front := catalog[..n];
      var d := if catalog[n].name == name then 1 else 0;
      var c := Copies(count);
      calc {
        Count(Stock(catalog, count), name);
        Count(Stock(front, count) + Repeat(catalog[n], count), name);
        { CountConcat(Stock(front, count), Repeat(catalog[n], count), name); }
        Count(Stock(front, count), name) + Count(Repeat(catalog[n], count), name);
        { CountStock(front, count, name); CountRepeat(catalog[n], count, name); }
        c * Count(front, name) + c * d;
        { Distribute(c, Count(front, name), d); }
        c * (Count(front, name) + d);
        c * Count(catalog, name);
      }
    }
  }

  /** Multiplication distributes over addition; the one nonlinear step of `CountStock`. */
  lemma Distribute(c: nat, a: nat, d: nat)
    ensures c * (a + d) == c * a + c * d
  {
  }

  /** A freshly seeded seller stocks a name exactly when the catalog has it and `count` is positive. */
  lemma StockHasName(catalog: seq<Item>, count: int, name: string)
    ensures HasName(Stock(catalog, count), name) <==> count > 0 && HasName(catalog, name)
  {
    CountStock(catalog, count, name);
    CountPositive(Stock(catalog, count), name);
    CountPositive(catalog, name);
    var k := Count(catalog, name);
    if count <= 0 {
      assert Copies(count) * k == 0;
    } else if k > 0 {
      assert Copies(count) * k >= k;
    } else {
      assert Copies(count) * k == 0;
    }
  }

  lemma {:induction false} CountRepeat(x: Item, count: int, name: string)
    ensures Count(Repeat(x, count), name) == if x.name == name then Copies(count) else 0
    decreases count
  {
    if count > 0 {
      CountRepeat(x, count - 1, name);
      CountAppend(Repeat(x, count - 1), x, name);
    }
  }
}
