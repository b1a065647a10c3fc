/** The catalog entry sold in the shop, and an optional result standing in for C#'s null. */
module Items {

  /** An optional value: `None` plays the part of a null reference. */
  datatype Option<T> = None | Some(value: T)

  /**
   * An item is an immutable name and price. The source never mutates an item
   * after construction, so a value datatype captures it; two clones of one
   * catalog entry are equal values.
   */
  datatype Item = Item(name: string, price: int) {

    /** `Item.Clone`: a fresh item with the same name and price, i.e. an equal value. */
    function Clone(): (c: Item)
      ensures c == this
      ensures c.name == name && c.price == price
    {
      Item(name, price)
    }
  }
}
