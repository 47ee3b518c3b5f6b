/** Orders as values and as the shared mutable objects of the stub engine, and the
    price-time order that both heaps and the sorted lists use. */
module Orders {

  datatype Side = Buy | Sell {
    function Opposite(): Side { if this.Buy? then Sell else Buy }
  }

  datatype OrderType = Limit | Market

  /** The value of one resting order. */
  datatype Entry = Entry(
    id: string, side: Side, price: real, quantity: int, remaining: int, enteredAt: int, session: string)

  /** `Less` of `bidHeap` and `askHeap`: better price first, then earlier entry. */
  predicate Ahead(side: Side, p: real, t: int, q: real, u: int) {
    if p != q then (if side.Buy? then p > q else p < q) else t < u
  }

  predicate EntryAhead(side: Side, a: Entry, b: Entry) {
    Ahead(side, a.price, a.enteredAt, b.price, b.enteredAt)
  }

  /** An order object: only `remaining` and its heap `index` ever change. */
  class Order {
    const id: string
    const side: Side
    const typ: OrderType
    const price: real
    const quantity: int
    const enteredAt: int
    const session: string
    var remaining: int
    var index: int

    constructor (id: string, side: Side, typ: OrderType, price: real, quantity: int, enteredAt: int, session: string)
      ensures this.id == id && this.side == side && this.typ == typ && this.price == price
      ensures this.quantity == quantity && this.enteredAt == enteredAt && this.session == session
      ensures remaining == quantity && index == -1
    {
      this.id, this.side, this.typ, this.price := id, side, typ, price;
      this.quantity, this.enteredAt, this.session := quantity, enteredAt, session;
      this.remaining, this.index := quantity, -1;
    }

    function View(): (e: Entry)
      reads this`remaining
      ensures e.id == id && e.side == side && e.price == price && e.enteredAt == enteredAt
      ensures e.remaining == remaining && e.session == session && e.quantity == quantity
    {
      Entry(id, side, price, quantity, remaining, enteredAt, session)
    }
  }

  predicate OrderAhead(side: Side, a: Order, b: Order) {
    Ahead(side, a.price, a.enteredAt, b.price, b.enteredAt)
  }
}
