/** Orders as both engines see them, and the 32-bit arithmetic they are counted in. */
module Orders {

  /** One more than the largest value of a 32-bit unsigned field. */
  const WORD: nat := 0x1_0000_0000

  /** 32-bit unsigned arithmetic wraps. */
  function Wrap(x: int): (r: nat)
    ensures r < WORD
    ensures 0 <= x < WORD ==> r == x
  {
    x % WORD
  }

  /** A 32-bit field read as a signed number. */
  function Signed(q: nat): int {
    if q < WORD / 2 then q else q - WORD
  }

  /** `delta` is a signed 32-bit number that can be negated, and adding it to the field does not overflow. */
  predicate Adds32(q: nat, delta: int) {
    0 - WORD / 2 < delta < WORD / 2 && 0 - WORD / 2 <= Signed(q) + delta < WORD / 2
  }

  /** `MARKET_ORDER_PRICE`, also used as "price unchanged" by replace. */
  const MARKET: nat := 0

  /**
    * An order held by value. `cost` is the accumulated fill cost, a wrapping 32-bit sum;
    * the reservation counter of the original never leaves zero and is not represented.
    */
  datatype Order = Order(
    id: nat,
    isBuy: bool,
    price: nat,
    stop: nat,
    qty: nat,
    filled: nat,
    cost: nat,
    aon: bool,
    ioc: bool)
  {
    /** Quantity still to trade. */
    function Open(): nat {
      if filled >= qty then 0 else qty - filled
    }

    /** Records a fill of `q` units costing `c`. */
    function Fill(q: nat, c: nat): Order {
      this.(filled := filled + q, cost := Wrap(cost + c))
    }

    /** Changes the total quantity by `delta`, and the price unless `newPrice` is zero; both are cut to 32 bits. */
    function Modify(delta: int, newPrice: nat): Order {
      this.(qty := Wrap(qty + delta), price := if newPrice == MARKET then price else Wrap(newPrice))
    }
  }

  /** Cost of a trade as the engines compute it: a wrapping 32-bit product. */
  function Cost(q: nat, px: nat): nat {
    Wrap(q * px)
  }

  /** `p` is a strictly better price than `q` on the given side. */
  predicate Better(bid: bool, p: nat, q: nat) {
    if bid then p > q else p < q
  }
}
