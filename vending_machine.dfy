/**
 * A vending machine: a fixed list of products with a stock each. Dispensing checks power,
 * the product index and the stock, then uses power once, takes one from the stock and
 * spawns the product. Audio, the random spawn rotation and the item system are effects
 * outside the machine; power status and the spawned items are recorded as plain state.
 */
module VendingMachines {

  /** The power consumer's status; only `Inactive` changes what the machine does. */
  datatype PowerStatus = Inactive | Idle | Active

  /** A product: the item it spawns (`name`) and the text the menu shows (`nameString`). */
  datatype Product = Product(name: string, nameString: string)

  /** How a dispense request ended (the engine's early returns, and success). */
  datatype DispenseResult = Unpowered | IndexTooLarge | IndexNegative | OutOfStock | Dispensed

  /** One entry of the interaction menu. */
  datatype DispenseProductInteraction = DispenseProductInteraction(productName: string, productIndex: nat, productStock: int)

  /** The outcome of a request on the stock alone. */
  function DispenseOutcome(power: PowerStatus, stock: seq<int>, productIndex: int): DispenseResult {
    if power == Inactive then Unpowered
    else if productIndex >= |stock| then IndexTooLarge
    else if productIndex < 0 then IndexNegative
    else if stock[productIndex] <= 0 then OutOfStock
    else Dispensed
  }

  /** The stock after a request: one less of the selected product on success, unchanged otherwise. */
  function StockAfter(power: PowerStatus, stock: seq<int>, productIndex: int): (r: seq<int>)
    ensures |r| == |stock|
  {
    if DispenseOutcome(power, stock, productIndex) == Dispensed then stock[productIndex := stock[productIndex] - 1]
    else stock
  }

  /** A request: the power status when it arrives, and the product asked for. */
  datatype Request = Request(power: PowerStatus, productIndex: int)

  /** The stock after a sequence of requests. */
  function StockAfterAll(stock: seq<int>, requests: seq<Request>): (r: seq<int>)
    decreases |requests|
  {
    if requests == [] then stock
    else StockAfterAll(StockAfter(requests[0].power, stock, requests[0].productIndex), requests[1..])
  }

  /** How many of the requests dispensed something. */
  function DispensedCount(stock: seq<int>, requests: seq<Request>): nat
    decreases |requests|
  {
    if requests == [] then 0
    else
      var r := requests[0];
      (if DispenseOutcome(r.power, stock, r.productIndex) == Dispensed then 1 else 0)
        + DispensedCount(StockAfter(r.power, stock, r.productIndex), requests[1..])
  }

  function Total(stock: seq<int>): int
    decreases |stock|
  {
    if stock == [] then 0 else stock[0] + Total(stock[1..])
  }

  predicate NonNegative(stock: seq<int>) {
    forall i :: 0 <= i < |stock| ==> stock[i] >= 0
  }

  /**
   * A request dispenses exactly when the machine is powered, the index is in range and the
   * product is in stock; then exactly that product loses one unit and nothing else changes.
   */
  lemma DispenseChangesOnlySelected(power: PowerStatus, stock: seq<int>, productIndex: int)
    ensures DispenseOutcome(power, stock, productIndex) == Dispensed <==>
      power != Inactive && 0 <= productIndex < |stock| && stock[productIndex] > 0
    ensures forall i :: 0 <= i < |stock| && i != productIndex ==> StockAfter(power, stock, productIndex)[i] == stock[i]
    ensures DispenseOutcome(power, stock, productIndex) == Dispensed ==>
      StockAfter(power, stock, productIndex)[productIndex] == stock[productIndex] - 1
    ensures DispenseOutcome(power, stock, productIndex) != Dispensed ==> StockAfter(power, stock, productIndex) == stock
  {
  }

  /** Taking one from a single entry takes one from the total. */
  lemma {:induction false} TotalDecrement(stock: seq<int>, k: nat)
    requires k < |stock|
    ensures Total(stock[k := stock[k] - 1]) == Total(stock) - 1
    decreases |stock|
  {
    var updated := stock[k := stock[k] - 1];
    if k == 0 {
      assert updated[1..] == stock[1..];
    } else {
      assert updated[1..] == stock[1..][k - 1 := stock[k] - 1];
      TotalDecrement(stock[1..], k - 1);
    }
  }

  /** Every unit that leaves the stock is a dispensed product: nothing is lost or created. */
  lemma {:induction false} StockIsConserved(stock: seq<int>, requests: seq<Request>)
    ensures Total(StockAfterAll(stock, requests)) + DispensedCount(stock, requests) == Total(stock)
    decreases |requests|
  {
    if requests != [] {
      var r := requests[0];
      if DispenseOutcome(r.power, stock, r.productIndex) == Dispensed {
        TotalDecrement(stock, r.productIndex);
      }
      StockIsConserved(StockAfter(r.power, stock, r.productIndex), requests[1..]);
    }
  }

  /** Stock that starts non-negative stays non-negative whatever is requested. */
  lemma {:induction false} StockStaysNonNegative(stock: seq<int>, requests: seq<Request>)
    requires NonNegative(stock)
    ensures NonNegative(StockAfterAll(stock, requests))
    decreases |requests|
  {
    if requests != [] {
      var r := requests[0];
      var next := StockAfter(r.power, stock, r.productIndex);
      assert NonNegative(next) by {
        DispenseChangesOnlySelected(r.power, stock, r.productIndex);
      }
      StockStaysNonNegative(next, requests[1..]);
    }
  }

  /** The interaction menu of a machine with the given power status and stock. */
  predicate IsMenu(power: PowerStatus, products: seq<Product>, stock: seq<int>, menu: seq<DispenseProductInteraction>)
    requires |stock| == |products|
  {
    if power == Inactive then menu == []
    else
      && |menu| == |products|
      && forall i :: 0 <= i < |menu| ==>
           menu[i] == DispenseProductInteraction(products[i].nameString, i, stock[i])
  }

  class VendingMachine {
    /** The power consumer's status, set from outside. */
    var powerStatus: PowerStatus
    /** How many times the machine has asked its power consumer for one use. */
    var powerUses: nat
    /** The products offered, in menu order. */
    const products: seq<Product>
    /** The stock of each product, updated in place. */
    const stock: array<int>
    /** The names of the products spawned so far, in order. */
    var spawned: seq<string>

    ghost predicate Valid()
      reads this
    {
      stock.Length == |products|
    }

    constructor (products: seq<Product>, initialStock: seq<int>, powerStatus: PowerStatus)
      requires |initialStock| == |products|
      ensures Valid() && fresh(stock)
      ensures this.products == products && stock[..] == initialStock
      ensures this.powerStatus == powerStatus && powerUses == 0 && spawned == []
    {
      this.products := products;
      this.powerStatus := powerStatus;
      powerUses := 0;
      spawned := [];
      var a := new int[|initialStock|](i requires 0 <= i < |initialStock| => initialStock[i]);
      stock := a;
    }

    /**
     * Dispenses product `productIndex`: nothing happens without power, with an index out of
     * range or with no stock left; otherwise one power use is recorded, the product's stock
     * drops by one and the product is spawned.
     */
    method DispenseProduct(productIndex: int) returns (result: DispenseResult)
      requires Valid()
      modifies this`powerUses, this`spawned, stock
      ensures Valid()
      ensures result == DispenseOutcome(powerStatus, old(stock[..]), productIndex)
      ensures stock[..] == StockAfter(powerStatus, old(stock[..]), productIndex)
      ensures result == Dispensed ==>
        powerUses == old(powerUses) + 1 && spawned == old(spawned) + [products[productIndex].name]
      ensures result != Dispensed ==> powerUses == old(powerUses) && spawned == old(spawned)
    {
      if powerStatus == Inactive {
        return Unpowered;
      }
      if productIndex >= stock.Length {
        return IndexTooLarge;
      }
      if productIndex < 0 {
        return IndexNegative;
      }
      if stock[productIndex] <= 0 {
        return OutOfStock;
      }
      powerUses := powerUses + 1;
      stock[productIndex] := stock[productIndex] - 1;
      spawned := spawned + [products[productIndex].name];
      result := Dispensed;
    }

    /** The menu: nothing without power, else one entry per product with its index and stock. */
    method CreateTargetInteractions() returns (interactions: array<DispenseProductInteraction>)
      requires Valid()
      ensures fresh(interactions)
      ensures IsMenu(powerStatus, products, stock[..], interactions[..])
    {
      if powerStatus == Inactive {
        interactions := new DispenseProductInteraction[0];
        return;
      }
      interactions := new DispenseProductInteraction[stock.Length](_ => DispenseProductInteraction("", 0, 0));
      for i := 0 to stock.Length
        invariant forall j :: 0 <= j < i ==>
          interactions[j] == DispenseProductInteraction(products[j].nameString, j, stock[j])
      {
        interactions[i] := DispenseProductInteraction(products[i].nameString, i, stock[i]);
      }
    }
  }
}
