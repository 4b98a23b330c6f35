/** Order intake (Services/OrderService.cs): three guards in a fixed order,
    then one price lookup, one order and one save. */
module OrderServices {

  import opened Wrappers
  import opened Exceptions
  import opened DotNetText
  import opened Orders
  import opened PriceTables
  import opened ProductRepositories

  /** The calls `ProcessOrder` makes on its two repositories, in the order made. */
  datatype Call =
    | CheckProduct(name: Option<string>)
    | FetchPrice(product: string)
    | SaveOrder(order: Order)

  const EmptyCustomerError: Exception := ArgumentException("Customer name cannot be empty.", None)
  const BadQuantityError: Exception := ArgumentException("Quantity must be a positive integer.", None)
  /** What `Dictionary.ContainsKey` throws for a null product name. */
  const NullProductError: Exception := ArgumentNullException("key")

  function UnknownProductError(name: string): Exception {
    ArgumentException("Product '" + name + "' not found.", None)
  }

  /** The quantity guard: `int.TryParse` succeeds with a positive value. */
  predicate QuantityAccepted(quantityInput: Option<string>) {
    TryParseInt32(quantityInput).Some? && TryParseInt32(quantityInput).value > 0
  }

  /** What `ProcessOrder` decides for a given price table: the first failing
      guard's exception, or the order it saves. */
  function Intake(prices: PriceTable, customerName: Option<string>, productName: Option<string>,
                  quantityInput: Option<string>): (r: Result<Order, Exception>)
    ensures r.Success? <==>
              && !IsNullOrWhiteSpace(customerName)
              && productName.Some? && productName.value in prices
              && QuantityAccepted(quantityInput)
    ensures r.Success? ==>
              r.value == Order(customerName.value, productName.value,
                               TryParseInt32(quantityInput).value, prices[productName.value])
    ensures r.Success? ==> 0 < r.value.quantity <= Int32Max
    ensures r.Failure? ==> r.error.ArgumentException? || r.error.ArgumentNullException?
  {
    if IsNullOrWhiteSpace(customerName) then Failure(EmptyCustomerError)
    else if productName.None? then Failure(NullProductError)
    else if productName.value !in prices then Failure(UnknownProductError(productName.value))
    else if !QuantityAccepted(quantityInput) then Failure(BadQuantityError)
    else Success(Order(customerName.value, productName.value,
                       TryParseInt32(quantityInput).value, prices[productName.value]))
  }

  /** The guards run name, product, quantity, and the first that fails
      decides the exception; an unknown product is an ArgumentException, not a
      ProductNotFoundException. */
  lemma FirstFailingGuardDecides(prices: PriceTable, c: Option<string>, p: Option<string>, q: Option<string>)
    ensures IsNullOrWhiteSpace(c) ==> Intake(prices, c, p, q) == Failure(EmptyCustomerError)
    ensures !IsNullOrWhiteSpace(c) && p.Some? && p.value !in prices ==>
              && Intake(prices, c, p, q) == Failure(UnknownProductError(p.value))
              && !Intake(prices, c, p, q).error.ProductNotFoundException?
    ensures !IsNullOrWhiteSpace(c) && p.Some? && p.value in prices && !QuantityAccepted(q) ==>
              Intake(prices, c, p, q) == Failure(BadQuantityError)
  {
  }

  /** `ProcessOrder`: reads the product repository only, and reports the calls
      it makes. A failed guard fetches no price and saves nothing; a success
      fetches the price once and saves the order once. */
  method ProcessOrder(products: ProductRepository, customerName: Option<string>, productName: Option<string>,
                      quantityInput: Option<string>) returns (r: Result<Order, Exception>, calls: seq<Call>)
    requires products.Valid()
    ensures r == Intake(products.prices, customerName, productName, quantityInput)
    ensures IsNullOrWhiteSpace(customerName) ==> calls == []
    ensures !IsNullOrWhiteSpace(customerName) && r.Failure? ==> calls == [CheckProduct(productName)]
    ensures r.Success? ==> calls == [CheckProduct(productName), FetchPrice(productName.value), SaveOrder(r.value)]
    ensures r.Success? ==> r.value.price >= 0.0 && r.value.Total() >= r.value.price
  {
    calls := [];
    if IsNullOrWhiteSpace(customerName) {
      r := Failure(EmptyCustomerError);
      return;
    }
    calls := calls + [CheckProduct(productName)];
    if productName.None? {
      r := Failure(NullProductError);
      return;
    }
    var name := productName.value;
    var known := products.ProductExists(name);
    if !known {
      r := Failure(UnknownProductError(name));
      return;
    }
    var quantity := TryParseInt32(quantityInput);
    if quantity.None? || quantity.value <= 0 {
      r := Failure(BadQuantityError);
      return;
    }
    var price := products.GetPrice(name);
    calls := calls + [FetchPrice(name)];
    var order := Order(customerName.value, name, quantity.value, price.value);
    calls := calls + [SaveOrder(order)];
    r := Success(order);
  }

  /** Alice orders three Widgets from the seeded table. */
  lemma AliceOrdersThreeWidgets()
    ensures Intake(SeedPrices, Some("Alice"), Some("Widget"), Some("3")) == Success(Order("Alice", "Widget", 3, 12.99))
  {
    ParseFormatRoundTrip(3);
    assert FormatInt(3) == "3";
    assert !IsWhiteSpace("Alice"[0]);
    assert "Widget" in SeedPrices;
  }

  /** A quantity that is not a number is refused. */
  lemma NonNumericQuantityRefused()
    ensures Intake(SeedPrices, Some("Bob"), Some("Widget"), Some("abc")) == Failure(BadQuantityError)
  {
    ParseRejectsNonNumbers();
    assert !IsWhiteSpace("Bob"[0]);
    assert "Widget" in SeedPrices;
  }

  /** An empty customer name is refused before anything else is looked at. */
  lemma EmptyCustomerRefused()
    ensures Intake(SeedPrices, Some(""), Some("Widget"), Some("1")) == Failure(EmptyCustomerError)
  {
  }

  /** A customer name of nothing but white space is refused like an empty one. */
  lemma WhiteSpaceCustomerRefused()
    ensures Intake(SeedPrices, Some(" \t"), Some("Widget"), Some("1")) == Failure(EmptyCustomerError)
    ensures Intake(SeedPrices, Some("\U{00A0}"), Some("Widget"), Some("1")) == Failure(EmptyCustomerError)
  {
    assert IsWhiteSpace(" \t"[0]) && IsWhiteSpace(" \t"[1]);
    assert IsWhiteSpace("\U{00A0}"[0]);
  }

  /** A product outside the catalog is refused with ArgumentException. */
  lemma UnknownProductRefused()
    ensures Intake(SeedPrices, Some("Bob"), Some("GhostProduct"), Some("1")) == Failure(UnknownProductError("GhostProduct"))
  {
    assert !IsWhiteSpace("Bob"[0]);
    assert "GhostProduct" !in SeedPrices;
  }
}
