/** The editable product repository (Data/ProductRepository.cs): the price
    table is a field that `AddOrUpdateProduct` and `RemoveProduct` change in
    place behind their guards. */
module ProductRepositories {

  import opened Wrappers
  import opened Exceptions
  import opened PriceTables
  import DotNetText

  class ProductRepository {

    var prices: PriceTable

    /** No price in the table is negative: the seed has none and the guarded
        update refuses them. */
    ghost predicate Valid()
      reads this
    {
      NonNegative(prices)
    }

    constructor ()
      ensures Valid()
      ensures prices == SeedPrices
    {
      prices := SeedPrices;
    }

    /** `ProductExists`: a read that changes nothing. */
    method ProductExists(name: string) returns (b: bool)
      ensures b <==> name in prices
    {
      b := Contains(prices, name);
    }

    /** `GetPriceAsync`: the stored price, or ProductNotFoundException with the
        table unchanged. */
    method GetPrice(name: string) returns (r: Result<real, Exception>)
      ensures r.Success? <==> name in prices
      ensures r.Success? ==> r.value == prices[name]
      ensures r.Failure? ==> r.error == NotFound(name)
    {
      r := Lookup(prices, name);
    }

    /** `AddOrUpdateProduct`: on a rejected name or price the exception and an
        unchanged table; otherwise the table `AddOrUpdate` describes. */
    method AddOrUpdateProduct(name: Option<string>, price: real) returns (r: Outcome<Exception>)
      requires Valid()
      modifies this
      ensures Valid()
      ensures AddOrUpdate(old(prices), name, price).Success? ==>
                r == Pass && prices == AddOrUpdate(old(prices), name, price).value
      ensures AddOrUpdate(old(prices), name, price).Failure? ==>
                r == Fail(AddOrUpdate(old(prices), name, price).error) && prices == old(prices)
    {
      var update := AddOrUpdate(prices, name, price);
      match update
      case Failure(e) =>
        r := Fail(e);
      case Success(t) =>
        AddOrUpdatePreservesNonNegative(prices, name, price);
        prices := t;
        r := Pass;
    }

    /** `RemoveProduct`: never throws; the entry is gone afterwards. */
    method RemoveProduct(name: string)
      requires Valid()
      modifies this
      ensures Valid()
      ensures prices == Remove(old(prices), name)
    {
      RemovePreservesNonNegative(prices, name);
      prices := Remove(prices, name);
    }
  }

  /** A caller's view: the seeded repository accepts a free product, refuses a
      negative price without change, and forgets a removed product. */
  method RepositoryScenario() returns (r1: Outcome<Exception>, r2: Outcome<Exception>, widget: bool)
    ensures r1 == Pass && r2 == Fail(NegativePriceError) && !widget
  {
    var repo := new ProductRepository();
    assert !DotNetText.IsWhiteSpace("Gizmo"[0]);
    r1 := repo.AddOrUpdateProduct(Some("Gizmo"), 0.0);
    assert repo.prices == SeedPrices["Gizmo" := 0.0];
    r2 := repo.AddOrUpdateProduct(Some("Gizmo"), -1.0);
    repo.RemoveProduct("Widget");
    widget := repo.ProductExists("Widget");
  }
}
