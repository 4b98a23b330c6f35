/** The product price table both product repositories keep: a dictionary from
    product name to unit price, seeded with three products. */
module PriceTables {

  import opened Wrappers
  import opened Exceptions
  import opened DotNetText

  type PriceTable = map<string, real>

  /** The table every repository starts with. */
  const SeedPrices: PriceTable := map["Widget" := 12.99, "Gadget" := 15.49, "Doohickey" := 8.75]

  /** The error a lookup of an unknown product raises. */
  function NotFound(name: string): Exception {
    ProductNotFoundException("Product '" + name + "' not found.")
  }

  /** `ContainsKey`. */
  predicate Contains(t: PriceTable, name: string) {
    name in t
  }

  /** `TryGetValue`, throwing ProductNotFoundException on a miss. */
  function Lookup(t: PriceTable, name: string): (r: Result<real, Exception>)
    ensures r.Success? <==> Contains(t, name)
    ensures r.Success? ==> r.value == t[name]
    ensures r.Failure? ==> r.error == NotFound(name)
  {
    if name in t then Success(t[name]) else Failure(NotFound(name))
  }

  const EmptyNameError: Exception := ArgumentException("Product name cannot be empty.", Some("productName"))
  const NegativePriceError: Exception := ArgumentException("Price cannot be negative.", Some("price"))

  /** `AddOrUpdateProduct`: the name is checked first, then the price; a
      price of zero is accepted. A valid call sets one entry and leaves every
      other entry as it was. */
  function AddOrUpdate(t: PriceTable, name: Option<string>, price: real): (r: Result<PriceTable, Exception>)
    ensures IsNullOrWhiteSpace(name) ==> r == Failure(EmptyNameError)
    ensures !IsNullOrWhiteSpace(name) && price < 0.0 ==> r == Failure(NegativePriceError)
    ensures r.Success? <==> !IsNullOrWhiteSpace(name) && price >= 0.0
    ensures r.Success? ==>
              && r.value.Keys == t.Keys + {name.value}
              && r.value[name.value] == price
              && forall k :: k in t && k != name.value ==> r.value[k] == t[k]
  {
    if IsNullOrWhiteSpace(name) then Failure(EmptyNameError)
    else if price < 0.0 then Failure(NegativePriceError)
    else Success(t[name.value := price])
  }

  /** `Dictionary.Remove`: deletes the entry if there is one, never fails. */
  function Remove(t: PriceTable, name: string): (r: PriceTable)
    ensures !Contains(r, name)
    ensures r.Keys == t.Keys - {name}
    ensures forall k :: k in r ==> r[k] == t[k]
  {
    t - {name}
  }

  /** Every price in the table is at least zero. */
  ghost predicate NonNegative(t: PriceTable) {
    forall k :: k in t ==> t[k] >= 0.0
  }

  lemma SeedIsNonNegative()
    ensures NonNegative(SeedPrices)
  {
  }

  lemma AddOrUpdatePreservesNonNegative(t: PriceTable, name: Option<string>, price: real)
    requires NonNegative(t)
    requires AddOrUpdate(t, name, price).Success?
    ensures NonNegative(AddOrUpdate(t, name, price).value)
  {
  }

  lemma RemovePreservesNonNegative(t: PriceTable, name: string)
    requires NonNegative(t)
    ensures NonNegative(Remove(t, name))
  {
  }

  /** Repeating a valid `AddOrUpdateProduct` changes nothing more. */
  lemma AddOrUpdateIdempotent(t: PriceTable, name: Option<string>, price: real)
    requires AddOrUpdate(t, name, price).Success?
    ensures var once := AddOrUpdate(t, name, price).value;
            AddOrUpdate(once, name, price) == Success(once)
  {
    var once := AddOrUpdate(t, name, price).value;
    assert once[name.value := price] == once;
  }

  /** A product name of nothing but white space, such as a no-break space or
      a tab, is refused, whatever the price. */
  lemma WhiteSpaceNameRefused(t: PriceTable, price: real)
    ensures AddOrUpdate(t, Some("\U{00A0}"), price) == Failure(EmptyNameError)
    ensures AddOrUpdate(t, Some(" \t "), price) == Failure(EmptyNameError)
  {
    assert IsWhiteSpace("\U{00A0}"[0]);
    assert IsWhiteSpace(" \t "[0]) && IsWhiteSpace(" \t "[1]) && IsWhiteSpace(" \t "[2]);
  }

  /** Removing an absent product leaves the table as it is. */
  lemma RemoveAbsentUnchanged(t: PriceTable, name: string)
    requires !Contains(t, name)
    ensures Remove(t, name) == t
  {
    assert Remove(t, name).Keys == t.Keys;
  }

  /** After a valid `AddOrUpdateProduct` the lookup returns the new price;
      after a removal it fails. */
  lemma LookupAfterUpdate(t: PriceTable, name: string, price: real)
    requires AddOrUpdate(t, Some(name), price).Success?
    ensures Lookup(AddOrUpdate(t, Some(name), price).value, name) == Success(price)
    ensures Lookup(Remove(t, name), name) == Failure(NotFound(name))
  {
  }
}

/** The read-only catalog of the service project
    (LegacyOrderService/Data/ProductRepository.cs): seeded once, never changed,
    so its two queries are functions of a constant. */
module LegacyProductRepository {

  import opened Wrappers
  import opened Exceptions
  import opened PriceTables

  const Catalog: PriceTable := SeedPrices

  /** `ProductExists`: exactly the three seeded products are known. */
  function ProductExists(name: string): (b: bool)
    ensures b <==> name == "Widget" || name == "Gadget" || name == "Doohickey"
  {
    Contains(Catalog, name)
  }

  /** `GetPriceAsync`: succeeds exactly for the products `ProductExists`
      knows, with the seeded price, and otherwise throws
      ProductNotFoundException. */
  function GetPrice(name: string): (r: Result<real, Exception>)
    ensures r.Success? <==> ProductExists(name)
    ensures name == "Widget" ==> r == Success(12.99)
    ensures name == "Gadget" ==> r == Success(15.49)
    ensures name == "Doohickey" ==> r == Success(8.75)
    ensures !ProductExists(name) ==> r == Failure(ProductNotFoundException("Product '" + name + "' not found."))
  {
    Lookup(Catalog, name)
  }

  /** The catalog holds exactly the three seeded entries. */
  lemma CatalogContents()
    ensures Catalog.Keys == {"Widget", "Gadget", "Doohickey"}
    ensures Catalog["Widget"] == 12.99 && Catalog["Gadget"] == 15.49 && Catalog["Doohickey"] == 8.75
  {
  }

  /** The cases the repository's tests exercise. */
  lemma CatalogExamples()
    ensures ProductExists("Widget")
    ensures !ProductExists("NonExistent")
    ensures GetPrice("Gadget") == Success(15.49)
    ensures GetPrice("UnknownItem").Failure? && GetPrice("UnknownItem").error.ProductNotFoundException?
  {
  }
}
