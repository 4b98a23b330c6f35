/** The `Order` record: a customer's order of some quantity of one product at
    a unit price. */
module Orders {

  import opened Wrappers
  import opened DotNetText

  /** A positional record: exactly four components and value equality.
      `Total` is derived from two of them and is not a component. */
  datatype Order = Order(customerName: string, productName: string, quantity: int, price: real) {

    /** The amount due: quantity times unit price. */
    function Total(): (t: real)
      ensures quantity == 0 || price == 0.0 ==> t == 0.0
      ensures quantity > 0 && price >= 0.0 ==> t >= price
    {
      var q := quantity as real;
      assert q * price == (q - 1.0) * price + price;
      assert q >= 1.0 && price >= 0.0 ==> (q - 1.0) * price >= 0.0;
      q * price
    }
  }

  /** Record equality: an order is fully determined by its four components,
      and so is its total. */
  lemma ComponentwiseEquality(a: Order, b: Order)
    requires a.customerName == b.customerName && a.productName == b.productName
    requires a.quantity == b.quantity && a.price == b.price
    ensures a == b
    ensures a.Total() == b.Total() == a.quantity as real * a.price
  {
  }

  // ---------------------------------------------------------------------------
  // ToString

  /** The four lines of `ToString`, in order. How a double is printed is not
      modelled: `formatDouble` stands for it. */
  function Lines(o: Order, formatDouble: real -> string): (lines: seq<string>)
    ensures |lines| == 4
    ensures |lines[0]| >= 10 && lines[0][..10] == "Customer: " && lines[0][10..] == o.customerName
    ensures |lines[1]| >= 9 && lines[1][..9] == "Product: " && lines[1][9..] == o.productName
    ensures |lines[2]| >= 10 && lines[2][..10] == "Quantity: " && lines[2][10..] == FormatInt(o.quantity)
    ensures |lines[3]| >= 8 && lines[3][..8] == "Total: $" && lines[3][8..] == formatDouble(o.Total())
  {
    [ "Customer: " + o.customerName,
      "Product: " + o.productName,
      "Quantity: " + FormatInt(o.quantity),
      "Total: $" + formatDouble(o.Total()) ]
  }

  /** Joins lines with a newline between each two. */
  function JoinLines(lines: seq<string>): string
  {
    if |lines| == 0 then ""
    else if |lines| == 1 then lines[0]
    else lines[0] + "\n" + JoinLines(lines[1..])
  }

  /** `Order.ToString()`. */
  function ToString(o: Order, formatDouble: real -> string): (s: string)
    ensures var lines := Lines(o, formatDouble);
            s == lines[0] + "\n" + lines[1] + "\n" + lines[2] + "\n" + lines[3]
  {
    var lines := Lines(o, formatDouble);
    JoinFour(lines);
    JoinLines(lines)
  }

  lemma JoinFour(lines: seq<string>)
    requires |lines| == 4
    ensures JoinLines(lines) == lines[0] + "\n" + lines[1] + "\n" + lines[2] + "\n" + lines[3]
  {
    var a, b, c, d := lines[0], lines[1], lines[2], lines[3];
    assert lines[3..] == [d];
    assert JoinLines(lines[2..]) == c + "\n" + d;
    assert JoinLines(lines[1..]) == b + "\n" + (c + "\n" + d);
  }

  /** Splits at every newline (an independent reading of a printed order). */
  function SplitLines(s: string): (lines: seq<string>)
    ensures |lines| > 0
    decreases |s|
  {
    if |s| == 0 then [""]
    else if s[0] == '\n' then [""] + SplitLines(s[1..])
    else
      var rest := SplitLines(s[1..]);
      [[s[0]] + rest[0]] + rest[1..]
  }

  predicate NoNewline(s: string) {
    forall i :: 0 <= i < |s| ==> s[i] != '\n'
  }

  lemma {:induction false} SplitSingle(a: string)
    requires NoNewline(a)
    ensures SplitLines(a) == [a]
    decreases |a|
  {
    if |a| > 0 {
      SplitSingle(a[1..]);
      assert [a[0]] + a[1..] == a;
    }
  }

  lemma {:induction false} SplitAfterLine(a: string, b: string)
    requires NoNewline(a)
    ensures SplitLines(a + "\n" + b) == [a] + SplitLines(b)
    decreases |a|
  {
    var s := a + "\n" + b;
    if |a| == 0 {
      assert s[1..] == b;
    } else {
      assert s[1..] == a[1..] + "\n" + b;
      SplitAfterLine(a[1..], b);
      assert [a[0]] + a[1..] == a;
    }
  }

  lemma {:induction false} SplitJoin(lines: seq<string>)
    requires |lines| > 0
    requires forall i :: 0 <= i < |lines| ==> NoNewline(lines[i])
    ensures SplitLines(JoinLines(lines)) == lines
    decreases |lines|
  {
    if |lines| == 1 {
      SplitSingle(lines[0]);
    } else {
      SplitJoin(lines[1..]);
      SplitAfterLine(lines[0], JoinLines(lines[1..]));
    }
  }

  lemma LinesHaveNoNewline(o: Order, formatDouble: real -> string)
    requires NoNewline(o.customerName) && NoNewline(o.productName)
    requires NoNewline(formatDouble(o.Total()))
    ensures forall i :: 0 <= i < 4 ==> NoNewline(Lines(o, formatDouble)[i])
  {
    var q := FormatInt(o.quantity);
    assert NoNewline(q) by {
      if o.quantity < 0 {
        forall j | 1 <= j < |q| ensures IsDigit(q[j]) { assert q[j] == q[1..][j - 1]; }
      }
    }
  }

  /** The printed order reads back line by line: Customer, Product, Quantity
      and Total in that order, the quantity parses back to itself, and the
      price appears only through the total. */
  lemma ToStringFieldOrder(o: Order, formatDouble: real -> string)
    requires NoNewline(o.customerName) && NoNewline(o.productName)
    requires NoNewline(formatDouble(o.Total()))
    requires Int32Min <= o.quantity <= Int32Max
    ensures var lines := SplitLines(ToString(o, formatDouble));
            && |lines| == 4
            && lines[0] == "Customer: " + o.customerName
            && lines[1] == "Product: " + o.productName
            && |lines[2]| > 10 && lines[2][..10] == "Quantity: " && TryParseInt32(Some(lines[2][10..])) == Some(o.quantity)
            && lines[3] == "Total: $" + formatDouble(o.Total())
  {
    var lines := Lines(o, formatDouble);
    LinesHaveNoNewline(o, formatDouble);
    SplitJoin(lines);
    assert lines[2][10..] == FormatInt(o.quantity);
    ParseFormatRoundTrip(o.quantity);
  }

  /** Two orders that differ only in a price that does not change the total
      print the same. */
  lemma PriceShownOnlyThroughTotal(a: Order, b: Order, formatDouble: real -> string)
    requires a.customerName == b.customerName && a.productName == b.productName
    requires a.quantity == b.quantity && a.Total() == b.Total()
    ensures ToString(a, formatDouble) == ToString(b, formatDouble)
  {
  }
}
