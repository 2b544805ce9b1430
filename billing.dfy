/**
  A patient's bill (`Billing`): an amount, a description and a paid flag that only
  `mark_paid` sets. Both hospital variants share this class; the richer one adds the
  insurance discount. Money and coverage are exact reals.
 */
module Billing {
  import opened Wrappers
  import opened Decimal

  /** The fields of one bill, as a value. */
  datatype BillValue = BillValue(amount: real, description: string, paid: bool)

  /** A bill as a persisted dictionary; `paid` is `None` when the key is absent. */
  datatype BillDict = BillDict(amount: real, description: string, paid: Option<bool>)

  /** `to_dict`: every key is written, `paid` included. */
  function EncodeBill(v: BillValue): (d: BillDict)
    ensures d.paid.Some?
  {
    BillDict(v.amount, v.description, Some(v.paid))
  }

  /** `from_dict`: `paid` defaults to false when the key is absent. */
  function DecodeBill(d: BillDict): (v: BillValue)
    ensures v.amount == d.amount && v.description == d.description
    ensures v.paid <==> d.paid == Some(true)
  {
    BillValue(d.amount, d.description, d.paid.GetOr(false))
  }

  /** Decoding what was encoded gives back the same bill, field for field. */
  lemma BillRoundTrip(v: BillValue)
    ensures DecodeBill(EncodeBill(v)) == v
  {
  }

  /** Decoding is injective on encoded bills: two bills with the same dictionary are equal. */
  lemma EncodeBillInjective(v: BillValue, w: BillValue)
    requires EncodeBill(v) == EncodeBill(w)
    ensures v == w
  {
    BillRoundTrip(v);
    BillRoundTrip(w);
  }

  /** Bill values of a list of bills, in order. */
  function DecodeBills(ds: seq<BillDict>): (vs: seq<BillValue>)
    ensures |vs| == |ds|
    ensures forall i :: 0 <= i < |ds| ==> vs[i] == DecodeBill(ds[i])
  {
    seq(|ds|, i requires 0 <= i < |ds| => DecodeBill(ds[i]))
  }

  function EncodeBills(vs: seq<BillValue>): (ds: seq<BillDict>)
    ensures |ds| == |vs|
    ensures forall i :: 0 <= i < |vs| ==> ds[i] == EncodeBill(vs[i])
  {
    seq(|vs|, i requires 0 <= i < |vs| => EncodeBill(vs[i]))
  }

  lemma BillsRoundTrip(vs: seq<BillValue>)
    ensures DecodeBills(EncodeBills(vs)) == vs
  {
    var rs := DecodeBills(EncodeBills(vs));
    forall i | 0 <= i < |vs|
      ensures rs[i] == vs[i]
    {
      BillRoundTrip(vs[i]);
    }
  }

  /** `get_discounted_amount`: the part of `amount` that coverage `c` (a percentage) leaves to pay. */
  function DiscountedAmount(amount: real, c: real): (r: real)
    ensures c == 0.0 ==> r == amount
    ensures c == 100.0 ==> r == 0.0
    ensures 0.0 <= c <= 100.0 && amount >= 0.0 ==> 0.0 <= r <= amount
    ensures r == amount * (1.0 - c / 100.0)
  {
    DiscountBounds(amount, c);
    amount - (c / 100.0) * amount
  }

  lemma DiscountBounds(amount: real, c: real)
    ensures 0.0 <= c <= 100.0 && amount >= 0.0 ==> 0.0 <= (c / 100.0) * amount <= amount
  {
    if 0.0 <= c <= 100.0 && amount >= 0.0 {
      var f := c / 100.0;
      assert 0.0 <= f <= 1.0;
      assert f * amount <= 1.0 * amount;
    }
  }

  /** The discount example: coverage 20 on 1000 leaves 800. */
  lemma DiscountExample()
    ensures DiscountedAmount(1000.0, 20.0) == 800.0
  {
  }

  /**
    The text Python's f-string gives a positive coverage inside the bill description:
    the whole part followed by ".0" (a float such as 20.0). Fractions are not rendered.
   */
  function PercentText(c: real): (r: string)
    requires c > 0.0
    ensures |r| >= 3 && r[|r| - 2..] == ".0"
    ensures IsDigits(r[..|r| - 2]) && ValueOf(r[..|r| - 2]) == c.Floor
  {
    var whole := FromNat(c.Floor);
    assert (whole + ".0")[..|whole|] == whole;
    whole + ".0"
  }

  /** `f"{description} (after {coverage}% insurance discount)"`. */
  function DiscountNote(description: string, c: real): (r: string)
    requires c > 0.0
    ensures |r| > |description|
    ensures r[..|description|] == description
  {
    description + " (after " + PercentText(c) + "% insurance discount)"
  }

  class Bill {
    var amount: real
    var description: string
    var paid: bool

    /** `Billing(amount, description, paid=False)`. */
    constructor (amount: real, description: string, paid: bool := false)
      ensures this.amount == amount && this.description == description && this.paid == paid
    {
      this.amount := amount;
      this.description := description;
      this.paid := paid;
    }

    function Value(): BillValue
      reads this
    {
      BillValue(amount, description, paid)
    }

    /** `mark_paid`: sets the flag and nothing else, so a second call changes nothing more. */
    method MarkPaid()
      modifies this`paid
      ensures paid
      ensures Value() == old(Value()).(paid := true)
    {
      paid := true;
    }

    /** `to_dict`. */
    function ToDict(): (d: BillDict)
      reads this
      ensures DecodeBill(d) == Value()
      ensures d == EncodeBill(Value())
    {
      BillDict(amount, description, Some(paid))
    }

    /** `Billing.from_dict`: a fresh bill holding the decoded fields. */
    static method FromDict(d: BillDict) returns (b: Bill)
      ensures fresh(b)
      ensures b.Value() == DecodeBill(d)
    {
      b := new Bill(d.amount, d.description, d.paid.GetOr(false));
    }

    /** `get_discounted_amount(c)` on this bill's amount. */
    function GetDiscountedAmount(c: real): (r: real)
      reads this
      ensures r == DiscountedAmount(amount, c)
    {
      amount - (c / 100.0) * amount
    }
  }

  /** The values of a sequence of bill objects, in order. */
  function Values(bills: seq<Bill>): (vs: seq<BillValue>)
    reads bills
    ensures |vs| == |bills|
    ensures forall i :: 0 <= i < |bills| ==> vs[i] == bills[i].Value()
  {
    seq(|bills|, i reads bills requires 0 <= i < |bills| => bills[i].Value())
  }

  lemma ValuesConcat(xs: seq<Bill>, ys: seq<Bill>)
    ensures Values(xs + ys) == Values(xs) + Values(ys)
  {
  }
}
