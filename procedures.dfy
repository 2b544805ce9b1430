/**
  Clinical procedures recorded against a patient, and the procedure-to-bill pipeline
  (`generate_bills_from_procedures`), identical in both hospital variants.
 */
module Procedures {
  import opened Wrappers
  import opened Billing

  /**
    One procedure entry `{date, description, billed, ...}`; `extra` holds any further keys
    of a stored entry, which every operation carries along untouched.
   */
  datatype Procedure = Procedure(date: string, description: string, billed: bool, extra: map<string, string>)

  /** A procedure as stored in a persisted record; `billed` is `None` when the key is absent. */
  datatype ProcedureDict = ProcedureDict(date: string, description: string, billed: Option<bool>, extra: map<string, string>)

  /** `{**proc, 'billed': proc.get('billed', False)}`: every other key kept, a missing flag is false. */
  function Normalize(d: ProcedureDict): (p: Procedure)
    ensures p.date == d.date && p.description == d.description && p.extra == d.extra
    ensures p.billed <==> d.billed == Some(true)
  {
    Procedure(d.date, d.description, d.billed.GetOr(false), d.extra)
  }

  function NormalizeAll(ds: seq<ProcedureDict>): (ps: seq<Procedure>)
    ensures |ps| == |ds|
    ensures forall i :: 0 <= i < |ds| ==> ps[i] == Normalize(ds[i])
  {
    seq(|ds|, i requires 0 <= i < |ds| => Normalize(ds[i]))
  }

  /** A stored procedure written back as a dictionary: the flag is always present. */
  function EncodeProcedure(p: Procedure): (d: ProcedureDict)
    ensures d.billed.Some? && d.extra == p.extra
  {
    ProcedureDict(p.date, p.description, Some(p.billed), p.extra)
  }

  function EncodeProcedures(ps: seq<Procedure>): (ds: seq<ProcedureDict>)
    ensures |ds| == |ps|
    ensures forall i :: 0 <= i < |ps| ==> ds[i] == EncodeProcedure(ps[i])
  {
    seq(|ps|, i requires 0 <= i < |ps| => EncodeProcedure(ps[i]))
  }

  lemma ProceduresRoundTrip(ps: seq<Procedure>)
    ensures NormalizeAll(EncodeProcedures(ps)) == ps
  {
    var rs := NormalizeAll(EncodeProcedures(ps));
    assert forall i :: 0 <= i < |ps| ==> rs[i] == ps[i];
  }

  /** `add_procedure(date, description)`: one unbilled entry at the end. */
  function Appended(ps: seq<Procedure>, date: string, description: string): (r: seq<Procedure>)
    ensures |r| == |ps| + 1 && r[..|ps|] == ps
    ensures r[|ps|] == Procedure(date, description, false, map[])
  {
    ps + [Procedure(date, description, false, map[])]
  }

  /** `mark_procedure_billed(index)`: only an in-range entry is flagged; nothing else changes. */
  function MarkBilled(ps: seq<Procedure>, index: int): (r: seq<Procedure>)
    ensures |r| == |ps|
    ensures forall i :: 0 <= i < |ps| && i != index ==> r[i] == ps[i]
    ensures 0 <= index < |ps| ==> r[index] == ps[index].(billed := true)
  {
    if 0 <= index < |ps| then ps[index := ps[index].(billed := true)] else ps
  }

  /** The billed flag only moves from false to true; dates, descriptions and other keys stay. */
  predicate BilledKept(before: seq<Procedure>, after: seq<Procedure>) {
    |before| == |after|
    && forall i :: 0 <= i < |before| ==>
         after[i].date == before[i].date && after[i].description == before[i].description
         && after[i].extra == before[i].extra && (before[i].billed ==> after[i].billed)
  }

  lemma MarkBilledKeepsFlags(ps: seq<Procedure>, index: int)
    ensures BilledKept(ps, MarkBilled(ps, index))
  {
  }

  /** `f"Procedure: {description} on {date}"`: the description of the bill made from a procedure. */
  function BillDescription(p: Procedure): string {
    "Procedure: " + p.description + " on " + p.date
  }

  /** The procedure at `i` is billed by this run: not yet billed and a valid amount was typed for it. */
  predicate Eligible(ps: seq<Procedure>, amounts: seq<Option<real>>, i: int)
    requires |amounts| == |ps|
  {
    0 <= i < |ps| && !ps[i].billed && amounts[i].Some?
  }

  /**
    The bills `generate_bills_from_procedures` appends, in procedure order: one unpaid bill
    with the raw amount (no insurance discount) for each eligible procedure.
    `amounts[i]` is the answer typed for procedure `i` (`None`: not a number, skipped).
   */
  function NewBills(ps: seq<Procedure>, amounts: seq<Option<real>>): (bs: seq<BillValue>)
    requires |amounts| == |ps|
    decreases |ps|
  {
    if ps == [] then []
    else
      var n := |ps| - 1;
      NewBills(ps[..n], amounts[..n])
        + (if !ps[n].billed && amounts[n].Some?
           then [BillValue(amounts[n].value, BillDescription(ps[n]), false)]
           else [])
  }

  /** One more procedure considered: its bill, if any, follows the bills of the earlier ones. */
  lemma NewBillsStep(ps: seq<Procedure>, amounts: seq<Option<real>>, i: int)
    requires |amounts| == |ps| && 0 <= i < |ps|
    ensures NewBills(ps[..i + 1], amounts[..i + 1]) ==
              NewBills(ps[..i], amounts[..i])
                + (if !ps[i].billed && amounts[i].Some?
                   then [BillValue(amounts[i].value, BillDescription(ps[i]), false)]
                   else [])
  {
    assert ps[..i + 1][..i] == ps[..i] && amounts[..i + 1][..i] == amounts[..i];
  }

  /** The procedures after the run: exactly the eligible ones become billed. */
  function AfterBilling(ps: seq<Procedure>, amounts: seq<Option<real>>): (r: seq<Procedure>)
    requires |amounts| == |ps|
    ensures |r| == |ps|
    ensures forall i :: 0 <= i < |ps| ==> r[i] == if Eligible(ps, amounts, i) then ps[i].(billed := true) else ps[i]
  {
    seq(|ps|, i requires 0 <= i < |ps| => if !ps[i].billed && amounts[i].Some? then ps[i].(billed := true) else ps[i])
  }

  /** The procedures part-way through the run: the eligible ones among the first `n` are billed. */
  function BilledUpTo(ps: seq<Procedure>, amounts: seq<Option<real>>, n: int): (r: seq<Procedure>)
    requires |amounts| == |ps| && 0 <= n <= |ps|
    ensures |r| == |ps|
    ensures forall i :: n <= i < |ps| ==> r[i] == ps[i]
  {
    seq(|ps|, i requires 0 <= i < |ps| => if i < n && !ps[i].billed && amounts[i].Some? then ps[i].(billed := true) else ps[i])
  }

  /** The run's start, one step of it, and its end. */
  lemma BilledUpToSteps(ps: seq<Procedure>, amounts: seq<Option<real>>, n: int)
    requires |amounts| == |ps| && 0 <= n < |ps|
    ensures BilledUpTo(ps, amounts, 0) == ps
    ensures BilledUpTo(ps, amounts, n + 1) ==
              if Eligible(ps, amounts, n) then BilledUpTo(ps, amounts, n)[n := ps[n].(billed := true)]
              else BilledUpTo(ps, amounts, n)
    ensures BilledUpTo(ps, amounts, |ps|) == AfterBilling(ps, amounts)
  {
  }

  /** Number of eligible procedures among the first `n`. */
  function CountEligible(ps: seq<Procedure>, amounts: seq<Option<real>>, n: nat): nat
    requires |amounts| == |ps| && n <= |ps|
  {
    if n == 0 then 0 else CountEligible(ps, amounts, n - 1) + (if Eligible(ps, amounts, n - 1) then 1 else 0)
  }

  /** Exactly one bill per eligible procedure, each unpaid, carrying its amount and description. */
  lemma {:induction false} NewBillsOnePerEligible(ps: seq<Procedure>, amounts: seq<Option<real>>)
    requires |amounts| == |ps|
    ensures |NewBills(ps, amounts)| == CountEligible(ps, amounts, |ps|)
    ensures forall b :: b in NewBills(ps, amounts) ==> !b.paid
    ensures forall b :: b in NewBills(ps, amounts) ==>
              exists i :: Eligible(ps, amounts, i) && b == BillValue(amounts[i].value, BillDescription(ps[i]), false)
    decreases |ps|
  {
    if ps != [] {
      var n := |ps| - 1;
      NewBillsOnePerEligible(ps[..n], amounts[..n]);
      CountEligibleRestrict(ps, amounts, n, n);
      forall b | b in NewBills(ps[..n], amounts[..n])
        ensures exists i :: Eligible(ps, amounts, i) && b == BillValue(amounts[i].value, BillDescription(ps[i]), false)
      {
        var i :| Eligible(ps[..n], amounts[..n], i) && b == BillValue(amounts[..n][i].value, BillDescription(ps[..n][i]), false);
        assert Eligible(ps, amounts, i);
      }
    }
  }

  /** Counting the first `m` entries does not depend on entries past `n`. */
  lemma {:induction false} CountEligibleRestrict(ps: seq<Procedure>, amounts: seq<Option<real>>, n: nat, m: nat)
    requires |amounts| == |ps| && m <= n <= |ps|
    ensures CountEligible(ps[..n], amounts[..n], m) == CountEligible(ps, amounts, m)
  {
    if m > 0 {
      CountEligibleRestrict(ps, amounts, n, m - 1);
    }
  }

  /** No procedure is left unbilled. */
  predicate AllBilled(ps: seq<Procedure>) {
    forall i :: 0 <= i < |ps| ==> ps[i].billed
  }

  /** On a fully billed list a run adds no bill and changes no procedure, whatever is typed. */
  lemma {:induction false} SecondRunAddsNothing(ps: seq<Procedure>, amounts: seq<Option<real>>)
    requires |amounts| == |ps|
    requires AllBilled(ps)
    ensures NewBills(ps, amounts) == []
    ensures AfterBilling(ps, amounts) == ps
    decreases |ps|
  {
    if ps != [] {
      var n := |ps| - 1;
      SecondRunAddsNothing(ps[..n], amounts[..n]);
    }
  }

  /** When every unbilled procedure received a valid amount, a run leaves every procedure billed. */
  lemma FullRunBillsAll(ps: seq<Procedure>, amounts: seq<Option<real>>)
    requires |amounts| == |ps|
    requires forall i :: 0 <= i < |ps| ==> amounts[i].Some?
    ensures AllBilled(AfterBilling(ps, amounts))
  {
  }

  /** A run never clears a billed flag and never touches dates, descriptions or other keys. */
  lemma RunKeepsFlags(ps: seq<Procedure>, amounts: seq<Option<real>>)
    requires |amounts| == |ps|
    ensures BilledKept(ps, AfterBilling(ps, amounts))
  {
  }
}
