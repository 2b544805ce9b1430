/**
  Patient-number allocation, shared verbatim by both hospital variants: collect every
  all-digit patient number, in memory or in the persisted records, and return the
  largest plus one as text, or "1001" when there is none.
 */
module Allocation {
  import opened Wrappers
  import opened Decimal

  /** The baseline number handed out when no numeric patient number exists. */
  const Baseline: string := "1001"

  /** Some identifier in `ids` is all digits. */
  predicate HasNumeric(ids: seq<string>) {
    exists i :: 0 <= i < |ids| && IsDigits(ids[i])
  }

  /** The largest value among the all-digit identifiers of `ids`; non-digit ones are ignored. */
  function MaxNumeric(ids: seq<string>): (r: Option<nat>)
    ensures r.None? <==> !HasNumeric(ids)
    ensures r.Some? ==> exists i :: 0 <= i < |ids| && IsDigits(ids[i]) && ValueOf(ids[i]) == r.value
    ensures r.Some? ==> forall i :: 0 <= i < |ids| && IsDigits(ids[i]) ==> ValueOf(ids[i]) <= r.value
  {
    if ids == [] then None
    else
      var rest := MaxNumeric(ids[..|ids| - 1]);
      var last := ids[|ids| - 1];
      assert forall i :: 0 <= i < |ids| - 1 ==> ids[..|ids| - 1][i] == ids[i];
      if !IsDigits(last) then rest
      else if rest.None? || ValueOf(last) > rest.value then Some(ValueOf(last))
      else rest
  }

  /**
    The number `generate_patient_number` returns for the patient numbers in memory
    followed by those persisted.
   */
  function NextPatientNumber(ids: seq<string>): (r: string)
    ensures IsDigits(r)
    ensures !HasNumeric(ids) ==> r == Baseline
    ensures HasNumeric(ids) ==> ValueOf(r) == MaxNumeric(ids).value + 1
  {
    match MaxNumeric(ids)
    case None => Baseline
    case Some(m) => FromNat(m + 1)
  }

  /** The allocated number is larger than every numeric identifier, hence none of `ids`. */
  lemma NextPatientNumberIsFresh(ids: seq<string>)
    ensures forall i :: 0 <= i < |ids| && IsDigits(ids[i]) ==> ValueOf(ids[i]) < ValueOf(NextPatientNumber(ids))
    ensures NextPatientNumber(ids) !in ids
  {
    var r := NextPatientNumber(ids);
    if HasNumeric(ids) {
      assert forall i :: 0 <= i < |ids| && IsDigits(ids[i]) ==> ValueOf(ids[i]) < ValueOf(r);
    } else {
      assert forall i :: 0 <= i < |ids| ==> !IsDigits(ids[i]);
    }
  }

  /**
    Once some number is all digits, adding numbers (in memory or on disk) never makes the
    allocator hand out a smaller number. Without one it may: see `FirstShortNumberDrops`.
   */
  lemma {:induction false} NextPatientNumberMonotone(ids: seq<string>, more: seq<string>)
    requires HasNumeric(ids)
    ensures ValueOf(NextPatientNumber(ids)) <= ValueOf(NextPatientNumber(ids + more))
  {
    var i :| 0 <= i < |ids| && IsDigits(ids[i]) && ValueOf(ids[i]) == MaxNumeric(ids).value;
    assert (ids + more)[i] == ids[i];
  }

  /**
    The baseline is not a floor: with nothing numeric the allocator gives "1001", but a
    single stored number "5" makes it give "6".
   */
  lemma FirstShortNumberDrops()
    ensures NextPatientNumber([]) == "1001"
    ensures NextPatientNumber(["5"]) == "6"
    ensures ValueOf(NextPatientNumber([] + ["5"])) < ValueOf(NextPatientNumber([]))
  {
    assert ["5"][..0] == [];
    assert ValueOf("5") == 5;
    assert MaxNumeric(["5"]) == Some(5);
    assert FromNat(6) == "6";
    assert [] + ["5"] == ["5"];
    assert "1001"[..3] == "100" && "100"[..2] == "10" && "10"[..1] == "1";
    assert ValueOf("1001") == 1001;
  }

  /** The two worked cases: an empty store gives "1001"; persisted 1001 and 1002 give "1003". */
  lemma AllocationExamples()
    ensures NextPatientNumber([]) == "1001"
    ensures NextPatientNumber(["1001", "1002"]) == "1003"
  {
    var ids := ["1001", "1002"];
    assert ids[..1] == ["1001"] && ["1001"][..0] == [];
    assert ValueOf("1") == 1 && ValueOf("10") == 10 && ValueOf("100") == 100;
    assert "1001"[..3] == "100" && "100"[..2] == "10" && "10"[..1] == "1";
    assert ValueOf("1001") == 1001;
    assert "1002"[..3] == "100";
    assert ValueOf("1002") == 1002;
    assert MaxNumeric(ids) == Some(1002);
    assert FromNat(1) == "1" && FromNat(10) == "10" && FromNat(100) == "100";
    assert FromNat(1003) == "1003";
  }
}
