/**
  The patient record of the simpler hospital variant (`Patient` of Hospital): name, age,
  condition, number, room, procedures, bills and status. The constructor gives every
  procedure a `billed` flag; `to_dict`/`from_dict` persist the record.
 */
module BasicPatients {
  import opened Wrappers
  import opened Billing
  import opened Procedures
  import opened Text

  /** Every field of a patient, as a value. */
  datatype BasicPatientValue = BasicPatientValue(
    name: string, age: int, condition: string, number: string, roomNumber: Option<int>,
    procedures: seq<Procedure>, bills: seq<BillValue>, status: string)

  /**
    A patient as a persisted dictionary: `procedures` and `billing` absent read as `[]`,
    `room_number` absent as `None`, and `status` absent (`None`) as "normal".
   */
  datatype BasicPatientDict = BasicPatientDict(
    name: string, age: int, condition: string, number: string, roomNumber: Option<int>,
    procedures: seq<ProcedureDict>, bills: seq<BillDict>, status: Option<string>)

  /** `to_dict`: every field is written; bills through `Billing.to_dict`. */
  function EncodeBasicPatient(v: BasicPatientValue): (d: BasicPatientDict)
    ensures d.status == Some(v.status)
    ensures |d.bills| == |v.bills| && |d.procedures| == |v.procedures|
    ensures forall i :: 0 <= i < |v.procedures| ==> d.procedures[i].billed.Some?
  {
    BasicPatientDict(v.name, v.age, v.condition, v.number, v.roomNumber,
      EncodeProcedures(v.procedures), EncodeBills(v.bills), Some(v.status))
  }

  /** `from_dict`: the constructor applied to the stored fields, with the defaults above. */
  function DecodeBasicPatient(d: BasicPatientDict): (v: BasicPatientValue)
    ensures v.name == d.name && v.age == d.age && v.condition == d.condition && v.number == d.number
    ensures v.roomNumber == d.roomNumber
    ensures v.procedures == NormalizeAll(d.procedures) && v.bills == DecodeBills(d.bills)
    ensures v.status == d.status.GetOr("normal")
  {
    BasicPatientValue(d.name, d.age, d.condition, d.number, d.roomNumber,
      NormalizeAll(d.procedures), DecodeBills(d.bills), d.status.GetOr("normal"))
  }

  /** `from_dict(to_dict(p))` reproduces every field. */
  lemma BasicPatientRoundTrip(v: BasicPatientValue)
    ensures DecodeBasicPatient(EncodeBasicPatient(v)) == v
  {
    ProceduresRoundTrip(v.procedures);
    BillsRoundTrip(v.bills);
  }

  class BasicPatient {
    var name: string
    var age: int
    var condition: string
    /** The patient number; no operation ever reassigns it. */
    const number: string
    var roomNumber: Option<int>
    var procedures: seq<Procedure>
    var billing: seq<Bill>
    var status: string

    /**
      `Patient(name, age, condition, number, ...)`: procedures get their `billed` flag; a
      patient starts with status "normal", no procedures and no bills unless they are given.
     */
    constructor (name: string, age: int, condition: string, number: string, roomNumber: Option<int> := None,
                 procedures: Option<seq<ProcedureDict>> := None, billing: Option<seq<Bill>> := None,
                 status: string := "normal")
      ensures this.name == name && this.age == age && this.condition == condition && this.number == number
      ensures this.roomNumber == roomNumber && this.procedures == NormalizeAll(procedures.GetOr([]))
      ensures this.billing == billing.GetOr([]) && this.status == status
    {
      this.name, this.age, this.condition, this.number := name, age, condition, number;
      this.roomNumber := roomNumber;
      this.procedures := NormalizeAll(procedures.GetOr([]));
      this.billing := billing.GetOr([]);
      this.status := status;
    }

    /** The whole record as a value, bills included. */
    function Value(): BasicPatientValue
      reads this, billing
    {
      BasicPatientValue(name, age, condition, number, roomNumber, procedures, Values(billing), status)
    }

    /** `add_bill`: the bill object goes at the end; earlier bills are the same objects. */
    method AddBill(bill: Bill)
      modifies this`billing
      ensures billing == old(billing) + [bill]
    {
      billing := billing + [bill];
    }

    /** `add_procedure`: one unbilled entry at the end. */
    method AddProcedure(date: string, description: string)
      modifies this`procedures
      ensures procedures == Appended(old(procedures), date, description)
    {
      procedures := procedures + [Procedure(date, description, false, map[])];
    }

    /** `mark_procedure_billed`: only an in-range index is flagged. */
    method MarkProcedureBilled(index: int)
      modifies this`procedures
      ensures procedures == MarkBilled(old(procedures), index)
      ensures BilledKept(old(procedures), procedures)
    {
      if 0 <= index < |procedures| {
        procedures := procedures[index := procedures[index].(billed := true)];
      }
    }

    /**
      One step of `generate_bills_from_procedures`: a fresh unpaid bill for procedure
      `index` goes at the end (`add_bill`) and the procedure is flagged
      (`mark_procedure_billed`).
     */
    method BillProcedure(index: int, amount: real) returns (bill: Bill)
      requires 0 <= index < |procedures|
      modifies this`billing, this`procedures
      ensures fresh(bill) && bill.Value() == BillValue(amount, BillDescription(old(procedures[index])), false)
      ensures billing == old(billing) + [bill]
      ensures procedures == old(procedures)[index := old(procedures[index]).(billed := true)]
    {
      bill := new Bill(amount, BillDescription(procedures[index]));
      AddBill(bill);
      MarkProcedureBilled(index);
    }

    /** `update_status`: stores any status, unchecked. */
    method UpdateStatus(newStatus: string)
      modifies this`status
      ensures status == newStatus
    {
      status := newStatus;
    }

    /** `to_dict`: decoding it gives back this record. */
    function ToDict(): (d: BasicPatientDict)
      reads this, billing
      ensures DecodeBasicPatient(d) == Value()
    {
      BasicPatientRoundTrip(Value());
      EncodeBasicPatient(Value())
    }

    /** `Patient.from_dict`: a fresh patient with fresh bill objects holding the decoded record. */
    static method FromDict(d: BasicPatientDict) returns (p: BasicPatient)
      ensures fresh(p)
      ensures forall b :: b in p.billing ==> fresh(b)
      ensures p.Value() == DecodeBasicPatient(d)
    {
      var bills: seq<Bill> := [];
      var i := 0;
      while i < |d.bills|
        invariant 0 <= i <= |d.bills| && |bills| == i
        invariant forall b :: b in bills ==> fresh(b)
        invariant Values(bills) == DecodeBills(d.bills[..i])
      {
        var b := Bill.FromDict(d.bills[i]);
        assert d.bills[..i + 1] == d.bills[..i] + [d.bills[i]];
        bills := bills + [b];
        i := i + 1;
      }
      assert d.bills[..i] == d.bills;
      p := new BasicPatient(d.name, d.age, d.condition, d.number, d.roomNumber, Some(d.procedures), Some(bills),
        d.status.GetOr("normal"));
    }
  }

  /**
    `edit_patient` of the simpler variant on a record: name, age, condition and status
    take their answers (`""` or `None`: blank keeps); the status is not checked; nothing
    else changes.
   */
  function BasicEdited(v: BasicPatientValue, name: string, age: Option<int>, condition: string, status: string)
    : (r: BasicPatientValue)
    ensures r.number == v.number && r.roomNumber == v.roomNumber
    ensures r.procedures == v.procedures && r.bills == v.bills
    ensures r.name == OrKeep(name, v.name) && r.age == age.GetOr(v.age)
    ensures r.condition == OrKeep(condition, v.condition) && r.status == OrKeep(status, v.status)
  {
    v.(name := OrKeep(name, v.name), age := age.GetOr(v.age), condition := OrKeep(condition, v.condition),
       status := OrKeep(status, v.status))
  }

  /** Leaving every answer blank changes nothing. */
  lemma BasicBlankEditKeeps(v: BasicPatientValue)
    ensures BasicEdited(v, "", None, "", "") == v
  {
  }

  /** Typed answers (none blank) become the name, age, condition and status; nothing else changes. */
  lemma BasicFullEditSetsAnswers(v: BasicPatientValue, name: string, age: int, condition: string, status: string)
    requires name != "" && condition != "" && status != ""
    ensures BasicEdited(v, name, Some(age), condition, status)
            == v.(name := name, age := age, condition := condition, status := status)
  {
  }

  /** Editing twice with the same answers gives the same record as editing once. */
  lemma BasicEditIdempotent(v: BasicPatientValue, name: string, age: Option<int>, condition: string, status: string)
    ensures BasicEdited(BasicEdited(v, name, age, condition, status), name, age, condition, status)
            == BasicEdited(v, name, age, condition, status)
  {
  }
}
