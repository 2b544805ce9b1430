/**
  The patient record of the richer hospital variant (`Patient`): identity and contact
  fields, next of kin, room, procedures, bills, status, dates and insurance. The
  constructor normalises next of kin, procedures and insurance; `to_dict`/`from_dict`
  persist the record. Editing goes through a patch of typed answers (`PatientPatch`).
 */
module Patients {
  import opened Wrappers
  import opened Billing
  import opened Procedures
  import opened Text

  /** Next-of-kin details; every key is always present. */
  datatype NextOfKin = NextOfKin(name: string, number: string, email: string, relation: string)

  const EmptyKin: NextOfKin := NextOfKin("", "", "", "")

  /**
    The next-of-kin argument as received: a dictionary whose keys may be missing (`None`),
    or anything that is not a dictionary (`None`, a missing key in a stored record, ...).
   */
  datatype KinInput =
    | KinDict(name: Option<string>, number: Option<string>, email: Option<string>, relation: Option<string>)
    | NotADict

  /** Each key is copied when present and is `""` otherwise; a non-dictionary gives all `""`. */
  function NormalizeKin(k: KinInput): (n: NextOfKin)
    ensures k.NotADict? ==> n == EmptyKin
    ensures k.KinDict? ==>
      (n.name == k.name.GetOr("") && n.number == k.number.GetOr("")
       && n.email == k.email.GetOr("") && n.relation == k.relation.GetOr(""))
  {
    match k
    case NotADict => EmptyKin
    case KinDict(name, number, email, relation) =>
      NextOfKin(name.GetOr(""), number.GetOr(""), email.GetOr(""), relation.GetOr(""))
  }

  /** Insurance details; `coveragePercent` is a percentage of each bill the insurer pays. */
  datatype Insurance = Insurance(provider: string, policyNumber: string, coveragePercent: real)

  const NoInsurance: Insurance := Insurance("", "", 0.0)

  /** An insurance dictionary as received; a missing key is `None`. */
  datatype InsuranceDict = InsuranceDict(provider: Option<string>, policyNumber: Option<string>, coveragePercent: Option<real>)

  /** Missing keys default to `""` and coverage 0; no dictionary at all gives `NoInsurance`. */
  function NormalizeInsurance(i: Option<InsuranceDict>): (r: Insurance)
    ensures i.None? ==> r == NoInsurance
    ensures i.Some? ==>
      (r.provider == i.value.provider.GetOr("") && r.policyNumber == i.value.policyNumber.GetOr("")
       && r.coveragePercent == i.value.coveragePercent.GetOr(0.0))
  {
    match i
    case None => NoInsurance
    case Some(d) => Insurance(d.provider.GetOr(""), d.policyNumber.GetOr(""), d.coveragePercent.GetOr(0.0))
  }

  /** A normalised insurance written back as a dictionary and read again is unchanged. */
  lemma InsuranceRoundTrip(ins: Insurance)
    ensures NormalizeInsurance(Some(InsuranceDict(Some(ins.provider), Some(ins.policyNumber), Some(ins.coveragePercent)))) == ins
  {
  }

  /**
    Every field of a patient, as a value. `nextOfKin` is `None` only after an edit that
    answered "no" to the next-of-kin question; the constructor always fills it in.
   */
  datatype PatientValue = PatientValue(
    name: string, age: int, condition: string, number: string,
    phoneNumber: string, dateOfBirth: string, gender: string, email: string,
    address: string, identifier: string, nextOfKin: Option<NextOfKin>,
    roomNumber: Option<int>, procedures: seq<Procedure>, bills: seq<BillValue>,
    status: string, registerDate: Option<string>, dischargeDate: Option<string>,
    dateOfDeath: Option<string>, insurance: Insurance)

  /**
    A patient as a persisted dictionary. Keys that `from_dict` reads with a default are
    optional: `procedures` absent reads as `[]`, `status` absent (`None`) as "normal",
    `insurance` absent or null (`None`) as no insurance, and `nextOfKin` absent or null
    as `NotADict`.
   */
  datatype PatientDict = PatientDict(
    name: string, age: int, condition: string, number: string,
    phoneNumber: string, dateOfBirth: string, gender: string, email: string,
    address: string, identifier: string, nextOfKin: KinInput,
    roomNumber: Option<int>, procedures: seq<ProcedureDict>, bills: seq<BillDict>,
    status: Option<string>, registerDate: Option<string>, dischargeDate: Option<string>,
    dateOfDeath: Option<string>, insurance: Option<InsuranceDict>)

  function EncodeKin(k: Option<NextOfKin>): KinInput {
    match k
    case None => NotADict
    case Some(n) => KinDict(Some(n.name), Some(n.number), Some(n.email), Some(n.relation))
  }

  function EncodeInsurance(ins: Insurance): InsuranceDict {
    InsuranceDict(Some(ins.provider), Some(ins.policyNumber), Some(ins.coveragePercent))
  }

  /** `to_dict`: every field is written; bills through `Billing.to_dict`. */
  function EncodePatient(v: PatientValue): (d: PatientDict)
    ensures d.status == Some(v.status) && d.insurance.Some?
    ensures |d.bills| == |v.bills| && |d.procedures| == |v.procedures|
  {
    PatientDict(v.name, v.age, v.condition, v.number, v.phoneNumber, v.dateOfBirth, v.gender,
      v.email, v.address, v.identifier, EncodeKin(v.nextOfKin), v.roomNumber,
      EncodeProcedures(v.procedures), EncodeBills(v.bills), Some(v.status),
      v.registerDate, v.dischargeDate, v.dateOfDeath, Some(EncodeInsurance(v.insurance)))
  }

  /** `from_dict`: the constructor applied to the stored fields, with the defaults above. */
  function DecodePatient(d: PatientDict): (v: PatientValue)
    ensures v.nextOfKin == Some(NormalizeKin(d.nextOfKin))
    ensures v.procedures == NormalizeAll(d.procedures) && v.bills == DecodeBills(d.bills)
    ensures v.status == d.status.GetOr("normal")
    ensures v.insurance == NormalizeInsurance(d.insurance)
  {
    PatientValue(d.name, d.age, d.condition, d.number, d.phoneNumber, d.dateOfBirth, d.gender,
      d.email, d.address, d.identifier, Some(NormalizeKin(d.nextOfKin)), d.roomNumber,
      NormalizeAll(d.procedures), DecodeBills(d.bills), d.status.GetOr("normal"),
      d.registerDate, d.dischargeDate, d.dateOfDeath, NormalizeInsurance(d.insurance))
  }

  /** `from_dict(to_dict(p))` reproduces every field of a patient whose next of kin is set. */
  lemma PatientRoundTrip(v: PatientValue)
    requires v.nextOfKin.Some?
    ensures DecodePatient(EncodePatient(v)) == v
  {
    ProceduresRoundTrip(v.procedures);
    BillsRoundTrip(v.bills);
  }

  /** A next of kin removed by an edit comes back from storage as the empty next of kin. */
  lemma RemovedKinReloadsEmpty(v: PatientValue)
    requires v.nextOfKin.None?
    ensures DecodePatient(EncodePatient(v)) == v.(nextOfKin := Some(EmptyKin))
  {
    ProceduresRoundTrip(v.procedures);
    BillsRoundTrip(v.bills);
  }

  class Patient {
    var name: string
    var age: int
    var condition: string
    /** The patient number; no operation ever reassigns it. */
    const number: string
    var phoneNumber: string
    var dateOfBirth: string
    var gender: string
    var email: string
    var address: string
    var identifier: string
    var nextOfKin: Option<NextOfKin>
    var roomNumber: Option<int>
    var procedures: seq<Procedure>
    var billing: seq<Bill>
    var status: string
    var registerDate: Option<string>
    var dischargeDate: Option<string>
    var dateOfDeath: Option<string>
    var insurance: Insurance

    /**
      `Patient(...)`: next of kin, procedures and insurance are normalised; a patient
      starts with status "normal" and no bills unless they are given.
     */
    constructor (name: string, age: int, condition: string, number: string, phoneNumber: string,
                 dateOfBirth: string, gender: string, email: string, address: string, identifier: string,
                 kin: KinInput, roomNumber: Option<int> := None, procedures: Option<seq<ProcedureDict>> := None,
                 billing: Option<seq<Bill>> := None, status: string := "normal",
                 registerDate: Option<string> := None, dischargeDate: Option<string> := None,
                 dateOfDeath: Option<string> := None, insurance: Option<InsuranceDict> := None)
      ensures this.name == name && this.age == age && this.condition == condition && this.number == number
      ensures this.phoneNumber == phoneNumber && this.dateOfBirth == dateOfBirth && this.gender == gender
      ensures this.email == email && this.address == address && this.identifier == identifier
      ensures nextOfKin == Some(NormalizeKin(kin)) && this.roomNumber == roomNumber
      ensures this.procedures == NormalizeAll(procedures.GetOr([]))
      ensures this.billing == billing.GetOr([]) && this.status == status
      ensures this.registerDate == registerDate && this.dischargeDate == dischargeDate
      ensures this.dateOfDeath == dateOfDeath && this.insurance == NormalizeInsurance(insurance)
    {
      this.name, this.age, this.condition, this.number := name, age, condition, number;
      this.phoneNumber, this.dateOfBirth, this.gender := phoneNumber, dateOfBirth, gender;
      this.email, this.address, this.identifier := email, address, identifier;
      nextOfKin := Some(NormalizeKin(kin));
      this.roomNumber := roomNumber;
      this.procedures := NormalizeAll(procedures.GetOr([]));
      this.billing := billing.GetOr([]);
      this.status := status;
      this.registerDate, this.dischargeDate, this.dateOfDeath := registerDate, dischargeDate, dateOfDeath;
      this.insurance := NormalizeInsurance(insurance);
    }

    /** The whole record as a value, bills included. */
    function Value(): PatientValue
      reads this, billing
    {
      PatientValue(name, age, condition, number, phoneNumber, dateOfBirth, gender, email, address,
        identifier, nextOfKin, roomNumber, procedures, Values(billing), status, registerDate,
        dischargeDate, dateOfDeath, insurance)
    }

    /** `add_bill`: the bill object goes at the end; earlier bills are the same objects. */
    method AddBill(bill: Bill)
      modifies this`billing
      ensures billing == old(billing) + [bill]
    {
      billing := billing + [bill];
    }

    /** `add_procedure`: one unbilled entry at the end. */
    method AddProcedure(date: string, description: string)
      modifies this`procedures
      ensures procedures == Appended(old(procedures), date, description)
    {
      procedures := procedures + [Procedure(date, description, false, map[])];
    }

    /** `mark_procedure_billed`: only an in-range index is flagged. */
    method MarkProcedureBilled(index: int)
      modifies this`procedures
      ensures procedures == MarkBilled(old(procedures), index)
      ensures BilledKept(old(procedures), procedures)
    {
      if 0 <= index < |procedures| {
        procedures := procedures[index := procedures[index].(billed := true)];
      }
    }

    /**
      One step of `generate_bills_from_procedures`: a fresh unpaid bill for procedure
      `index` goes at the end (`add_bill`) and the procedure is flagged
      (`mark_procedure_billed`).
     */
    method BillProcedure(index: int, amount: real) returns (bill: Bill)
      requires 0 <= index < |procedures|
      modifies this`billing, this`procedures
      ensures fresh(bill) && bill.Value() == BillValue(amount, BillDescription(old(procedures[index])), false)
      ensures billing == old(billing) + [bill]
      ensures procedures == old(procedures)[index := old(procedures[index]).(billed := true)]
    {
      bill := new Bill(amount, BillDescription(procedures[index]));
      AddBill(bill);
      MarkProcedureBilled(index);
    }

    /** `update_status`: stores any status, unchecked. */
    method UpdateStatus(newStatus: string)
      modifies this`status
      ensures status == newStatus
    {
      status := newStatus;
    }

    /**
      Stores the editable fields of `v` (everything except the number, room, procedures and
      bills, which must already agree), as `edit_patient` does field by field.
     */
    method SetRecord(v: PatientValue)
      requires v.number == number && v.roomNumber == roomNumber
      requires v.procedures == procedures && v.bills == Values(billing)
      modifies this
      ensures billing == old(billing)
      ensures Value() == v
    {
      SetPersonal(v);
      SetCare(v);
    }

    /** The identity and contact fields of `v`. */
    method SetPersonal(v: PatientValue)
      modifies this`name, this`age, this`phoneNumber, this`dateOfBirth, this`gender, this`email,
               this`address, this`identifier, this`condition
      ensures name == v.name && age == v.age && phoneNumber == v.phoneNumber && dateOfBirth == v.dateOfBirth
      ensures gender == v.gender && email == v.email && address == v.address && identifier == v.identifier
      ensures condition == v.condition
    {
      name := v.name;
      age := v.age;
      phoneNumber := v.phoneNumber;
      dateOfBirth := v.dateOfBirth;
      gender := v.gender;
      email := v.email;
      address := v.address;
      identifier := v.identifier;
      condition := v.condition;
    }

    /** The status, next of kin, dates and insurance of `v`. */
    method SetCare(v: PatientValue)
      modifies this`status, this`nextOfKin, this`dateOfDeath, this`registerDate, this`dischargeDate, this`insurance
      ensures status == v.status && nextOfKin == v.nextOfKin && dateOfDeath == v.dateOfDeath
      ensures registerDate == v.registerDate && dischargeDate == v.dischargeDate && insurance == v.insurance
    {
      status := v.status;
      nextOfKin := v.nextOfKin;
      dateOfDeath := v.dateOfDeath;
      registerDate := v.registerDate;
      dischargeDate := v.dischargeDate;
      insurance := v.insurance;
    }

    /** `to_dict`: decoding it gives back this record (next of kin set) or the empty next of kin. */
    function ToDict(): (d: PatientDict)
      reads this, billing
      ensures nextOfKin.Some? ==> DecodePatient(d) == Value()
      ensures nextOfKin.None? ==> DecodePatient(d) == Value().(nextOfKin := Some(EmptyKin))
    {
      PatientRoundTrip(Value().(nextOfKin := Some(nextOfKin.GetOr(EmptyKin))));
      RemovedKinReloadsEmpty(Value().(nextOfKin := None));
      EncodePatient(Value())
    }

    /** `Patient.from_dict`: a fresh patient with fresh bill objects holding the decoded record. */
    static method FromDict(d: PatientDict) returns (p: Patient)
      ensures fresh(p)
      ensures forall b :: b in p.billing ==> fresh(b)
      ensures p.Value() == DecodePatient(d)
    {
      var bills: seq<Bill> := [];
      var i := 0;
      while i < |d.bills|
        invariant 0 <= i <= |d.bills| && |bills| == i
        invariant forall b :: b in bills ==> fresh(b)
        invariant Values(bills) == DecodeBills(d.bills[..i])
      {
        var b := Bill.FromDict(d.bills[i]);
        assert d.bills[..i + 1] == d.bills[..i] + [d.bills[i]];
        bills := bills + [b];
        i := i + 1;
      }
      assert d.bills[..i] == d.bills;
      p := new Patient(d.name, d.age, d.condition, d.number, d.phoneNumber, d.dateOfBirth, d.gender,
        d.email, d.address, d.identifier, d.nextOfKin, d.roomNumber, Some(d.procedures), Some(bills),
        d.status.GetOr("normal"), d.registerDate, d.dischargeDate, d.dateOfDeath, d.insurance);
    }
  }

  /**
    The answer to "Is there a next of kin?", already classified after `.strip().lower()`:
    "no"/"n", "yes"/"y" (with the typed fields), or anything else (blank included).
   */
  datatype KinAnswer =
    | KinNo
    | KinYes(name: string, number: string, email: string, relation: string)
    | KinKeep

  /**
    The answer to "Does the patient have insurance?", classified like `KinAnswer`: "no"/"n",
    "yes"/"y", or anything else (blank included), which keeps the insurance. For yes,
    `coverage` is `None` when the answer was blank or not a number: both keep the current
    coverage.
   */
  datatype InsuranceAnswer =
    | InsuranceNo
    | InsuranceYes(provider: string, policyNumber: string, coverage: Option<real>)
    | InsuranceKeep

  /**
    Everything `edit_patient` reads from the user. Text answers are `""` when left blank;
    `age` is `None` when left blank. `dateOfDeath` is only asked when the new status is "death".
   */
  datatype PatientPatch = PatientPatch(
    name: string, age: Option<int>, phoneNumber: string, dateOfBirth: string, gender: string,
    email: string, address: string, identifier: string, condition: string, status: string,
    kin: KinAnswer, dateOfDeath: string, registerDate: string, dischargeDate: string,
    insurance: InsuranceAnswer)

  /** A patch that leaves every answer blank. */
  const BlankPatch: PatientPatch :=
    PatientPatch("", None, "", "", "", "", "", "", "", "", KinKeep, "", "", "", InsuranceKeep)

  /** The next of kin after the kin answer; "yes" edits the current one, or an empty one. */
  function EditedKin(current: Option<NextOfKin>, a: KinAnswer): (r: Option<NextOfKin>)
    ensures a.KinNo? ==> r.None?
    ensures a.KinKeep? ==> r == current
    ensures a.KinYes? ==>
              var base := current.GetOr(EmptyKin);
              r.Some? && r.value.name == OrKeep(a.name, base.name) && r.value.number == OrKeep(a.number, base.number)
              && r.value.email == OrKeep(a.email, base.email) && r.value.relation == OrKeep(a.relation, base.relation)
  {
    match a
    case KinNo => None
    case KinKeep => current
    case KinYes(n, num, e, rel) =>
      var base := current.GetOr(EmptyKin);
      Some(NextOfKin(OrKeep(n, base.name), OrKeep(num, base.number), OrKeep(e, base.email), OrKeep(rel, base.relation)))
  }

  /** The insurance after the insurance answer; "no" drops it to `NoInsurance`. */
  function EditedInsurance(current: Insurance, a: InsuranceAnswer): (r: Insurance)
    ensures a.InsuranceNo? ==> r == NoInsurance
    ensures a.InsuranceKeep? ==> r == current
    ensures a.InsuranceYes? ==>
              r.provider == OrKeep(a.provider, current.provider) && r.policyNumber == OrKeep(a.policyNumber, current.policyNumber)
              && r.coveragePercent == a.coverage.GetOr(current.coveragePercent)
  {
    match a
    case InsuranceNo => NoInsurance
    case InsuranceKeep => current
    case InsuranceYes(p, pol, cov) =>
      Insurance(OrKeep(p, current.provider), OrKeep(pol, current.policyNumber), cov.GetOr(current.coveragePercent))
  }

  /**
    `edit_patient` on a record: each field takes its answer or keeps its value; the status
    is not checked; the date of death is kept or replaced when the new status is "death"
    and cleared otherwise. Number, room, procedures and bills are never edited.
   */
  function Edited(v: PatientValue, p: PatientPatch): (r: PatientValue)
    ensures r.number == v.number && r.roomNumber == v.roomNumber
    ensures r.procedures == v.procedures && r.bills == v.bills
    ensures r.status != "death" ==> r.dateOfDeath.None?
    ensures r.status == "death" ==> r.dateOfDeath == OrKeepOpt(p.dateOfDeath, v.dateOfDeath)
    ensures r.status == OrKeep(p.status, v.status)
    ensures r.name == OrKeep(p.name, v.name) && r.age == p.age.GetOr(v.age) && r.condition == OrKeep(p.condition, v.condition)
    ensures r.phoneNumber == OrKeep(p.phoneNumber, v.phoneNumber) && r.dateOfBirth == OrKeep(p.dateOfBirth, v.dateOfBirth)
    ensures r.gender == OrKeep(p.gender, v.gender) && r.email == OrKeep(p.email, v.email)
    ensures r.address == OrKeep(p.address, v.address) && r.identifier == OrKeep(p.identifier, v.identifier)
    ensures r.registerDate == OrKeepOpt(p.registerDate, v.registerDate)
    ensures r.dischargeDate == OrKeepOpt(p.dischargeDate, v.dischargeDate)
    ensures r.nextOfKin == EditedKin(v.nextOfKin, p.kin) && r.insurance == EditedInsurance(v.insurance, p.insurance)
  {
    var status := OrKeep(p.status, v.status);
    PatientValue(
      OrKeep(p.name, v.name), p.age.GetOr(v.age), OrKeep(p.condition, v.condition), v.number,
      OrKeep(p.phoneNumber, v.phoneNumber), OrKeep(p.dateOfBirth, v.dateOfBirth), OrKeep(p.gender, v.gender),
      OrKeep(p.email, v.email), OrKeep(p.address, v.address), OrKeep(p.identifier, v.identifier),
      EditedKin(v.nextOfKin, p.kin), v.roomNumber, v.procedures, v.bills, status,
      OrKeepOpt(p.registerDate, v.registerDate), OrKeepOpt(p.dischargeDate, v.dischargeDate),
      if status == "death" then OrKeepOpt(p.dateOfDeath, v.dateOfDeath) else None,
      EditedInsurance(v.insurance, p.insurance))
  }

  /**
    Leaving every answer blank changes nothing, except that a date of death stored on a
    patient whose status is not "death" is cleared.
   */
  lemma BlankEditKeeps(v: PatientValue)
    ensures v.status == "death" || v.dateOfDeath.None? ==> Edited(v, BlankPatch) == v
    ensures v.status != "death" ==> Edited(v, BlankPatch) == v.(dateOfDeath := None)
  {
  }

  /**
    When every answer is typed (no blank, "yes" to both questions with every detail and a
    numeric coverage), the edited record holds exactly the answers; only the number, room,
    procedures and bills are the old ones.
   */
  lemma FullEditSetsAnswers(v: PatientValue, p: PatientPatch)
    requires p.name != "" && p.age.Some? && p.condition != "" && p.phoneNumber != ""
    requires p.dateOfBirth != "" && p.gender != "" && p.email != "" && p.address != "" && p.identifier != ""
    requires p.status != "" && p.dateOfDeath != "" && p.registerDate != "" && p.dischargeDate != ""
    requires p.kin.KinYes? && p.kin.name != "" && p.kin.number != "" && p.kin.email != "" && p.kin.relation != ""
    requires p.insurance.InsuranceYes? && p.insurance.provider != "" && p.insurance.policyNumber != ""
    requires p.insurance.coverage.Some?
    ensures Edited(v, p) == PatientValue(
              p.name, p.age.value, p.condition, v.number, p.phoneNumber, p.dateOfBirth, p.gender,
              p.email, p.address, p.identifier,
              Some(NextOfKin(p.kin.name, p.kin.number, p.kin.email, p.kin.relation)),
              v.roomNumber, v.procedures, v.bills, p.status, Some(p.registerDate), Some(p.dischargeDate),
              if p.status == "death" then Some(p.dateOfDeath) else None,
              Insurance(p.insurance.provider, p.insurance.policyNumber, p.insurance.coverage.value))
  {
  }

  /** Editing twice with the same patch gives the same record as editing once. */
  lemma EditIdempotent(v: PatientValue, p: PatientPatch)
    ensures Edited(Edited(v, p), p) == Edited(v, p)
  {
  }
}
