/**
  The richer hospital engine (`HospitalSystem` of Hospital_System_Management): the
  patient list, the room map (room number to patient name) and the departments by name.
  What the menu reads from the keyboard arrives as parameters; persisted patient
  numbers arrive as a sequence; the register date is given by the caller.
 */
module Hospital {
  import opened Wrappers
  import opened Allocation
  import opened Billing
  import opened Procedures
  import opened Staffing
  import opened Departments
  import opened Patients
  import opened Lookup
  import opened Text
  import opened Records

  /** The statuses `update_patient_status` accepts. */
  predicate IsStatus(s: string) {
    s == "normal" || s == "surgery" || s == "emergency" || s == "death"
  }

  /** A patient's number; the field is never reassigned, so reading it needs no heap. */
  function NumberOf(p: Patient): string {
    p.number
  }

  /** Room number and name of each patient, in order, as the room map reads them. */
  function RoomEntries(ps: seq<Patient>): (es: seq<RoomEntry>)
    reads ps
    ensures |es| == |ps|
    ensures forall i :: 0 <= i < |ps| ==> es[i] == RoomEntry(ps[i].roomNumber, ps[i].name)
  {
    seq(|ps|, i reads ps requires 0 <= i < |ps| => RoomEntry(ps[i].roomNumber, ps[i].name))
  }

  /** Name and number of each patient, in order, as `find_patient` compares them. */
  function KeysOf(ps: seq<Patient>): (ks: seq<Key>)
    reads ps
    ensures |ks| == |ps|
    ensures forall i :: 0 <= i < |ps| ==> ks[i] == Key(ps[i].name, ps[i].number)
  {
    seq(|ps|, i reads ps requires 0 <= i < |ps| => Key(ps[i].name, ps[i].number))
  }

  /** Some patient of `ps` has this identifier. */
  predicate IdentifierTaken(ps: seq<Patient>, identifier: string)
    reads ps
  {
    exists i :: 0 <= i < |ps| && ps[i].identifier == identifier
  }

  /**
    The bill `generate_bill` stores: with a positive coverage, the discounted amount and an
    annotated description; otherwise the amount and description as given. Never paid.
   */
  function ChargedBill(ins: Insurance, amount: real, description: string): (b: BillValue)
    ensures !b.paid
    ensures ins.coveragePercent <= 0.0 ==> b == BillValue(amount, description, false)
    ensures ins.coveragePercent > 0.0 ==> b.amount == DiscountedAmount(amount, ins.coveragePercent)
    ensures ins.coveragePercent > 0.0 ==> |b.description| > |description| && b.description[..|description|] == description
    ensures 0.0 <= ins.coveragePercent <= 100.0 && amount >= 0.0 ==> 0.0 <= b.amount <= amount
  {
    if ins.coveragePercent > 0.0 then
      BillValue(DiscountedAmount(amount, ins.coveragePercent), DiscountNote(description, ins.coveragePercent), false)
    else
      BillValue(amount, description, false)
  }

  /** What the menu reports after an option that needs a patient. */
  datatype MenuOutcome = PatientNotFound | Deceased | NotNormal | Done

  /** What `update_patient_status` reports. */
  datatype StatusOutcome = StatusNotFound | InvalidStatus | StatusUpdated

  /** What `assign_patient_to_doctor_in_department` reports. */
  datatype AssignOutcome = NoSuchDepartment | NoSuchDoctor | Assigned(doctor: Staff<Patient>)

  class HospitalSystem {
    var patients: seq<Patient>
    var rooms: map<int, string>
    var departments: map<string, Department<Patient>>

    /**
      Patient numbers are distinct; each department is filed under its own name; the
      doctor and nurse rosters hold only doctors and nurses.
     */
    ghost predicate Valid()
      reads this, departments.Values
    {
      && NumbersDistinct(patients, NumberOf)
      && (forall k :: k in departments ==> departments[k].name == k && departments[k].RolesConsistent())
    }

    /** An empty hospital, as `__init__` leaves it when there is no database file. */
    constructor ()
      ensures Valid()
      ensures patients == [] && rooms == map[] && departments == map[]
    {
      patients, rooms, departments := [], map[], map[];
    }

    /**
      `add_patient`: a patient whose identifier is already on file is refused and nothing
      changes. Otherwise the patient gets the next number, is appended, and the room map
      records the room when a non-zero room was given.
     */
    method AddPatient(name: string, age: int, condition: string, phoneNumber: string, dateOfBirth: string,
                      gender: string, email: string, address: string, identifier: string, kin: KinInput,
                      room: Option<int>, insurance: Option<InsuranceDict>, persisted: seq<string>,
                      registerDate: string)
      returns (r: Option<Patient>)
      requires Valid()
      modifies this`patients, this`rooms
      ensures Valid()
      ensures r.None? <==> old(IdentifierTaken(patients, identifier))
      ensures r.None? ==> patients == old(patients) && rooms == old(rooms)
      ensures r.Some? ==> fresh(r.value) && patients == old(patients) + [r.value]
      ensures r.Some? ==> r.value.number == NextPatientNumber(NumbersOf(old(patients), NumberOf) + persisted)
      ensures r.Some? ==> r.value.number !in NumbersOf(old(patients), NumberOf)
      ensures r.Some? ==>
                (r.value.Value() ==
                   PatientValue(name, age, condition, r.value.number, phoneNumber, dateOfBirth, gender, email,
                                address, identifier, Some(NormalizeKin(kin)), room, [], [], "normal",
                                Some(registerDate), None, None, NormalizeInsurance(insurance)))
      ensures r.Some? ==> rooms == if RoomGiven(room) then old(rooms)[room.value := name] else old(rooms)
    {
      var i := 0;
      while i < |patients|
        invariant 0 <= i <= |patients|
        invariant forall j :: 0 <= j < i ==> patients[j].identifier != identifier
      {
        if patients[i].identifier == identifier {
          return None;
        }
        i := i + 1;
      }
      var number := NextPatientNumber(NumbersOf(patients, NumberOf) + persisted);
      NextPatientNumberIsFresh(NumbersOf(patients, NumberOf) + persisted);
      assert forall j :: 0 <= j < |patients| ==> (NumbersOf(patients, NumberOf) + persisted)[j] == patients[j].number;
      var p := new Patient(name, age, condition, number, phoneNumber, dateOfBirth, gender, email, address,
                           identifier, kin, room, registerDate := Some(registerDate), insurance := insurance);
      patients := patients + [p];
      if RoomGiven(room) {
        rooms := rooms[room.value := name];
      }
      r := Some(p);
    }

    /**
      `assign_room`: the patient's room is set and the room map points the room at the
      patient's name, whoever held it; the patient's previous room entry stays.
     */
    method AssignRoom(patient: Patient, room: int)
      requires Valid()
      modifies patient`roomNumber, this`rooms
      ensures Valid()
      ensures patient.roomNumber == Some(room)
      ensures rooms == old(rooms)[room := patient.name]
    {
      patient.roomNumber := Some(room);
      rooms := rooms[room := patient.name];
    }

    /** `generate_bill`: one fresh unpaid bill at the end, discounted by the patient's insurance. */
    method GenerateBill(patient: Patient, amount: real, description: string)
      modifies patient`billing
      ensures |patient.billing| == |old(patient.billing)| + 1
      ensures patient.billing[..|old(patient.billing)|] == old(patient.billing)
      ensures fresh(patient.billing[|old(patient.billing)|])
      ensures patient.billing[|old(patient.billing)|].Value() == ChargedBill(patient.insurance, amount, description)
    {
      var bill: Bill;
      var coverage := patient.insurance.coveragePercent;
      if coverage > 0.0 {
        var quote := new Bill(amount, description);
        var discounted := quote.GetDiscountedAmount(coverage);
        bill := new Bill(discounted, DiscountNote(description, coverage));
      } else {
        bill := new Bill(amount, description);
      }
      patient.AddBill(bill);
    }

    /**
      `mark_bill_paid`: with an index in range, the bill at that index is paid; any other
      answer (out of range, not a number: `None`) changes nothing. Amounts and descriptions
      never change, and no bill other than the chosen one changes.
     */
    method MarkBillPaid(patient: Patient, index: Option<int>) returns (marked: bool)
      modifies patient.billing
      ensures marked <==> index.Some? && 0 <= index.value < |patient.billing|
      ensures forall b :: b in patient.billing ==> b.amount == old(b.amount) && b.description == old(b.description)
      ensures forall b :: b in patient.billing ==> b.paid == (old(b.paid) || (marked && b == patient.billing[index.value]))
    {
      marked := false;
      if |patient.billing| == 0 {
        return;
      }
      if index.Some? && 0 <= index.value < |patient.billing| {
        patient.billing[index.value].MarkPaid();
        marked := true;
      }
    }

    /** The patient `find_patient` answers for `identifier`: the first listed one whose name or number it is. */
    function Found(identifier: string): (r: Option<Patient>)
      reads this, patients
      ensures r.Some? ==> r.value in patients
      ensures r.Some? <==> exists i :: 0 <= i < |patients| && (patients[i].name == identifier || patients[i].number == identifier)
    {
      match FirstMatch(KeysOf(patients), identifier)
      case None => None
      case Some(i) => Some(patients[i])
    }

    /** `find_patient`: the first patient, in list order, whose name or number is the identifier. */
    method FindPatient(identifier: string) returns (r: Option<Patient>)
      ensures r == Found(identifier)
    {
      var i := 0;
      while i < |patients|
        invariant 0 <= i <= |patients|
        invariant forall j :: 0 <= j < i ==> !Matches(KeysOf(patients)[j], identifier)
      {
        if patients[i].name == identifier || patients[i].number == identifier {
          assert Matches(KeysOf(patients)[i], identifier);
          return Some(patients[i]);
        }
        i := i + 1;
      }
      return None;
    }

    /**
      The update `update_patient_status` applies to the patient it found: a valid status is
      stored, "death" stores the date of death and any other valid status clears it; an
      invalid status changes nothing.
     */
    method SetStatus(patient: Patient, newStatus: string, deathDate: string) returns (accepted: bool)
      modifies patient`status, patient`dateOfDeath
      ensures accepted <==> IsStatus(newStatus)
      ensures accepted ==> patient.status == newStatus
      ensures accepted ==> patient.dateOfDeath == if newStatus == "death" then Some(deathDate) else None
      ensures !accepted ==> patient.status == old(patient.status) && patient.dateOfDeath == old(patient.dateOfDeath)
    {
      accepted := IsStatus(newStatus);
      if accepted {
        patient.status := newStatus;
        if newStatus == "death" {
          patient.dateOfDeath := Some(deathDate);
        } else {
          patient.dateOfDeath := None;
        }
      }
    }

    /**
      `update_patient_status(name)`: the first patient with that name is updated as
      `SetStatus` describes; no other patient changes.
     */
    method UpdatePatientStatus(name: string, newStatus: string, deathDate: string) returns (outcome: StatusOutcome)
      modifies (set p | p in patients)`status, (set p | p in patients)`dateOfDeath
      ensures outcome.StatusNotFound? <==> FirstNamed(KeysOf(patients), name).None?
      ensures outcome.InvalidStatus? ==> forall p :: p in patients ==> unchanged(p)
      ensures outcome.StatusUpdated? <==> FirstNamed(KeysOf(patients), name).Some? && IsStatus(newStatus)
      ensures outcome.StatusUpdated? ==>
                var t := patients[FirstNamed(KeysOf(patients), name).value];
                t.status == newStatus && t.dateOfDeath == (if newStatus == "death" then Some(deathDate) else None)
                && (forall p :: p in patients && p != t ==> unchanged(p))
      ensures outcome.StatusNotFound? ==> forall p :: p in patients ==> unchanged(p)
    {
      var i := 0;
      while i < |patients| && patients[i].name != name
        invariant 0 <= i <= |patients|
        invariant forall j :: 0 <= j < i ==> KeysOf(patients)[j].name != name
      {
        i := i + 1;
      }
      if i == |patients| {
        return StatusNotFound;
      }
      assert KeysOf(patients)[i].name == name;
      var accepted := SetStatus(patients[i], newStatus, deathDate);
      outcome := if accepted then StatusUpdated else InvalidStatus;
    }

    /** `add_procedure_to_patient`: one unbilled procedure at the end of that patient's list. */
    method AddProcedureToPatient(patient: Patient, date: string, description: string)
      modifies patient`procedures
      ensures patient.procedures == Appended(old(patient.procedures), date, description)
    {
      patient.AddProcedure(date, description);
    }

    /**
      `generate_bills_from_procedures`: `amounts[i]` is the amount typed for procedure `i`
      (`None` when it was not a number). Each unbilled procedure with an amount gets one
      fresh unpaid bill, without insurance, and becomes billed; nothing else changes.
     */
    method GenerateBillsFromProcedures(patient: Patient, amounts: seq<Option<real>>)
      requires |amounts| == |patient.procedures|
      modifies patient`billing, patient`procedures
      ensures patient.procedures == AfterBilling(old(patient.procedures), amounts)
      ensures |patient.billing| >= |old(patient.billing)|
      ensures patient.billing[..|old(patient.billing)|] == old(patient.billing)
      ensures forall k :: |old(patient.billing)| <= k < |patient.billing| ==> fresh(patient.billing[k])
      ensures Values(patient.billing) == old(Values(patient.billing)) + NewBills(old(patient.procedures), amounts)
    {
      ghost var procs := patient.procedures;
      ghost var before := patient.billing;
      ghost var added: seq<Bill> := [];
      var i := 0;
      if procs == [] {
        assert patient.procedures == AfterBilling(procs, amounts);
      } else {
        BilledUpToSteps(procs, amounts, 0);
      }
      while i < |patient.procedures|
        invariant 0 <= i <= |procs|
        invariant patient.procedures == BilledUpTo(procs, amounts, i)
        invariant patient.billing == before + added
        invariant forall b :: b in added ==> fresh(b)
        invariant Values(added) == NewBills(procs[..i], amounts[..i])
      {
        NewBillsStep(procs, amounts, i);
        BilledUpToSteps(procs, amounts, i);
        if !patient.procedures[i].billed && amounts[i].Some? {
          var bill := patient.BillProcedure(i, amounts[i].value);
          ValuesConcat(added, [bill]);
          added := added + [bill];
        }
        i := i + 1;
      }
      assert procs[..i] == procs && amounts[..i] == amounts;
      ValuesConcat(before, added);
      forall k | |before| <= k < |patient.billing|
        ensures fresh(patient.billing[k])
      {
        assert patient.billing[k] == added[k - |before|] && added[k - |before|] in added;
      }
    }

    /**
      `edit_patient`: the patient becomes the patched record; number, room, procedures and
      bills stay as they are.
     */
    method EditPatient(patient: Patient, patch: PatientPatch)
      modifies patient
      ensures patient.billing == old(patient.billing)
      ensures patient.Value() == Edited(old(patient.Value()), patch)
    {
      patient.SetRecord(Edited(patient.Value(), patch));
    }

    /**
      `remove_patient`: a listed patient leaves the list, which is otherwise unchanged; the
      room map is not touched. An unlisted patient changes nothing.
     */
    method RemovePatient(patient: Patient) returns (removed: bool)
      requires Valid()
      modifies this`patients
      ensures Valid()
      ensures removed <==> patient in old(patients)
      ensures removed ==> exists i :: 0 <= i < |old(patients)| && old(patients)[i] == patient
                                     && patients == old(patients)[..i] + old(patients)[i + 1..]
      ensures patient !in patients
      ensures !removed ==> patients == old(patients)
      ensures rooms == old(rooms)
    {
      var i := 0;
      while i < |patients| && patients[i] != patient
        invariant 0 <= i <= |patients|
        invariant forall j :: 0 <= j < i ==> patients[j] != patient
      {
        i := i + 1;
      }
      removed := i < |patients|;
      if removed {
        ghost var ps := patients;
        patients := patients[..i] + patients[i + 1..];
        forall j | 0 <= j < |patients|
          ensures patients[j] != patient
        {
          if j < i {
            assert patients[j] == ps[j];
          } else {
            assert patients[j] == ps[j + 1] && ps[j + 1].number != ps[i].number;
          }
        }
      }
    }

    /** `add_department`: a new empty department under an unused name; a used name changes nothing. */
    method AddDepartment(name: string) returns (added: bool)
      requires Valid()
      modifies this`departments
      ensures Valid()
      ensures added <==> name !in old(departments)
      ensures !added ==> departments == old(departments)
      ensures added ==> name in departments && fresh(departments[name])
      ensures added ==> departments == old(departments)[name := departments[name]]
      ensures added ==> departments[name].name == name && departments[name].staff == []
                        && departments[name].doctors == [] && departments[name].nurses == []
                        && departments[name].patients == []
    {
      added := name !in departments;
      if added {
        var d := new Department(name);
        departments := departments[name := d];
      }
    }

    /**
      `add_staff_to_department`: the department is created when missing; a position
      "doctor" (any case) makes a doctor with the given specialty or "General", "nurse"
      makes a nurse of this department, anything else a plain staff member with that position.
     */
    method AddStaffToDepartment(deptName: string, staffName: string, age: int, position: string,
                                phoneNumber: string, dateOfBirth: string, gender: string, email: string,
                                address: string, identifier: string, specialty: Option<string>)
      returns (member: Staff<Patient>)
      requires Valid()
      modifies this`departments, if deptName in departments then {departments[deptName]} else {}
      ensures Valid()
      ensures fresh(member) && member.name == staffName && member.identifier == identifier
      ensures member.age == age && member.phoneNumber == phoneNumber && member.dateOfBirth == dateOfBirth
      ensures member.gender == gender && member.email == email && member.address == address && member.patients == []
      ensures deptName in departments && departments[deptName].name == deptName
      ensures deptName in old(departments) ==> departments == old(departments)
      ensures deptName !in old(departments) ==>
                fresh(departments[deptName]) && departments == old(departments)[deptName := departments[deptName]]
      ensures Lower(position) == "doctor" ==>
                member.role == DoctorRole(if specialty.Some? && specialty.value != "" then specialty.value else "General")
                && member.position == "Doctor"
      ensures Lower(position) == "nurse" ==> member.role == NurseRole(Some(deptName)) && member.position == "Nurse"
      ensures Lower(position) != "doctor" && Lower(position) != "nurse" ==> member.role == General && member.position == position
      ensures departments[deptName].staff == old(if deptName in departments then departments[deptName].staff else []) + [member]
      ensures departments[deptName].patients == old(if deptName in departments then departments[deptName].patients else [])
      ensures departments[deptName].doctors ==
                old(if deptName in departments then departments[deptName].doctors else []) + (if member.role.DoctorRole? then [member] else [])
      ensures departments[deptName].nurses ==
                old(if deptName in departments then departments[deptName].nurses else []) + (if member.role.NurseRole? then [member] else [])
    {
      if deptName !in departments {
        var _ := AddDepartment(deptName);
      }
      var d := departments[deptName];
      if Lower(position) == "doctor" {
        var s := if specialty.Some? && specialty.value != "" then specialty.value else "General";
        member := new Staff<Patient>.Doctor(staffName, age, phoneNumber, dateOfBirth, gender, email, address, identifier, s);
        d.AddDoctor(member);
      } else if Lower(position) == "nurse" {
        member := new Staff<Patient>.Nurse(staffName, age, phoneNumber, dateOfBirth, gender, email, address, identifier, Some(deptName));
        d.AddNurse(member);
      } else {
        member := new Staff<Patient>(staffName, age, phoneNumber, dateOfBirth, gender, email, address, identifier, position);
        d.AddStaff(member);
      }
    }

    /** The doctor roster of a department, empty for an unknown name. */
    function DoctorsIn(deptName: string): seq<Staff<Patient>>
      reads this, departments.Values
    {
      if deptName in departments then departments[deptName].doctors else []
    }

    /**
      `assign_patient_to_doctor_in_department`: the first doctor of that name on the
      department's doctor roster is given the patient, and so is the department.
     */
    method AssignPatientToDoctorInDepartment(deptName: string, doctorName: string, patient: Patient)
      returns (outcome: AssignOutcome)
      requires Valid()
      modifies (if deptName in departments then {departments[deptName]} else {})`patients
      modifies (set d | d in DoctorsIn(deptName))`patients
      ensures Valid()
      ensures outcome.NoSuchDepartment? <==> deptName !in departments
      ensures outcome.NoSuchDoctor? <==>
                deptName in departments && forall d :: d in departments[deptName].doctors ==> d.name != doctorName
      ensures deptName in departments ==>
                var dept := departments[deptName];
                dept.staff == old(dept.staff) && dept.doctors == old(dept.doctors) && dept.nurses == old(dept.nurses)
      ensures outcome.Assigned? ==>
                var dept := departments[deptName];
                exists i :: 0 <= i < |dept.doctors| && dept.doctors[i] == outcome.doctor
                            && forall j :: 0 <= j < i ==> dept.doctors[j].name != doctorName
      ensures outcome.Assigned? ==>
                var dept := departments[deptName];
                outcome.doctor.name == doctorName
                && outcome.doctor.patients == old(outcome.doctor.patients) + [patient]
                && dept.patients == old(dept.patients) + [patient]
                && forall d :: d in dept.doctors && d != outcome.doctor ==> d.patients == old(d.patients)
      ensures !outcome.Assigned? ==> forall d :: d in departments.Values ==> unchanged(d)
      ensures !outcome.Assigned? && deptName in departments ==>
                forall d :: d in departments[deptName].doctors ==> d.patients == old(d.patients)
    {
      if deptName !in departments {
        return NoSuchDepartment;
      }
      var dept := departments[deptName];
      var i := 0;
      while i < |dept.doctors| && dept.doctors[i].name != doctorName
        invariant 0 <= i <= |dept.doctors|
        invariant forall j :: 0 <= j < i ==> dept.doctors[j].name != doctorName
      {
        i := i + 1;
      }
      if i == |dept.doctors| {
        return NoSuchDoctor;
      }
      var doctor := dept.doctors[i];
      var linked := dept.AssignPatientToDoctor(patient, doctor);
      assert linked;
      outcome := Assigned(doctor);
    }

    /**
      `remove_staff_from_department`: the first staff member of that name leaves the
      department's `staff` list; the doctor and nurse rosters keep it. An unknown
      department or name changes nothing.
     */
    method RemoveStaffFromDepartment(deptName: string, staffName: string) returns (removed: bool)
      requires Valid()
      modifies if deptName in departments then {departments[deptName]} else {}
      ensures Valid()
      ensures deptName !in departments ==> !removed
      ensures removed <==> deptName in departments && exists s :: s in old(departments[deptName].staff) && s.name == staffName
      ensures deptName in departments ==>
                var d := departments[deptName];
                d.doctors == old(d.doctors) && d.nurses == old(d.nurses) && d.patients == old(d.patients)
                && (removed ==> exists i :: 0 <= i < |old(d.staff)| && old(d.staff)[i].name == staffName
                                 && (forall j :: 0 <= j < i ==> old(d.staff)[j].name != staffName)
                                 && d.staff == old(d.staff)[..i] + old(d.staff)[i + 1..])
                && (!removed ==> d.staff == old(d.staff))
    {
      if deptName !in departments {
        return false;
      }
      removed := departments[deptName].RemoveFirstStaffNamed(staffName);
    }

    /**
      The in-memory half of `load_data`: the first patient of each number is kept, in
      order, and the room map is rebuilt from the kept patients' rooms.
     */
    method LoadPatients(loaded: seq<Patient>)
      requires Valid()
      modifies this`patients, this`rooms
      ensures Valid()
      ensures patients == DedupByNumber(loaded, NumberOf)
      ensures rooms == RoomsOf(RoomEntries(patients))
    {
      var seen: set<string> := {};
      patients := [];
      var i := 0;
      while i < |loaded|
        invariant 0 <= i <= |loaded|
        invariant patients == DedupByNumber(loaded[..i], NumberOf)
        invariant seen == NumberSet(loaded[..i], NumberOf)
      {
        DedupStep(loaded, i, NumberOf);
        if loaded[i].number !in seen {
          patients := patients + [loaded[i]];
          seen := seen + {loaded[i].number};
        }
        i := i + 1;
      }
      assert loaded[..i] == loaded;
      rooms := RoomsOf(RoomEntries(patients));
    }

    /** Menu option 4: a found patient who is not deceased is given the room. */
    method MenuAssignRoom(identifier: string, room: int) returns (outcome: MenuOutcome)
      requires Valid()
      modifies this`rooms, (set p | p in patients)`roomNumber
      ensures Valid()
      ensures outcome.PatientNotFound? <==> old(Found(identifier)).None?
      ensures outcome != PatientNotFound ==>
                var t := old(Found(identifier)).value;
                (outcome == Deceased <==> t.status == "death")
                && (outcome == Done ==> t.roomNumber == Some(room) && rooms == old(rooms)[room := t.name])
      ensures outcome != Done ==> rooms == old(rooms)
      ensures outcome == Done || outcome == Deceased || outcome == PatientNotFound
      ensures forall p :: p in patients && (outcome == Done ==> p != old(Found(identifier)).value) ==> p.roomNumber == old(p.roomNumber)
    {
      var found := FindPatient(identifier);
      if found.None? {
        return PatientNotFound;
      }
      var p := found.value;
      if p.status == "death" {
        return Deceased;
      }
      AssignRoom(p, room);
      outcome := Done;
    }

    /** Menu option 5: a found patient who is not deceased is billed. */
    method MenuGenerateBill(identifier: string, amount: real, description: string) returns (outcome: MenuOutcome)
      modifies (set p | p in patients)`billing
      ensures outcome.PatientNotFound? <==> old(Found(identifier)).None?
      ensures outcome != PatientNotFound ==>
                var t := old(Found(identifier)).value;
                (outcome == Deceased <==> t.status == "death")
                && (outcome == Done ==>
                      (|t.billing| == |old(t.billing)| + 1
                       && t.billing[..|old(t.billing)|] == old(t.billing)
                       && fresh(t.billing[|old(t.billing)|])
                       && t.billing[|old(t.billing)|].Value() == ChargedBill(t.insurance, amount, description)))
                && (outcome == Deceased ==> t.billing == old(t.billing))
      ensures outcome == Done || outcome == Deceased || outcome == PatientNotFound
      ensures forall p :: p in patients && (outcome == Done ==> p != old(Found(identifier)).value) ==> p.billing == old(p.billing)
    {
      var found := FindPatient(identifier);
      if found.None? {
        return PatientNotFound;
      }
      var p := found.value;
      if p.status == "death" {
        return Deceased;
      }
      GenerateBill(p, amount, description);
      outcome := Done;
    }

    /**
      Menu option 12: only a found patient whose status is "normal" is removed; a deceased
      record is kept for history and any other status is refused.
     */
    method MenuRemovePatient(identifier: string) returns (outcome: MenuOutcome)
      requires Valid()
      modifies this`patients
      ensures Valid()
      ensures outcome.PatientNotFound? <==> old(Found(identifier)).None?
      ensures outcome != PatientNotFound ==>
                var t := old(Found(identifier)).value;
                (outcome == Done <==> t.status == "normal")
                && (outcome == Deceased <==> t.status == "death")
                && (outcome == Done ==>
                      (t !in patients
                       && exists i :: 0 <= i < |old(patients)| && old(patients)[i] == t
                                      && patients == old(patients)[..i] + old(patients)[i + 1..]))
      ensures outcome != Done ==> patients == old(patients)
    {
      var found := FindPatient(identifier);
      if found.None? {
        return PatientNotFound;
      }
      var p := found.value;
      if p.status == "normal" {
        var _ := RemovePatient(p);
        outcome := Done;
      } else if p.status == "death" {
        outcome := Deceased;
      } else {
        outcome := NotNormal;
      }
    }

    /**
      Menu option 15 as intended: the status of the patient found by name or number is
      updated (the code as written updates the first patient with that patient's name;
      see `Lookup.StatusTargetAsWritten`).
     */
    method MenuUpdateStatus(identifier: string, newStatus: string, deathDate: string) returns (outcome: StatusOutcome)
      modifies (set p | p in patients)`status, (set p | p in patients)`dateOfDeath
      ensures outcome.StatusNotFound? <==> old(Found(identifier)).None?
      ensures outcome.StatusUpdated? <==> old(Found(identifier)).Some? && IsStatus(newStatus)
      ensures outcome.StatusUpdated? ==>
                var t := old(Found(identifier)).value;
                t.status == newStatus && t.dateOfDeath == (if newStatus == "death" then Some(deathDate) else None)
      ensures forall p :: p in patients && (outcome.StatusUpdated? ==> p != old(Found(identifier)).value)
                ==> p.status == old(p.status) && p.dateOfDeath == old(p.dateOfDeath)
    {
      var found := FindPatient(identifier);
      if found.None? {
        return StatusNotFound;
      }
      var accepted := SetStatus(found.value, newStatus, deathDate);
      outcome := if accepted then StatusUpdated else InvalidStatus;
    }
  }
}
