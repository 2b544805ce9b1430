/**
  The simpler hospital engine (`HospitalSystem` of Hospital): the same patient list, room
  map and departments as the richer one, with a duplicate check by name, three statuses,
  no insurance and no date of death. What the menu reads from the keyboard arrives as
  parameters; persisted patient numbers arrive as a sequence.
 */
module BasicHospital {
  import opened Wrappers
  import opened Allocation
  import opened Billing
  import opened Procedures
  import opened Departments
  import opened BasicPatients
  import opened Lookup
  import opened Records

  /** The statuses `update_patient_status` accepts. */
  predicate IsBasicStatus(s: string) {
    s == "normal" || s == "surgery" || s == "emergency"
  }

  /** A patient's number; the field is never reassigned, so reading it needs no heap. */
  function NumberOf(p: BasicPatient): string {
    p.number
  }

  /** Room number and name of each patient, in order, as the room map reads them. */
  function RoomEntries(ps: seq<BasicPatient>): (es: seq<RoomEntry>)
    reads ps
    ensures |es| == |ps|
    ensures forall i :: 0 <= i < |ps| ==> es[i] == RoomEntry(ps[i].roomNumber, ps[i].name)
  {
    seq(|ps|, i reads ps requires 0 <= i < |ps| => RoomEntry(ps[i].roomNumber, ps[i].name))
  }

  /** Name and number of each patient, in order, as `find_patient` compares them. */
  function KeysOf(ps: seq<BasicPatient>): (ks: seq<Key>)
    reads ps
    ensures |ks| == |ps|
    ensures forall i :: 0 <= i < |ps| ==> ks[i] == Key(ps[i].name, ps[i].number)
  {
    seq(|ps|, i reads ps requires 0 <= i < |ps| => Key(ps[i].name, ps[i].number))
  }

  /** What menu option 12 reports. */
  datatype RemoveOutcome = RemoveNotFound | NotNormal | Removed

  /** What `update_patient_status` reports. */
  datatype StatusOutcome = StatusNotFound | InvalidStatus | StatusUpdated

  class BasicHospitalSystem {
    var patients: seq<BasicPatient>
    var rooms: map<int, string>
    var departments: map<string, Department<BasicPatient>>

    /** Patient numbers are distinct and each department is filed under its own name. */
    ghost predicate Valid()
      reads this, departments.Values
    {
      && NumbersDistinct(patients, NumberOf)
      && (forall k :: k in departments ==> departments[k].name == k)
    }

    /** An empty hospital, as `__init__` leaves it when there is no database file. */
    constructor ()
      ensures Valid()
      ensures patients == [] && rooms == map[] && departments == map[]
    {
      patients, rooms, departments := [], map[], map[];
    }

    /** The patient `find_patient` answers for `identifier`: the first listed one whose name or number it is. */
    function Found(identifier: string): (r: Option<BasicPatient>)
      reads this, patients
      ensures r.Some? ==> r.value in patients
      ensures r.Some? <==> exists i :: 0 <= i < |patients| && (patients[i].name == identifier || patients[i].number == identifier)
    {
      match FirstMatch(KeysOf(patients), identifier)
      case None => None
      case Some(i) => Some(patients[i])
    }

    /** `find_patient`: the first patient, in list order, whose name or number is the identifier. */
    method FindPatient(identifier: string) returns (r: Option<BasicPatient>)
      ensures r == Found(identifier)
    {
      var i := 0;
      while i < |patients|
        invariant 0 <= i <= |patients|
        invariant forall j :: 0 <= j < i ==> !Matches(KeysOf(patients)[j], identifier)
      {
        if patients[i].name == identifier || patients[i].number == identifier {
          assert Matches(KeysOf(patients)[i], identifier);
          return Some(patients[i]);
        }
        i := i + 1;
      }
      return None;
    }

    /**
      `add_patient`: a patient whose name is already on file is refused and nothing
      changes. Otherwise the patient gets the next number, is appended, and the room map
      records the room when a non-zero room was given.
     */
    method AddPatient(name: string, age: int, condition: string, room: Option<int>, persisted: seq<string>)
      returns (r: Option<BasicPatient>)
      requires Valid()
      modifies this`patients, this`rooms
      ensures Valid()
      ensures r.None? <==> exists i :: 0 <= i < |old(patients)| && old(patients[i].name) == name
      ensures r.None? ==> patients == old(patients) && rooms == old(rooms)
      ensures r.Some? ==> fresh(r.value) && patients == old(patients) + [r.value]
      ensures r.Some? ==> r.value.number == NextPatientNumber(NumbersOf(old(patients), NumberOf) + persisted)
      ensures r.Some? ==> r.value.number !in NumbersOf(old(patients), NumberOf)
      ensures r.Some? ==> r.value.Value() == BasicPatientValue(name, age, condition, r.value.number, room, [], [], "normal")
      ensures r.Some? ==> rooms == if RoomGiven(room) then old(rooms)[room.value := name] else old(rooms)
    {
      var i := 0;
      while i < |patients|
        invariant 0 <= i <= |patients|
        invariant forall j :: 0 <= j < i ==> patients[j].name != name
      {
        if patients[i].name == name {
          return None;
        }
        i := i + 1;
      }
      var number := NextPatientNumber(NumbersOf(patients, NumberOf) + persisted);
      NextPatientNumberIsFresh(NumbersOf(patients, NumberOf) + persisted);
      assert forall j :: 0 <= j < |patients| ==> (NumbersOf(patients, NumberOf) + persisted)[j] == patients[j].number;
      var p := new BasicPatient(name, age, condition, number, room);
      patients := patients + [p];
      if RoomGiven(room) {
        rooms := rooms[room.value := name];
      }
      r := Some(p);
    }

    /**
      `assign_room`: the patient's room is set and the room map points the room at the
      patient's name, whoever held it; the patient's previous room entry stays.
     */
    method AssignRoom(patient: BasicPatient, room: int)
      requires Valid()
      modifies patient`roomNumber, this`rooms
      ensures Valid()
      ensures patient.roomNumber == Some(room)
      ensures rooms == old(rooms)[room := patient.name]
    {
      patient.roomNumber := Some(room);
      rooms := rooms[room := patient.name];
    }

    /** `generate_bill`: one fresh unpaid bill at the end, with the amount and description as given. */
    method GenerateBill(patient: BasicPatient, amount: real, description: string)
      modifies patient`billing
      ensures |patient.billing| == |old(patient.billing)| + 1
      ensures patient.billing[..|old(patient.billing)|] == old(patient.billing)
      ensures fresh(patient.billing[|old(patient.billing)|])
      ensures patient.billing[|old(patient.billing)|].Value() == BillValue(amount, description, false)
    {
      var bill := new Bill(amount, description);
      patient.AddBill(bill);
    }

    /**
      `mark_bill_paid`: with an index in range, the bill at that index is paid; any other
      answer (out of range, not a number: `None`) changes nothing. Amounts and descriptions
      never change, and no bill other than the chosen one changes.
     */
    method MarkBillPaid(patient: BasicPatient, index: Option<int>) returns (marked: bool)
      modifies patient.billing
      ensures marked <==> index.Some? && 0 <= index.value < |patient.billing|
      ensures forall b :: b in patient.billing ==> b.amount == old(b.amount) && b.description == old(b.description)
      ensures forall b :: b in patient.billing ==> b.paid == (old(b.paid) || (marked && b == patient.billing[index.value]))
    {
      marked := false;
      if |patient.billing| == 0 {
        return;
      }
      if index.Some? && 0 <= index.value < |patient.billing| {
        patient.billing[index.value].MarkPaid();
        marked := true;
      }
    }

    /**
      `update_patient_status(name)`: the first patient with that name takes the status
      when it is one of the three accepted; no other patient changes.
     */
    method UpdatePatientStatus(name: string, newStatus: string) returns (outcome: StatusOutcome)
      modifies (set p | p in patients)`status
      ensures outcome.StatusNotFound? <==> FirstNamed(KeysOf(patients), name).None?
      ensures outcome.StatusUpdated? <==> FirstNamed(KeysOf(patients), name).Some? && IsBasicStatus(newStatus)
      ensures outcome.StatusUpdated? ==> patients[FirstNamed(KeysOf(patients), name).value].status == newStatus
      ensures forall p :: p in patients && (outcome.StatusUpdated? ==> p != patients[FirstNamed(KeysOf(patients), name).value])
                ==> p.status == old(p.status)
    {
      var i := 0;
      while i < |patients| && patients[i].name != name
        invariant 0 <= i <= |patients|
        invariant forall j :: 0 <= j < i ==> KeysOf(patients)[j].name != name
      {
        i := i + 1;
      }
      if i == |patients| {
        return StatusNotFound;
      }
      assert KeysOf(patients)[i].name == name;
      if IsBasicStatus(newStatus) {
        patients[i].UpdateStatus(newStatus);
        outcome := StatusUpdated;
      } else {
        outcome := InvalidStatus;
      }
    }

    /** `add_procedure_to_patient`: one unbilled procedure at the end of that patient's list. */
    method AddProcedureToPatient(patient: BasicPatient, date: string, description: string)
      modifies patient`procedures
      ensures patient.procedures == Appended(old(patient.procedures), date, description)
    {
      patient.AddProcedure(date, description);
    }

    /**
      `generate_bills_from_procedures`: `amounts[i]` is the amount typed for procedure `i`
      (`None` when it was not a number). Each unbilled procedure with an amount gets one
      fresh unpaid bill and becomes billed; nothing else changes.
     */
    method GenerateBillsFromProcedures(patient: BasicPatient, amounts: seq<Option<real>>)
      requires |amounts| == |patient.procedures|
      modifies patient`billing, patient`procedures
      ensures patient.procedures == AfterBilling(old(patient.procedures), amounts)
      ensures |patient.billing| >= |old(patient.billing)|
      ensures patient.billing[..|old(patient.billing)|] == old(patient.billing)
      ensures forall k :: |old(patient.billing)| <= k < |patient.billing| ==> fresh(patient.billing[k])
      ensures Values(patient.billing) == old(Values(patient.billing)) + NewBills(old(patient.procedures), amounts)
    {
      ghost var procs := patient.procedures;
      ghost var before := patient.billing;
      ghost var added: seq<Bill> := [];
      var i := 0;
      if procs == [] {
        assert patient.procedures == AfterBilling(procs, amounts);
      } else {
        BilledUpToSteps(procs, amounts, 0);
      }
      while i < |patient.procedures|
        invariant 0 <= i <= |procs|
        invariant patient.procedures == BilledUpTo(procs, amounts, i)
        invariant patient.billing == before + added
        invariant forall b :: b in added ==> fresh(b)
        invariant Values(added) == NewBills(procs[..i], amounts[..i])
      {
        NewBillsStep(procs, amounts, i);
        BilledUpToSteps(procs, amounts, i);
        if !patient.procedures[i].billed && amounts[i].Some? {
          var bill := patient.BillProcedure(i, amounts[i].value);
          ValuesConcat(added, [bill]);
          added := added + [bill];
        }
        i := i + 1;
      }
      assert procs[..i] == procs && amounts[..i] == amounts;
      ValuesConcat(before, added);
      forall k | |before| <= k < |patient.billing|
        ensures fresh(patient.billing[k])
      {
        assert patient.billing[k] == added[k - |before|] && added[k - |before|] in added;
      }
    }

    /**
      `edit_patient`: name, age, condition and status take their answers, blank ones
      keeping the current value; number, room, procedures and bills stay as they are.
     */
    method EditPatient(patient: BasicPatient, name: string, age: Option<int>, condition: string, status: string)
      modifies patient`name, patient`age, patient`condition, patient`status
      ensures patient.Value() == BasicEdited(old(patient.Value()), name, age, condition, status)
    {
      var edited := BasicEdited(patient.Value(), name, age, condition, status);
      patient.name := edited.name;
      patient.age := edited.age;
      patient.condition := edited.condition;
      patient.status := edited.status;
    }

    /**
      `remove_patient`: a listed patient leaves the list, which is otherwise unchanged; the
      room map is not touched. An unlisted patient changes nothing.
     */
    method RemovePatient(patient: BasicPatient) returns (removed: bool)
      requires Valid()
      modifies this`patients
      ensures Valid()
      ensures removed <==> patient in old(patients)
      ensures removed ==> exists i :: 0 <= i < |old(patients)| && old(patients)[i] == patient
                                     && patients == old(patients)[..i] + old(patients)[i + 1..]
      ensures patient !in patients
      ensures !removed ==> patients == old(patients)
      ensures rooms == old(rooms)
    {
      var i := 0;
      while i < |patients| && patients[i] != patient
        invariant 0 <= i <= |patients|
        invariant forall j :: 0 <= j < i ==> patients[j] != patient
      {
        i := i + 1;
      }
      removed := i < |patients|;
      if removed {
        ghost var ps := patients;
        patients := patients[..i] + patients[i + 1..];
        forall j | 0 <= j < |patients|
          ensures patients[j] != patient
        {
          if j < i {
            assert patients[j] == ps[j];
          } else {
            assert patients[j] == ps[j + 1] && ps[j + 1].number != ps[i].number;
          }
        }
      }
    }

    /** `add_department`: a new empty department under an unused name; a used name changes nothing. */
    method AddDepartment(name: string) returns (added: bool)
      requires Valid()
      modifies this`departments
      ensures Valid()
      ensures added <==> name !in old(departments)
      ensures !added ==> departments == old(departments)
      ensures added ==> name in departments && fresh(departments[name])
      ensures added ==> departments == old(departments)[name := departments[name]]
      ensures added ==> departments[name].name == name && departments[name].staff == []
                        && departments[name].doctors == [] && departments[name].nurses == []
                        && departments[name].patients == []
    {
      added := name !in departments;
      if added {
        var d := new Department(name);
        departments := departments[name := d];
      }
    }

    /**
      `remove_staff_from_department`: the first staff member of that name leaves the
      department's `staff` list. An unknown department or name changes nothing.
     */
    method RemoveStaffFromDepartment(deptName: string, staffName: string) returns (removed: bool)
      requires Valid()
      modifies if deptName in departments then {departments[deptName]} else {}
      ensures Valid()
      ensures deptName !in departments ==> !removed
      ensures removed <==> deptName in departments && exists s :: s in old(departments[deptName].staff) && s.name == staffName
      ensures deptName in departments ==>
                var d := departments[deptName];
                d.doctors == old(d.doctors) && d.nurses == old(d.nurses) && d.patients == old(d.patients)
                && (removed ==> exists i :: 0 <= i < |old(d.staff)| && old(d.staff)[i].name == staffName
                                 && (forall j :: 0 <= j < i ==> old(d.staff)[j].name != staffName)
                                 && d.staff == old(d.staff)[..i] + old(d.staff)[i + 1..])
                && (!removed ==> d.staff == old(d.staff))
    {
      if deptName !in departments {
        return false;
      }
      removed := departments[deptName].RemoveFirstStaffNamed(staffName);
    }

    /**
      The in-memory half of `load_data`: the first patient of each number is kept, in
      order, and the room map is rebuilt from the kept patients' rooms.
     */
    method LoadPatients(loaded: seq<BasicPatient>)
      requires Valid()
      modifies this`patients, this`rooms
      ensures Valid()
      ensures patients == DedupByNumber(loaded, NumberOf)
      ensures rooms == RoomsOf(RoomEntries(patients))
    {
      var seen: set<string> := {};
      patients := [];
      var i := 0;
      while i < |loaded|
        invariant 0 <= i <= |loaded|
        invariant patients == DedupByNumber(loaded[..i], NumberOf)
        invariant seen == NumberSet(loaded[..i], NumberOf)
      {
        DedupStep(loaded, i, NumberOf);
        if loaded[i].number !in seen {
          patients := patients + [loaded[i]];
          seen := seen + {loaded[i].number};
        }
        i := i + 1;
      }
      assert loaded[..i] == loaded;
      rooms := RoomsOf(RoomEntries(patients));
    }

    /** Menu option 12: only a found patient whose status is "normal" is removed. */
    method MenuRemovePatient(identifier: string) returns (outcome: RemoveOutcome)
      requires Valid()
      modifies this`patients
      ensures Valid()
      ensures outcome.RemoveNotFound? <==> old(Found(identifier)).None?
      ensures outcome != RemoveNotFound ==>
                var t := old(Found(identifier)).value;
                (outcome == Removed <==> t.status == "normal")
                && (outcome == Removed ==>
                      (t !in patients
                       && exists i :: 0 <= i < |old(patients)| && old(patients)[i] == t
                                      && patients == old(patients)[..i] + old(patients)[i + 1..]))
      ensures outcome != Removed ==> patients == old(patients)
    {
      var found := FindPatient(identifier);
      if found.None? {
        return RemoveNotFound;
      }
      var p := found.value;
      if p.status == "normal" {
        var _ := RemovePatient(p);
        outcome := Removed;
      } else {
        outcome := NotNormal;
      }
    }

    /**
      Menu option 15 as intended: the status of the patient found by name or number is
      updated (the code as written updates the first patient with that patient's name;
      see `Lookup.StatusTargetAsWritten`).
     */
    method MenuUpdateStatus(identifier: string, newStatus: string) returns (outcome: StatusOutcome)
      modifies (set p | p in patients)`status
      ensures outcome.StatusNotFound? <==> old(Found(identifier)).None?
      ensures outcome.StatusUpdated? <==> old(Found(identifier)).Some? && IsBasicStatus(newStatus)
      ensures outcome.StatusUpdated? ==> old(Found(identifier)).value.status == newStatus
      ensures forall p :: p in patients && (outcome.StatusUpdated? ==> p != old(Found(identifier)).value)
                ==> p.status == old(p.status)
    {
      var found := FindPatient(identifier);
      if found.None? {
        return StatusNotFound;
      }
      if IsBasicStatus(newStatus) {
        found.value.UpdateStatus(newStatus);
        outcome := StatusUpdated;
      } else {
        outcome := InvalidStatus;
      }
    }
  }
}
