/**
  A hospital department (`Department`): rosters of doctors, nurses and staff, and the
  patients associated with it through doctor assignment. A doctor or nurse is entered in
  its role roster and in `staff` as the same object.
 */
module Departments {
  import opened Staffing

  class Department<P> {
    const name: string
    var doctors: seq<Staff<P>>
    var nurses: seq<Staff<P>>
    var staff: seq<Staff<P>>
    var patients: seq<P>

    /** `Department(name)`: all four lists start empty. */
    constructor (name: string)
      ensures this.name == name
      ensures doctors == [] && nurses == [] && staff == [] && patients == []
    {
      this.name := name;
      doctors, nurses, staff, patients := [], [], [], [];
    }

    /** Every doctor and every nurse is also on the staff list (same object). */
    ghost predicate RostersInStaff()
      reads this
    {
      && (forall d :: d in doctors ==> d in staff)
      && (forall n :: n in nurses ==> n in staff)
    }

    /** The doctors roster holds only doctors and the nurses roster only nurses. */
    ghost predicate RolesConsistent()
      reads this
    {
      && (forall d :: d in doctors ==> d.role.DoctorRole?)
      && (forall n :: n in nurses ==> n.role.NurseRole?)
    }

    /** `add_patient`: appends one patient and changes no roster. */
    method AddPatient(patient: P)
      modifies this`patients
      ensures patients == old(patients) + [patient]
    {
      patients := patients + [patient];
    }

    /** `add_staff`: appends to `staff` only. */
    method AddStaff(member: Staff<P>)
      modifies this`staff
      ensures staff == old(staff) + [member]
      ensures old(RostersInStaff()) ==> RostersInStaff()
    {
      staff := staff + [member];
    }

    /** `add_doctor`: appends the doctor to `doctors` and to `staff`; `nurses` is untouched. */
    method AddDoctor(doctor: Staff<P>)
      modifies this`doctors, this`staff
      ensures doctors == old(doctors) + [doctor]
      ensures staff == old(staff) + [doctor]
      ensures old(RostersInStaff()) ==> RostersInStaff()
      ensures old(RolesConsistent()) && doctor.IsDoctor() ==> RolesConsistent()
    {
      doctors := doctors + [doctor];
      staff := staff + [doctor];
    }

    /** `add_nurse`: appends the nurse to `nurses` and to `staff`; `doctors` is untouched. */
    method AddNurse(nurse: Staff<P>)
      modifies this`nurses, this`staff
      ensures nurses == old(nurses) + [nurse]
      ensures staff == old(staff) + [nurse]
      ensures old(RostersInStaff()) ==> RostersInStaff()
      ensures old(RolesConsistent()) && nurse.role.NurseRole? ==> RolesConsistent()
    {
      nurses := nurses + [nurse];
      staff := staff + [nurse];
    }

    /**
      `assign_patient_to_doctor`: only a doctor on this department's roster is given the
      patient, and the department records the patient too; repeats are not filtered.
     */
    method AssignPatientToDoctor(patient: P, doctor: Staff<P>) returns (linked: bool)
      requires doctor in doctors ==> doctor.IsDoctor()
      modifies this`patients, doctor`patients
      ensures linked <==> doctor in doctors
      ensures linked ==> doctor.patients == old(doctor.patients) + [patient]
      ensures linked ==> patients == old(patients) + [patient]
      ensures !linked ==> doctor.patients == old(doctor.patients) && patients == old(patients)
    {
      linked := doctor in doctors;
      if linked {
        doctor.AddPatient(patient);
        patients := patients + [patient];
      }
    }

    /**
      The removal step of `remove_staff_from_department`: the first staff member named
      `staffName` leaves `staff`; `doctors` and `nurses` keep it.
     */
    method RemoveFirstStaffNamed(staffName: string) returns (removed: bool)
      modifies this`staff
      ensures removed <==> exists i :: 0 <= i < |old(staff)| && old(staff)[i].name == staffName
      ensures removed ==> exists i :: 0 <= i < |old(staff)| && old(staff)[i].name == staffName
                            && (forall j :: 0 <= j < i ==> old(staff)[j].name != staffName)
                            && staff == old(staff)[..i] + old(staff)[i + 1..]
      ensures !removed ==> staff == old(staff)
    {
      var i := 0;
      while i < |staff| && staff[i].name != staffName
        invariant 0 <= i <= |staff|
        invariant forall j :: 0 <= j < i ==> staff[j].name != staffName
      {
        i := i + 1;
      }
      removed := i < |staff|;
      if removed {
        staff := staff[..i] + staff[i + 1..];
      }
    }
  }
}
