/**
  Hospital staff (`Staff`, `Doctor`, `Nurse`) as one class with a role tag. The role is
  fixed at construction, as the Python subclass is; only a doctor keeps a patient list.
  `P` is the patient type of the hospital variant using it.
 */
module Staffing {
  import opened Wrappers

  /** The subclass a staff record was built as, with its role-specific field. */
  datatype Role =
    | General
    | DoctorRole(specialty: string)
    | NurseRole(department: Option<string>)

  class Staff<P> {
    var name: string
    var age: int
    var phoneNumber: string
    var dateOfBirth: string
    var gender: string
    var email: string
    var address: string
    var identifier: string
    var position: string
    const role: Role
    /** The patients assigned to a doctor; stays empty for every other role. */
    var patients: seq<P>

    /** `Staff(name, age, ..., identifier, position)`: stores exactly the given position. */
    constructor (name: string, age: int, phoneNumber: string, dateOfBirth: string, gender: string,
                 email: string, address: string, identifier: string, position: string)
      ensures this.name == name && this.age == age && this.phoneNumber == phoneNumber
      ensures this.dateOfBirth == dateOfBirth && this.gender == gender && this.email == email
      ensures this.address == address && this.identifier == identifier
      ensures this.position == position && role == General && patients == []
    {
      this.name, this.age, this.phoneNumber, this.dateOfBirth := name, age, phoneNumber, dateOfBirth;
      this.gender, this.email, this.address, this.identifier := gender, email, address, identifier;
      this.position := position;
      role := General;
      patients := [];
    }

    /** `Doctor(..., specialty)`: position "Doctor", the given specialty, no patients yet. */
    constructor Doctor(name: string, age: int, phoneNumber: string, dateOfBirth: string, gender: string,
                       email: string, address: string, identifier: string, specialty: string)
      ensures this.name == name && this.age == age && this.phoneNumber == phoneNumber
      ensures this.dateOfBirth == dateOfBirth && this.gender == gender && this.email == email
      ensures this.address == address && this.identifier == identifier
      ensures position == "Doctor" && role == DoctorRole(specialty) && patients == []
    {
      this.name, this.age, this.phoneNumber, this.dateOfBirth := name, age, phoneNumber, dateOfBirth;
      this.gender, this.email, this.address, this.identifier := gender, email, address, identifier;
      position := "Doctor";
      role := DoctorRole(specialty);
      patients := [];
    }

    /** `Nurse(..., department=None)`: position "Nurse", affiliated with `department`. */
    constructor Nurse(name: string, age: int, phoneNumber: string, dateOfBirth: string, gender: string,
                      email: string, address: string, identifier: string, department: Option<string> := None)
      ensures this.name == name && this.age == age && this.phoneNumber == phoneNumber
      ensures this.dateOfBirth == dateOfBirth && this.gender == gender && this.email == email
      ensures this.address == address && this.identifier == identifier
      ensures position == "Nurse" && role == NurseRole(department) && patients == []
    {
      this.name, this.age, this.phoneNumber, this.dateOfBirth := name, age, phoneNumber, dateOfBirth;
      this.gender, this.email, this.address, this.identifier := gender, email, address, identifier;
      position := "Nurse";
      role := NurseRole(department);
      patients := [];
    }

    predicate IsDoctor() {
      role.DoctorRole?
    }

    /** `Doctor.add_patient`: appends at the end, without checking for a repeat. */
    method AddPatient(patient: P)
      requires IsDoctor()
      modifies this`patients
      ensures patients == old(patients) + [patient]
      ensures ViewPatients() == old(ViewPatients()) + [patient]
    {
      patients := patients + [patient];
    }

    /** `Doctor.view_patients`: the assigned patients, in assignment order. */
    function ViewPatients(): (r: seq<P>)
      requires IsDoctor()
      reads this
      ensures r == patients
    {
      patients
    }
  }
}
