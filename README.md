# Hospital records, course enrollment and word reversal in Dafny

This project models three small Python systems from one repository and proves properties of them.

**The hospital records engine**, in two variants.
- The richer `Hospital_System_Management` keeps these records:
  - patients with contact details, next of kin, insurance, dates and a four-state status (normal, surgery, emergency, death);
  - bills that an insurance discount may reduce;
  - procedures that can be billed in one run;
  - a room map from room number to patient name;
  - departments holding staff, doctors and nurses.
- The simpler `Hospital` keeps the same lists. It has three statuses, no insurance, no dates, and it refuses duplicates by name instead of by identifier.
- Both variants use the same patient-number allocator:
  - every all-digit number in memory or on disk is collected;
  - the largest plus one is returned as text;
  - "1001" is returned when there is none.
- Both share the same lookup (`find_patient`), the same load-time deduplication by patient number and the same department class.
- Each engine is a class:
  - `Hospital.HospitalSystem` and `BasicHospital.BasicHospitalSystem` hold `patients`, `rooms` and `departments`;
  - patients, bills, staff and departments are classes whose fields the operations update in place.
- Persistence is modelled as a pair of value codecs (`to_dict`/`from_dict`) with round-trip lemmas.
- The menu's keyboard answers become parameters. Examples:
  - the amount typed for each procedure is an `Option<real>`, where `None` means "not a number, skipped";
  - the answers of the edit dialogue are passed as a patch.

**The course system** (`SystemManager`, `Student`, `Course`).
- Students and courses live in dictionaries keyed by ids taken from class-level counters.
- A Python `dict` iterates in insertion order, so the model keeps each map together with its key order.
- The manager's invariant (`StudentSystem.SystemManager.Valid`) says:
  - each key is its object's id;
  - every id is below its counter, so a new id is never a key already;
  - the orders list each key once;
  - no student lists a course twice and no course lists a student twice.

**The word reverser** (`ReverseStr2.reverse`).
- It is modelled as split on single spaces, reversal and join with single spaces.
- It is proved to be an involution that preserves length and reverses the pieces.

Module layout:
- `Wrappers`, `Decimal`, `Text`: helpers.
- `Allocation`, `Billing`, `Procedures`, `Lookup`, `Records`: logic shared by both hospitals.
- `Patients` and `Hospital`: the richer variant.
- `BasicPatients` and `BasicHospital`: the simpler variant.
- `Staffing`, `Departments`: staff and departments, generic over the patient class.
- `Counters`, `Students`, `Courses`, `StudentSystem`: the course system.
- `ReverseWords`: the reverser.

The code's behaviour on points where a reader might expect a check, which the model follows:
- Death is not terminal.
  - `update_patient_status` and `edit_patient` accept any change out of "death".
  - Only the menu refuses rooms, bills and removal for a deceased patient.
  - Procedure billing, marking a bill paid and editing are not refused.
- `assign_room` does not check whether the room is occupied. It overwrites the room map entry, and the patient's old room entry stays.
- Removing a patient leaves the room map untouched.
- `edit_patient` does not validate the status it stores.

The two `department.py` files are identical and are modelled once, as `Departments.Department`. The simpler variant's `billing.py` is the first 44 lines of the richer one. The richer variant constructs `Staff`, `Doctor` and `Nurse` with the signatures of `Python/Projects/salem/Hospital/model/staff.py`, which is the file the staff model cites.

## Model

| member | source | states |
|---|---|---|
| Decimal.FromNat | Python/Projects/salem/Hospital_System_Management/core/hospital_system.py:43 | `str(n)` is a non-empty string of digits that reads back as `n` and has no leading zero unless `n` is 0 |
| Allocation.MaxNumeric | Python/Projects/salem/Hospital_System_Management/core/hospital_system.py:31-39 | absent exactly when no number is all digits; otherwise it is the value of some all-digit number and no all-digit number is larger |
| Allocation.NextPatientNumber | Python/Projects/salem/Hospital_System_Management/core/hospital_system.py:42-45 | the result is all digits; it is "1001" when no number is numeric, else the largest numeric value plus one |
| Allocation.NextPatientNumberIsFresh | Python/Projects/salem/Hospital_System_Management/core/hospital_system.py:71-75 | the new number exceeds every numeric number in use, so it is none of them: the second duplicate check of `add_patient` can never fire |
| Allocation.NextPatientNumberMonotone | Python/Projects/salem/Hospital_System_Management/core/hospital_system.py:31-43 | once some number is all digits, more numbers (in memory or on disk) never lower the number handed out |
| Allocation.FirstShortNumberDrops | Python/Projects/salem/Hospital_System_Management/core/hospital_system.py:31-45 | without a numeric number the result is "1001", but a single stored "5" gives "6": the baseline is not a floor |
| Allocation.AllocationExamples | Python/Projects/salem/Hospital_System_Management/core/hospital_system.py:42-45 | no numbers give "1001"; "1001" and "1002" give "1003" |
| Billing.EncodeBill | Python/Projects/salem/Hospital_System_Management/model/billing.py:20-31 | `to_dict` always writes the paid key |
| Billing.DecodeBill | Python/Projects/salem/Hospital_System_Management/model/billing.py:33-44 | `from_dict` keeps amount and description; the bill is paid exactly when the stored flag is true, and a missing flag reads as unpaid |
| Billing.BillRoundTrip | Python/Projects/salem/Hospital_System_Management/model/billing.py:20-44 | `from_dict(to_dict(b))` gives back every field of `b` |
| Billing.EncodeBillInjective | Python/Projects/salem/Hospital_System_Management/model/billing.py:20-31 | two bills with the same dictionary are the same bill |
| Billing.DecodeBills | Python/Projects/salem/Hospital_System_Management/model/patient.py:138 | the stored bill list decodes element by element, in order |
| Billing.EncodeBills | Python/Projects/salem/Hospital_System_Management/model/patient.py:121 | the bill list encodes element by element, in order |
| Billing.BillsRoundTrip | Python/Projects/salem/Hospital_System_Management/model/patient.py:121 | a bill list survives storage unchanged |
| Billing.DiscountedAmount | Python/Projects/salem/Hospital_System_Management/model/billing.py:46-55 | the amount times (1 − c/100); coverage 0 leaves the amount, coverage 100 leaves 0, and coverage in [0,100] keeps a non-negative amount between 0 and itself |
| Billing.DiscountBounds | Python/Projects/salem/Hospital_System_Management/model/billing.py:54-55 | with coverage in [0,100] the discount lies between 0 and the amount |
| Billing.DiscountExample | Python/Projects/salem/Hospital_System_Management/model/billing.py:46-55 | coverage 20 on 1000 leaves 800 |
| Billing.DiscountNote | Python/Projects/salem/Hospital_System_Management/core/hospital_system.py:109 | the annotated description starts with the original description and is longer than it |
| Billing.PercentText | Python/Projects/salem/Hospital_System_Management/core/hospital_system.py:109 | the coverage as printed in the note: its whole part in decimal digits (no fraction), followed by ".0" |
| Billing.Bill.constructor | Python/Projects/salem/Hospital_System_Management/model/billing.py:9-12 | a new bill holds the amount, description and paid flag it was given (unpaid by default) |
| Billing.Bill.MarkPaid | Python/Projects/salem/Hospital_System_Management/model/billing.py:14-18 | the bill becomes paid and nothing else about it changes |
| Billing.Bill.ToDict | Python/Projects/salem/Hospital_System_Management/model/billing.py:20-31 | the dictionary decodes back to this bill |
| Billing.Bill.FromDict | Python/Projects/salem/Hospital_System_Management/model/billing.py:33-44 | a fresh bill holding the decoded fields |
| Billing.Bill.GetDiscountedAmount | Python/Projects/salem/Hospital_System_Management/model/billing.py:46-55 | equals the discounted amount of this bill's amount |
| Procedures.Normalize | Python/Projects/salem/Hospital_System_Management/model/patient.py:38-41 | date, description and every other stored key are kept; a procedure is billed exactly when its stored flag is true, and a missing flag reads as false |
| Procedures.NormalizeAll | Python/Projects/salem/Hospital_System_Management/model/patient.py:38-43 | every stored procedure is normalised, in order |
| Procedures.EncodeProcedure | Python/Projects/salem/Hospital_System_Management/model/patient.py:120 | a stored procedure always carries its billed flag, together with its other keys |
| Procedures.EncodeProcedures | Python/Projects/salem/Hospital_System_Management/model/patient.py:120 | the procedure list is written element by element, in order |
| Procedures.ProceduresRoundTrip | Python/Projects/salem/Hospital_System_Management/model/patient.py:38-43 | normalising written procedures gives them back unchanged |
| Procedures.Appended | Python/Projects/salem/Hospital_System_Management/model/patient.py:67-74 | `add_procedure` keeps every earlier entry and adds one unbilled entry at the end |
| Procedures.MarkBilled | Python/Projects/salem/Hospital_System_Management/model/patient.py:76-83 | only an in-range index is flagged, and every other entry is kept |
| Procedures.MarkBilledKeepsFlags | Python/Projects/salem/Hospital_System_Management/model/patient.py:76-83 | marking never clears a billed flag and never changes a date, a description or another key |
| Procedures.AfterBilling | Python/Projects/salem/Hospital_System_Management/core/hospital_system.py:479-496 | after a billing run exactly the unbilled procedures that received a valid amount are billed |
| Procedures.NewBillsOnePerEligible | Python/Projects/salem/Hospital_System_Management/core/hospital_system.py:480-495 | a run adds one unpaid bill per eligible procedure, each carrying a typed amount and a "Procedure: … on …" description |
| Procedures.SecondRunAddsNothing | Python/Projects/salem/Hospital_System_Management/core/hospital_system.py:480-483 | on a fully billed list a run adds no bill and changes no procedure |
| Procedures.FullRunBillsAll | Python/Projects/salem/Hospital_System_Management/core/hospital_system.py:484-495 | when every procedure gets a valid amount, the run leaves all of them billed |
| Procedures.RunKeepsFlags | Python/Projects/salem/Hospital_System_Management/core/hospital_system.py:479-496 | a run never clears a billed flag and never changes a date, a description or another key |
| Staffing.Staff.constructor | Python/Projects/salem/Hospital/model/staff.py:11-13 | a plain staff member stores the given fields and position, has the general role and has no patients |
| Staffing.Staff.Doctor | Python/Projects/salem/Hospital/model/staff.py:24-27 | a doctor has position "Doctor", the given specialty and no patients yet |
| Staffing.Staff.Nurse | Python/Projects/salem/Hospital/model/staff.py:37-39 | a nurse has position "Nurse" and the given department |
| Staffing.Staff.AddPatient | Python/Projects/salem/Hospital/model/staff.py:29-31 | a doctor's patient list grows by that patient at the end, without a repeat check |
| Staffing.Staff.ViewPatients | Python/Projects/salem/Hospital/model/staff.py:33-34 | a doctor's assigned patients, in assignment order; `AddPatient` extends this view by exactly the new patient |
| Departments.Department.constructor | Python/Projects/salem/Hospital_System_Management/model/department.py:9-14 | a new department has the given name and four empty lists |
| Departments.Department.AddPatient | Python/Projects/salem/Hospital_System_Management/model/department.py:16-23 | one patient appended; no roster changes |
| Departments.Department.AddStaff | Python/Projects/salem/Hospital_System_Management/model/department.py:25-32 | appended to `staff` only, and every roster member stays on the staff list |
| Departments.Department.AddDoctor | Python/Projects/salem/Hospital_System_Management/model/department.py:34-37 | appended to `doctors` and to `staff`; the doctor roster holds only doctors |
| Departments.Department.AddNurse | Python/Projects/salem/Hospital_System_Management/model/department.py:39-42 | appended to `nurses` and to `staff`; the nurse roster holds only nurses |
| Departments.Department.AssignPatientToDoctor | Python/Projects/salem/Hospital_System_Management/model/department.py:44-50 | exactly when the doctor is on the roster, both the doctor's and the department's patient lists gain the patient; otherwise neither changes |
| Departments.Department.RemoveFirstStaffNamed | Python/Projects/salem/Hospital_System_Management/core/hospital_system.py:408-411 | removes the first staff member with that name and keeps the rest in order; with no such member, nothing changes |
| Text.LowerChar | Python/Projects/salem/Hospital_System_Management/core/hospital_system.py:161 | ASCII capitals map to their lower-case letter, every other character is kept, and no capital remains |
| Text.Lower | Python/Projects/salem/Hospital_System_Management/core/hospital_system.py:161-164 | `str.lower()` on ASCII text: same length, each character lower-cased |
| Text.LowerIdempotent | student_system_manager/student_course_system/core/system_manager.py:60 | lower-casing twice equals lower-casing once |
| Text.LowerExamples | Python/Projects/salem/Hospital_System_Management/core/hospital_system.py:161-164 | "Doctor" and "NURSE" reach the doctor and nurse branches |
| Text.OrKeep | Python/Projects/salem/Hospital_System_Management/core/hospital_system.py:302-311 | `input() or current`: a blank answer keeps the current value, any other answer replaces it |
| Text.OrKeepOpt | Python/Projects/salem/Hospital_System_Management/core/hospital_system.py:330-331 | the same rule for an optional field |
| Patients.NormalizeKin | Python/Projects/salem/Hospital_System_Management/model/patient.py:27-35 | each next-of-kin key is copied when present and is "" otherwise; a non-dictionary gives all "" |
| Patients.NormalizeInsurance | Python/Projects/salem/Hospital_System_Management/model/patient.py:50-57 | missing insurance keys default to "" and coverage 0; no insurance gives the empty insurance |
| Patients.InsuranceRoundTrip | Python/Projects/salem/Hospital_System_Management/model/patient.py:50-57 | a normalised insurance written out and read back is unchanged |
| Patients.EncodePatient | Python/Projects/salem/Hospital_System_Management/model/patient.py:101-127 | `to_dict` writes the status, the insurance, and every bill and procedure |
| Patients.DecodePatient | Python/Projects/salem/Hospital_System_Management/model/patient.py:129-159 | `from_dict` applies the constructor's normalisation: kin and insurance are normalised, procedures get flags, bills are decoded, and a missing status is "normal" |
| Patients.PatientRoundTrip | Python/Projects/salem/Hospital_System_Management/model/patient.py:101-159 | a patient with a next of kin survives storage unchanged, field for field |
| Patients.RemovedKinReloadsEmpty | Python/Projects/salem/Hospital_System_Management/model/patient.py:27-35 | a next of kin removed by an edit reloads as the empty next of kin; everything else survives |
| Patients.Patient.constructor | Python/Projects/salem/Hospital_System_Management/model/patient.py:22-57 | every field is stored as given, after normalising kin, procedures and insurance; the defaults are status "normal", no bills and no procedures |
| Patients.Patient.AddBill | Python/Projects/salem/Hospital_System_Management/model/patient.py:59-65 | the bill object is appended; earlier bills are the same objects |
| Patients.Patient.AddProcedure | Python/Projects/salem/Hospital_System_Management/model/patient.py:67-74 | the procedures become `Appended(old, date, description)` |
| Patients.Patient.MarkProcedureBilled | Python/Projects/salem/Hospital_System_Management/model/patient.py:76-83 | the procedures become `MarkBilled(old, index)`, so no flag is cleared |
| Patients.Patient.BillProcedure | Python/Projects/salem/Hospital_System_Management/core/hospital_system.py:491-494 | one billing step: a fresh unpaid bill for that procedure is appended and the procedure becomes billed |
| Patients.Patient.UpdateStatus | Python/Projects/salem/Hospital_System_Management/model/patient.py:93-99 | stores any status, unchecked |
| Patients.Patient.SetRecord | Python/Projects/salem/Hospital_System_Management/core/hospital_system.py:347-361 | after the field-by-field assignment the record equals the given value |
| Patients.Patient.SetPersonal | Python/Projects/salem/Hospital_System_Management/core/hospital_system.py:347-355 | the identity and contact fields take the given values |
| Patients.Patient.SetCare | Python/Projects/salem/Hospital_System_Management/core/hospital_system.py:356-361 | status, kin, dates and insurance take the given values |
| Patients.Patient.ToDict | Python/Projects/salem/Hospital_System_Management/model/patient.py:101-127 | decoding the dictionary gives back this record, or the empty next of kin when it was removed |
| Patients.Patient.FromDict | Python/Projects/salem/Hospital_System_Management/model/patient.py:129-159 | a fresh patient, with fresh bills, whose record is the decoded dictionary |
| Patients.EditedKin | Python/Projects/salem/Hospital_System_Management/core/hospital_system.py:313-324 | "no"/"n" removes the next of kin; "yes"/"y" edits the current (or an empty) next of kin field by field, each field taking its typed answer or keeping its value when left blank; any other answer keeps it |
| Patients.EditedInsurance | Python/Projects/salem/Hospital_System_Management/core/hospital_system.py:333-346 | "no"/"n" empties the insurance; "yes"/"y" gives provider and policy number their typed answers (a blank keeps the value) and the coverage its typed number (a blank or non-numeric answer keeps it); any other answer keeps it |
| Patients.Edited | Python/Projects/salem/Hospital_System_Management/core/hospital_system.py:295-361 | each identity, contact, status and date field takes its typed answer and keeps its value when the answer is blank; next of kin and insurance follow `EditedKin` and `EditedInsurance`; the date of death is kept or replaced under "death" and cleared otherwise; the number, room, procedures and bills never change |
| Patients.BlankEditKeeps | Python/Projects/salem/Hospital_System_Management/core/hospital_system.py:302-331 | all-blank answers change nothing, except that a stale date of death on a living patient is cleared |
| Patients.FullEditSetsAnswers | Python/Projects/salem/Hospital_System_Management/core/hospital_system.py:302-346 | when every answer is typed (and "yes" to both questions), the edited record holds exactly the answers, with the old number, room, procedures and bills |
| Patients.EditIdempotent | Python/Projects/salem/Hospital_System_Management/core/hospital_system.py:302-361 | repeating an edit with the same answers changes nothing more |
| BasicPatients.EncodeBasicPatient | Python/Projects/salem/Hospital/model/patient.py:75-90 | every field is written, the status included |
| BasicPatients.DecodeBasicPatient | Python/Projects/salem/Hospital/model/patient.py:92-111 | stored fields are kept; procedures get flags; bills are decoded; a missing status is "normal" |
| BasicPatients.BasicPatientRoundTrip | Python/Projects/salem/Hospital/model/patient.py:75-111 | a patient of the simpler variant survives storage unchanged |
| BasicPatients.BasicPatient.constructor | Python/Projects/salem/Hospital/model/patient.py:18-31 | fields are stored as given; procedures get flags; the defaults are status "normal", no bills and no procedures |
| BasicPatients.BasicPatient.AddBill | Python/Projects/salem/Hospital/model/patient.py:33-39 | the bill object is appended |
| BasicPatients.BasicPatient.AddProcedure | Python/Projects/salem/Hospital/model/patient.py:41-48 | one unbilled entry is appended |
| BasicPatients.BasicPatient.MarkProcedureBilled | Python/Projects/salem/Hospital/model/patient.py:50-57 | only an in-range index is flagged, and no flag is cleared |
| BasicPatients.BasicPatient.BillProcedure | Python/Projects/salem/Hospital/core/hospital_system.py:341-344 | one billing step: a fresh unpaid bill is appended and the procedure becomes billed |
| BasicPatients.BasicPatient.UpdateStatus | Python/Projects/salem/Hospital/model/patient.py:67-73 | stores any status |
| BasicPatients.BasicPatient.ToDict | Python/Projects/salem/Hospital/model/patient.py:75-90 | decoding the dictionary gives back this record |
| BasicPatients.BasicPatient.FromDict | Python/Projects/salem/Hospital/model/patient.py:92-111 | a fresh patient with fresh bills holding the decoded record |
| BasicPatients.BasicEdited | Python/Projects/salem/Hospital/core/hospital_system.py:213-227 | name, age, condition and status each take their typed answer and keep their value when it is blank; the number, room, procedures and bills never change |
| BasicPatients.BasicBlankEditKeeps | Python/Projects/salem/Hospital/core/hospital_system.py:220-223 | all-blank answers change nothing |
| BasicPatients.BasicFullEditSetsAnswers | Python/Projects/salem/Hospital/core/hospital_system.py:220-227 | typed answers become the name, age, condition and status, and nothing else changes |
| BasicPatients.BasicEditIdempotent | Python/Projects/salem/Hospital/core/hospital_system.py:220-227 | repeating an edit with the same answers changes nothing more |
| Lookup.FirstMatch | Python/Projects/salem/Hospital_System_Management/core/hospital_system.py:454-459 | `find_patient` returns the first position whose name or number is the identifier, and none exactly when no patient matches |
| Lookup.FirstNamed | Python/Projects/salem/Hospital_System_Management/core/hospital_system.py:418 | returns the first position with that name, and none exactly when no patient has it |
| Lookup.StatusTargetAsWritten | Python/Projects/salem/Hospital_System_Management/core/hospital_system.py:661-667 | menu option 15 as written updates a patient at or before the one found, who shares its name |
| Lookup.StatusTargetCounterexample | Python/Projects/salem/Hospital_System_Management/core/hospital_system.py:661-667 | two patients named Ann: selecting the second by number updates the first |
| Lookup.StatusTargetAgreesOnDistinctNames | Python/Projects/salem/Hospital_System_Management/core/hospital_system.py:417-418 | with distinct names the re-lookup finds the patient that was found |
| Records.NumbersOf | Python/Projects/salem/Hospital_System_Management/core/hospital_system.py:32 | the patient numbers, one per patient, in order |
| Records.DedupByNumber | Python/Projects/salem/Hospital_System_Management/core/hospital_system.py:276-281 | the loaded patients that are kept have distinct numbers, cover every loaded number, and are all loaded patients |
| Records.DedupKeepsFirst | Python/Projects/salem/Hospital_System_Management/core/hospital_system.py:276-281 | each kept patient is the first loaded one with its number |
| Records.RoomsOf | Python/Projects/salem/Hospital_System_Management/core/hospital_system.py:282 | a room is in the map exactly when some patient holds it as a non-zero room number |
| Records.RoomsOfLastWins | Python/Projects/salem/Hospital_System_Management/core/hospital_system.py:282 | a shared room maps to the name of the last patient holding it |
| Hospital.ChargedBill | Python/Projects/salem/Hospital_System_Management/core/hospital_system.py:97-115 | with positive coverage the amount is discounted and the description annotated; otherwise both are as given; the bill is never paid, and with coverage in [0,100] it is never more than the amount |
| Hospital.HospitalSystem.constructor | Python/Projects/salem/Hospital_System_Management/core/hospital_system.py:18-23 | an empty hospital: no patients, rooms or departments |
| Hospital.HospitalSystem.AddPatient | Python/Projects/salem/Hospital_System_Management/core/hospital_system.py:47-83 | refused, changing nothing, exactly when the identifier is on file; otherwise a fresh patient is appended with the allocated number (unused) and the given details, and the room map gets a non-zero room |
| Hospital.HospitalSystem.AssignRoom | Python/Projects/salem/Hospital_System_Management/core/hospital_system.py:85-95 | the patient holds the room and the map points the room at the patient's name |
| Hospital.HospitalSystem.GenerateBill | Python/Projects/salem/Hospital_System_Management/core/hospital_system.py:97-115 | one fresh bill equal to `ChargedBill` is appended, and earlier bills are kept |
| Hospital.HospitalSystem.MarkBillPaid | Python/Projects/salem/Hospital_System_Management/core/hospital_system.py:434-452 | a bill is paid exactly when the index is valid, and only the chosen bill changes; amounts and descriptions never change |
| Hospital.HospitalSystem.Found | Python/Projects/salem/Hospital_System_Management/core/hospital_system.py:454-459 | a patient is found exactly when some patient's name or number is the identifier, and it is a listed patient |
| Hospital.HospitalSystem.FindPatient | Python/Projects/salem/Hospital_System_Management/core/hospital_system.py:454-459 | the loop returns `Found(identifier)` |
| Hospital.HospitalSystem.SetStatus | Python/Projects/salem/Hospital_System_Management/core/hospital_system.py:419-430 | only the four statuses are accepted; "death" stores the date and any other status clears it; a refusal changes nothing |
| Hospital.HospitalSystem.UpdatePatientStatus | Python/Projects/salem/Hospital_System_Management/core/hospital_system.py:417-432 | not found exactly when no patient has the name; otherwise the first such patient is updated as `SetStatus` says; only that patient's status and date of death can change |
| Hospital.HospitalSystem.AddProcedureToPatient | Python/Projects/salem/Hospital_System_Management/core/hospital_system.py:461-466 | the procedures become `Appended(old, date, description)` |
| Hospital.HospitalSystem.GenerateBillsFromProcedures | Python/Projects/salem/Hospital_System_Management/core/hospital_system.py:479-496 | the procedures become `AfterBilling` and the bills become the old bills followed by fresh ones equal to `NewBills` |
| Hospital.HospitalSystem.EditPatient | Python/Projects/salem/Hospital_System_Management/core/hospital_system.py:295-363 | the patient becomes `Edited(old record, answers)` |
| Hospital.HospitalSystem.RemovePatient | Python/Projects/salem/Hospital_System_Management/core/hospital_system.py:365-371 | removes the patient exactly when listed; the others keep their order; the room map is unchanged |
| Hospital.HospitalSystem.AddDepartment | Python/Projects/salem/Hospital_System_Management/core/hospital_system.py:129-140 | a fresh empty department exactly when the name is unused; otherwise nothing changes |
| Hospital.HospitalSystem.AddStaffToDepartment | Python/Projects/salem/Hospital_System_Management/core/hospital_system.py:142-170 | creates a missing department; the fresh member holds every given field; "doctor" and "nurse" (any case) give a doctor or a nurse on its roster, and anything else gives a plain member; the member is always appended to `staff`; the department's patients are kept |
| Hospital.HospitalSystem.AssignPatientToDoctorInDepartment | Python/Projects/salem/Hospital_System_Management/core/hospital_system.py:172-188 | reports the unknown department or doctor and then changes nothing; otherwise the first doctor of that name on the roster and the department gain the patient; the staff, doctor and nurse lists and every other doctor's patients stay as they were |
| Hospital.HospitalSystem.RemoveStaffFromDepartment | Python/Projects/salem/Hospital_System_Management/core/hospital_system.py:404-415 | removed exactly when the department has a staff member of that name; only the first is removed from `staff`, and the rosters are kept |
| Hospital.HospitalSystem.LoadPatients | Python/Projects/salem/Hospital_System_Management/core/hospital_system.py:274-282 | the patient list becomes `DedupByNumber` of the loaded patients and the room map is rebuilt from them |
| Hospital.HospitalSystem.MenuAssignRoom | Python/Projects/salem/Hospital_System_Management/core/hospital_system.py:578-588 | not found or deceased changes nothing; otherwise only the found patient gets the room |
| Hospital.HospitalSystem.MenuGenerateBill | Python/Projects/salem/Hospital_System_Management/core/hospital_system.py:589-600 | not found or deceased adds no bill; otherwise only the found patient is billed: its earlier bills are kept and one fresh `ChargedBill` follows them |
| Hospital.HospitalSystem.MenuRemovePatient | Python/Projects/salem/Hospital_System_Management/core/hospital_system.py:641-652 | only a found patient with status "normal" is removed, and the others keep their order; a deceased patient is kept for history |
| Hospital.HospitalSystem.MenuUpdateStatus | Python/Projects/salem/Hospital_System_Management/core/hospital_system.py:661-667 | corrected: the found patient's status is updated and no other patient changes |
| BasicHospital.BasicHospitalSystem.constructor | Python/Projects/salem/Hospital/core/hospital_system.py:16-21 | an empty hospital |
| BasicHospital.BasicHospitalSystem.Found | Python/Projects/salem/Hospital/core/hospital_system.py:304-309 | a patient is found exactly when some name or number matches, and it is a listed patient |
| BasicHospital.BasicHospitalSystem.FindPatient | Python/Projects/salem/Hospital/core/hospital_system.py:304-309 | the loop returns `Found(identifier)` |
| BasicHospital.BasicHospitalSystem.AddPatient | Python/Projects/salem/Hospital/core/hospital_system.py:45-73 | refused, changing nothing, exactly when the name is on file; otherwise a fresh patient with the allocated (unused) number is appended and a non-zero room is recorded |
| BasicHospital.BasicHospitalSystem.AssignRoom | Python/Projects/salem/Hospital/core/hospital_system.py:75-85 | the patient holds the room and the map points it at the patient's name |
| BasicHospital.BasicHospitalSystem.GenerateBill | Python/Projects/salem/Hospital/core/hospital_system.py:87-98 | one fresh unpaid bill with the raw amount and description is appended |
| BasicHospital.BasicHospitalSystem.MarkBillPaid | Python/Projects/salem/Hospital/core/hospital_system.py:284-302 | a bill is paid exactly when the index is valid, and only the chosen bill changes |
| BasicHospital.BasicHospitalSystem.UpdatePatientStatus | Python/Projects/salem/Hospital/core/hospital_system.py:271-282 | the first patient with that name takes a status among normal, surgery and emergency; nothing else changes |
| BasicHospital.BasicHospitalSystem.AddProcedureToPatient | Python/Projects/salem/Hospital/core/hospital_system.py:311-316 | one unbilled procedure is appended |
| BasicHospital.BasicHospitalSystem.GenerateBillsFromProcedures | Python/Projects/salem/Hospital/core/hospital_system.py:329-346 | the procedures become `AfterBilling` and the new bills equal `NewBills` |
| BasicHospital.BasicHospitalSystem.EditPatient | Python/Projects/salem/Hospital/core/hospital_system.py:213-229 | the patient becomes `BasicEdited(old record, answers)` |
| BasicHospital.BasicHospitalSystem.RemovePatient | Python/Projects/salem/Hospital/core/hospital_system.py:231-237 | removes the patient exactly when listed; the others keep their order; rooms are unchanged |
| BasicHospital.BasicHospitalSystem.AddDepartment | Python/Projects/salem/Hospital/core/hospital_system.py:112-123 | a fresh empty department exactly when the name is unused |
| BasicHospital.BasicHospitalSystem.RemoveStaffFromDepartment | Python/Projects/salem/Hospital/core/hospital_system.py:258-269 | only the first staff member of that name is removed from `staff` |
| BasicHospital.BasicHospitalSystem.LoadPatients | Python/Projects/salem/Hospital/core/hospital_system.py:192-200 | first patient per number, in order; room map rebuilt |
| BasicHospital.BasicHospitalSystem.MenuRemovePatient | Python/Projects/salem/Hospital/core/hospital_system.py:438-447 | only a found patient with status "normal" is removed, and the others keep their order |
| BasicHospital.BasicHospitalSystem.MenuUpdateStatus | Python/Projects/salem/Hospital/core/hospital_system.py:456-462 | corrected: the found patient's status is updated and no other patient changes |
| Counters.IdCounter.constructor | student_system_manager/student_course_system/model/student.py:2 | the counter starts at 1 |
| Counters.IdCounter.Take | student_system_manager/student_course_system/model/student.py:5-6 | the current value becomes the id and the counter moves one past it |
| Students.Student.constructor | student_system_manager/student_course_system/model/student.py:4-9 | takes the next id, has no grades and no courses |
| Students.Student.AddGrade | student_system_manager/student_course_system/model/student.py:14-15 | sets or overwrites that course's grade; every other grade stays |
| Students.Student.EnrollInCourse | student_system_manager/student_course_system/model/student.py:17-18 | appends the course name without a duplicate check |
| Courses.Course.constructor | student_system_manager/student_course_system/model/course.py:3-7 | takes the next id, the given name and nobody enrolled |
| Courses.Course.EnrollStudent | student_system_manager/student_course_system/model/course.py:12-17 | appends exactly when the name is absent, so the list never holds a name twice |
| StudentSystem.Without | student_system_manager/student_course_system/core/system_manager.py:19 | `del` removes the key from the iteration order, keeps the other keys, and keeps them distinct |
| StudentSystem.Matching | student_system_manager/student_course_system/core/system_manager.py:57-62 | a name is in the result exactly when it is a course name equal to the query once both are lower-cased |
| StudentSystem.SearchIgnoresCase | student_system_manager/student_course_system/core/system_manager.py:60 | the search gives the same answer for a query and its lower-cased form |
| StudentSystem.SystemManager.constructor | student_system_manager/student_course_system/core/system_manager.py:5-7 | no students and no courses |
| StudentSystem.SystemManager.AddStudent | student_system_manager/student_course_system/core/system_manager.py:9-13 | the new student is stored under its fresh id, which was not a key and is returned; nothing stored is replaced |
| StudentSystem.SystemManager.RemoveStudent | student_system_manager/student_course_system/core/system_manager.py:15-24 | the entry goes exactly when the id is known and the student has no courses; otherwise nothing changes |
| StudentSystem.SystemManager.AddCourse | student_system_manager/student_course_system/core/system_manager.py:26-30 | the new course is stored under its fresh id, which is returned |
| StudentSystem.SystemManager.RemoveCourse | student_system_manager/student_course_system/core/system_manager.py:32-41 | the entry goes exactly when the id is known and nobody is enrolled; otherwise nothing changes |
| StudentSystem.SystemManager.EnrollCourse | student_system_manager/student_course_system/core/system_manager.py:43-55 | unknown ids or an existing enrollment change nothing; otherwise both lists gain the names; the invariant keeps enrollments free of duplicates |
| StudentSystem.SystemManager.RecordGrade | student_system_manager/student_course_system/core/system_manager.py:64-71 | with both ids known the grade for the course's name is set; otherwise nothing changes |
| StudentSystem.SystemManager.CourseNames | student_system_manager/student_course_system/core/system_manager.py:59 | one name per stored course, in dictionary order |
| StudentSystem.SystemManager.SearchCourses | student_system_manager/student_course_system/core/system_manager.py:57-62 | the loop returns `Matching` of the course names in dictionary order |
| StudentSystem.SystemManager.AllStudents | student_system_manager/student_course_system/core/system_manager.py:73-74 | every stored student, once each, in insertion order |
| StudentSystem.SystemManager.AllCourses | student_system_manager/student_course_system/core/system_manager.py:76-77 | every stored course, once each, in insertion order |
| ReverseWords.Split | reversestr.py:27 | `split(" ")` gives one more piece than there are spaces, and no piece contains a space |
| ReverseWords.Join | reversestr.py:29 | `" ".join` is as long as the pieces plus one space between each pair of neighbours |
| ReverseWords.Reversed | reversestr.py:28 | `[::-1]` puts element i at position n−1−i |
| ReverseWords.Reverse | reversestr.py:16-30 | `reverse()`: split on " ", reverse the pieces, join with " "; the result splits into the input's pieces in reverse order and is as long as the input |
| ReverseWords.JoinSplit | reversestr.py:27-29 | joining the pieces of a split gives back the text |
| ReverseWords.SplitJoin | reversestr.py:27-29 | splitting a join of space-free pieces gives back the pieces |
| ReverseWords.SplitSpaceless | reversestr.py:27 | a text without spaces is a single piece |
| ReverseWords.SplitAfterPiece | reversestr.py:27 | a space-free piece followed by a space splits off first |
| ReverseWords.ReversePieces | reversestr.py:16-30 | the pieces of the result are the input's pieces in reverse order, each left intact |
| ReverseWords.ReverseInvolution | reversestr.py:27-30 | reversing twice gives back the input |
| ReverseWords.ReverseLength | reversestr.py:27-30 | the result is as long as the input |
| ReverseWords.ReverseSpaceless | reversestr.py:27-30 | a text with no space comes back unchanged |
| ReverseWords.ReverseTwoWords | reversestr.py:16-30 | "ab cd" becomes "cd ab" |
| ReverseWords.ReverseLeadingSpace | reversestr.py:27-30 | a leading space comes back as a trailing one |

## Findings

| source | as written | input that shows it | evidently intended | confidence | as-written member | corrected member |
|---|---|---|---|---|---|---|
| Python/Projects/salem/Hospital_System_Management/core/hospital_system.py:661-667 | Menu option 15 finds a patient by name or number, then `update_patient_status(patient.name)` looks the patient up again by name alone | two patients named "Ann" numbered 1001 and 1002; the identifier "1002" selects the second Ann, but the status of the first Ann is changed | update the status of the patient that was found | high, not executed | Lookup.StatusTargetAsWritten (counterexample: Lookup.StatusTargetCounterexample) | Hospital.HospitalSystem.MenuUpdateStatus |
| Python/Projects/salem/Hospital/core/hospital_system.py:456-462 | The same re-lookup by name in the simpler variant | the same two patients named "Ann" | update the status of the patient that was found | high, not executed | Lookup.StatusTargetAsWritten (counterexample: Lookup.StatusTargetCounterexample) | BasicHospital.BasicHospitalSystem.MenuUpdateStatus |

The as-written operations remain in the model as `UpdatePatientStatus(name, …)` of each engine. The menu methods model the corrected behaviour.

## Left out

- Terminal I/O is not modelled: `print`, `input`, the menu loop, `PrettyTable` and the view functions (`view_bills`, `view_rooms`, `view_department_staff`, `view_doctor_patients`, `view_patient_procedures`, `view_procedures`, `__str__`). Keyboard answers are parameters.
- JSON files are not modelled: `save_data`, the file half of `load_data` and the file read in `generate_patient_number`. Persisted patient numbers are passed in as a sequence, and loaded patients as a sequence of objects. The dictionaries are modelled as value codecs.
- Hospital.HospitalSystem.constructor, BasicHospital.BasicHospitalSystem.constructor: do not call `load_data`. They model the state after a failed load; `LoadPatients` models a successful one.
- Staff persistence is not modelled. `save_data` keeps only name, age and position. The richer `load_data` passes the position as the third positional argument of a nine-argument constructor. The simpler one calls `Staff` with three arguments. Neither round-trips.
- The simpler variant's `add_staff_to_department` is not modelled. It calls `Staff(name, age, position)`, which the nine-argument `Staff.__init__` rejects.
- `edit_staff_in_department` (both variants) is not modelled. It is a terminal dialogue over fields that no other operation reads.
- `Course.remove_student` is not modelled. It reads `self.courses`, which `Course` never defines, so it cannot run.
- Patients.EditedKin, Patients.EditedInsurance: take the yes/no answer already classified. The `.strip().lower()` step before the comparison is not modelled.
- The current date stamped by `add_patient` (`datetime.now()`) is a parameter.
- Floating point is not modelled: amounts and coverage are exact reals.
  - Billing.PercentText: renders a coverage as its whole part followed by ".0". A fractional coverage such as 12.5 is printed differently by Python.
- Procedures.Normalize: models the other keys of a stored procedure as text values. JSON values of other types (numbers, lists) are not modelled.
- Allocation.NextPatientNumberMonotone: holds only once some stored number is all digits. Before that the baseline "1001" can be followed by a smaller number, as `Allocation.FirstShortNumberDrops` shows.
- Text.Lower: covers ASCII only. Python's `str.lower()` also folds non-ASCII letters.
- Decimal.IsDigits: covers ASCII digits only. Python's `str.isdigit()` also accepts other Unicode digits.
- Hospital.HospitalSystem.EditPatient: takes the age as an integer or blank. `int(new_age)` raising `ValueError` on non-numeric text is not modelled. The same holds for `BasicHospital.BasicHospitalSystem.EditPatient`.
- Hospital.HospitalSystem.AddPatient: does not model the second duplicate check (by number). `Allocation.NextPatientNumberIsFresh` proves it can never fire. The same holds for `BasicHospital.BasicHospitalSystem.AddPatient`.
- Numbers and room numbers are modelled as strings and integers.
  - `find_patient` compares `str(number)` with `str(identifier)`.
  - The integer form of an identifier (the Python code accepts both) is not modelled.
- Class-level counters are modelled as counter objects passed to the constructors.
  - Python shares one counter per class across all managers.
  - The model lets the caller pass the same pair to every manager.
