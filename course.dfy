/**
  A course of the course system: an id taken from the course counter, a name and the
  names of the enrolled students, kept free of repeats by `enroll_student`.
 */
module Courses {
  import opened Counters

  /** No element occurs twice. */
  predicate Distinct<T(==)>(s: seq<T>) {
    forall i, j :: 0 <= i < j < |s| ==> s[i] != s[j]
  }

  class Course {
    const courseId: int
    /** The name; no operation reassigns it. */
    const name: string
    var enrolledStudents: seq<string>

    /** `Course(name)`: the next id and nobody enrolled. */
    constructor (name: string, counter: IdCounter)
      modifies counter`next
      ensures courseId == old(counter.next) && counter.next == old(counter.next) + 1
      ensures this.name == name && enrolledStudents == []
    {
      var id := counter.Take();
      courseId := id;
      this.name := name;
      enrolledStudents := [];
    }

    /**
      `enroll_student`: a name not yet on the list goes at the end; a name already there
      leaves the list as it is, so the list never holds a name twice.
     */
    method EnrollStudent(student: string) returns (added: bool)
      modifies this`enrolledStudents
      ensures added <==> student !in old(enrolledStudents)
      ensures enrolledStudents == if added then old(enrolledStudents) + [student] else old(enrolledStudents)
      ensures student in enrolledStudents
      ensures Distinct(old(enrolledStudents)) ==> Distinct(enrolledStudents)
    {
      added := student !in enrolledStudents;
      if added {
        enrolledStudents := enrolledStudents + [student];
      }
    }
  }
}
