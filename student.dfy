/**
  A student of the course system: an id taken from the student counter, a name, grades
  by course name and the names of the courses enrolled in.
 */
module Students {
  import opened Counters

  class Student {
    const studentId: int
    /** The name; no operation reassigns it. */
    const name: string
    /** Grade by course name. */
    var grades: map<string, string>
    var enrolledCourses: seq<string>

    /** `Student(name)`: the next id, no grades and no courses. */
    constructor (name: string, counter: IdCounter)
      modifies counter`next
      ensures studentId == old(counter.next) && counter.next == old(counter.next) + 1
      ensures this.name == name && grades == map[] && enrolledCourses == []
    {
      var id := counter.Take();
      studentId := id;
      this.name := name;
      grades := map[];
      enrolledCourses := [];
    }

    /** `add_grade`: sets or overwrites the grade for that course; every other grade stays. */
    method AddGrade(course: string, grade: string)
      modifies this`grades
      ensures course in grades && grades[course] == grade
      ensures grades.Keys == old(grades.Keys) + {course}
      ensures forall k :: k in old(grades) && k != course ==> grades[k] == old(grades[k])
    {
      grades := grades[course := grade];
    }

    /** `enroll_in_course`: the course name goes at the end, without any duplicate check. */
    method EnrollInCourse(course: string)
      modifies this`enrolledCourses
      ensures enrolledCourses == old(enrolledCourses) + [course]
    {
      enrolledCourses := enrolledCourses + [course];
    }
  }
}
