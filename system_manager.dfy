/**
  `SystemManager` of the course system: students and courses in dictionaries keyed by id.
  A Python `dict` remembers insertion order, and `values()` follows it; the model keeps
  that order beside each map. Ids come from the two class-level counters, so a new id is
  never already a key. A student or course leaves only when it has no enrollments, and
  enrolling cannot create a duplicate.
 */
module StudentSystem {
  import opened Counters
  import opened Students
  import opened Courses
  import opened Text

  /** `order` lists each key of `keys` exactly once. */
  ghost predicate OrderOf(order: seq<int>, keys: set<int>) {
    && Distinct(order)
    && (forall i :: 0 <= i < |order| ==> order[i] in keys)
    && (forall k :: k in keys ==> k in order)
  }

  /** A new key at the end keeps the order free of repeats. */
  lemma DistinctAppend(order: seq<int>, x: int)
    requires Distinct(order) && x !in order
    ensures Distinct(order + [x])
  {
    forall i, j | 0 <= i < j < |order| + 1
      ensures (order + [x])[i] != (order + [x])[j]
    {
      if j == |order| {
        assert order[i] in order;
      }
    }
  }

  /** An order lists exactly as many keys as there are. */
  lemma OrderCardinality(order: seq<int>, keys: set<int>)
    requires OrderOf(order, keys)
    ensures |keys| == |order|
  {
    DistinctCardinality(order);
    forall k | k in order
      ensures k in keys
    {
      var i :| 0 <= i < |order| && order[i] == k;
    }
    var listed := set k | k in order;
    forall k | k in keys
      ensures k in listed
    {
      assert k in order;
    }
    assert keys == listed;
  }

  /** Dropping a key from the map and from its order keeps the two in step. */
  lemma OrderWithout(order: seq<int>, keys: set<int>, x: int)
    requires OrderOf(order, keys)
    ensures OrderOf(Without(order, x), keys - {x})
  {
    var r := Without(order, x);
    forall i | 0 <= i < |r|
      ensures r[i] in keys - {x}
    {
      assert r[i] in r;
      var j :| 0 <= j < |order| && order[j] == r[i];
    }
  }

  /** A list that takes the map's value for each key of a complete order holds every value. */
  lemma ValuesListed<V>(order: seq<int>, m: map<int, V>, r: seq<V>)
    requires OrderOf(order, m.Keys)
    requires |r| == |order| && forall i :: 0 <= i < |order| ==> r[i] == m[order[i]]
    ensures forall k :: k in m ==> m[k] in r
  {
    forall k | k in m
      ensures m[k] in r
    {
      var i :| 0 <= i < |order| && order[i] == k;
      assert r[i] == m[k];
    }
  }

  /** `order` with `x` dropped; the rest keep their order, as `del` leaves a dict. */
  function Without(order: seq<int>, x: int): (r: seq<int>)
    ensures forall y :: y in r <==> y in order && y != x
    ensures Distinct(order) ==> Distinct(r)
    decreases |order|
  {
    if order == [] then []
    else
      var n := |order| - 1;
      assert order == order[..n] + [order[n]];
      var rest := Without(order[..n], x);
      if order[n] == x then rest
      else
        assert Distinct(order) ==> order[n] !in order[..n];
        rest + [order[n]]
  }

  /** A list with no repeats is as long as the set of its elements is large. */
  lemma {:induction false} DistinctCardinality(order: seq<int>)
    requires Distinct(order)
    ensures |set k | k in order| == |order|
    decreases |order|
  {
    if order != [] {
      var n := |order| - 1;
      assert order == order[..n] + [order[n]];
      DistinctCardinality(order[..n]);
      assert (set k | k in order) == (set k | k in order[..n]) + {order[n]};
      assert order[n] !in order[..n];
    }
  }

  /**
    `search_courses` over the course names in dictionary order: the names equal to the
    query once both are lower-cased, kept in order (repeats included).
   */
  function Matching(names: seq<string>, query: string): (r: seq<string>)
    ensures |r| <= |names|
    ensures forall n :: n in r <==> n in names && Lower(n) == Lower(query)
    decreases |names|
  {
    if names == [] then []
    else
      var n := |names| - 1;
      assert names == names[..n] + [names[n]];
      var rest := Matching(names[..n], query);
      if Lower(names[n]) == Lower(query) then rest + [names[n]] else rest
  }

  /** The search ignores the case of the query: a lower-cased query finds the same names. */
  lemma {:induction false} SearchIgnoresCase(names: seq<string>, query: string)
    ensures Matching(names, Lower(query)) == Matching(names, query)
    decreases |names|
  {
    LowerIdempotent(query);
    if names != [] {
      SearchIgnoresCase(names[..|names| - 1], query);
    }
  }

  /** What `remove_student` and `remove_course` report. */
  datatype RemoveOutcome = Removed | HasEnrollments | UnknownId

  /** What `enroll_course` reports. */
  datatype EnrollOutcome = Enrolled | AlreadyEnrolled | UnknownIds

  class SystemManager {
    var students: map<int, Student>
    var courses: map<int, Course>
    /** The keys of `students` in insertion order. */
    var studentOrder: seq<int>
    /** The keys of `courses` in insertion order. */
    var courseOrder: seq<int>
    /** `Student._id_counter`. */
    const studentIds: IdCounter
    /** `Course._id_counter`. */
    const courseIds: IdCounter

    /**
      Each key is its object's id and lies below its counter; the orders list each key
      once; no student lists a course twice and no course lists a student twice.
     */
    ghost predicate Valid()
      reads this, studentIds, courseIds, students.Values, courses.Values
    {
      && OrderOf(studentOrder, students.Keys)
      && OrderOf(courseOrder, courses.Keys)
      && (forall k :: k in students ==> students[k].studentId == k && k < studentIds.next)
      && (forall k :: k in courses ==> courses[k].courseId == k && k < courseIds.next)
      && (forall k :: k in students ==> Distinct(students[k].enrolledCourses))
      && (forall k :: k in courses ==> Distinct(courses[k].enrolledStudents))
    }

    /** `SystemManager()`: no students and no courses; the counters are the shared class attributes. */
    constructor (studentIds: IdCounter, courseIds: IdCounter)
      ensures Valid()
      ensures students == map[] && courses == map[] && studentOrder == [] && courseOrder == []
      ensures this.studentIds == studentIds && this.courseIds == courseIds
    {
      students, courses, studentOrder, courseOrder := map[], map[], [], [];
      this.studentIds, this.courseIds := studentIds, courseIds;
    }

    /**
      `add_student`: a new student under its fresh id, which is returned; the id was not a
      key before, so no stored student is replaced.
     */
    method AddStudent(name: string) returns (id: int)
      requires Valid()
      modifies this`students, this`studentOrder, studentIds`next
      ensures Valid()
      ensures id == old(studentIds.next) && id !in old(students)
      ensures id in students && fresh(students[id])
      ensures students == old(students)[id := students[id]]
      ensures students[id].name == name && students[id].grades == map[] && students[id].enrolledCourses == []
      ensures studentOrder == old(studentOrder) + [id]
    {
      var s := new Student(name, studentIds);
      id := s.studentId;
      DistinctAppend(studentOrder, id);
      students := students[id := s];
      studentOrder := studentOrder + [id];
    }

    /**
      `remove_student`: the entry goes only when the id is known and the student has no
      enrolled courses; otherwise nothing changes.
     */
    method RemoveStudent(id: int) returns (outcome: RemoveOutcome)
      requires Valid()
      modifies this`students, this`studentOrder
      ensures Valid()
      ensures outcome == UnknownId <==> id !in old(students)
      ensures outcome == HasEnrollments <==> id in old(students) && old(students[id].enrolledCourses) != []
      ensures outcome == Removed ==> students == old(students) - {id} && studentOrder == Without(old(studentOrder), id)
      ensures outcome != Removed ==> students == old(students) && studentOrder == old(studentOrder)
    {
      if id !in students {
        return UnknownId;
      }
      if students[id].enrolledCourses != [] {
        return HasEnrollments;
      }
      OrderWithout(studentOrder, students.Keys, id);
      students := students - {id};
      studentOrder := Without(studentOrder, id);
      outcome := Removed;
    }

    /**
      `add_course`: a new course under its fresh id, which is returned; the id was not a
      key before, so no stored course is replaced.
     */
    method AddCourse(name: string) returns (id: int)
      requires Valid()
      modifies this`courses, this`courseOrder, courseIds`next
      ensures Valid()
      ensures id == old(courseIds.next) && id !in old(courses)
      ensures id in courses && fresh(courses[id])
      ensures courses == old(courses)[id := courses[id]]
      ensures courses[id].name == name && courses[id].enrolledStudents == []
      ensures courseOrder == old(courseOrder) + [id]
    {
      var c := new Course(name, courseIds);
      id := c.courseId;
      DistinctAppend(courseOrder, id);
      courses := courses[id := c];
      courseOrder := courseOrder + [id];
    }

    /**
      `remove_course`: the entry goes only when the id is known and nobody is enrolled;
      otherwise nothing changes.
     */
    method RemoveCourse(id: int) returns (outcome: RemoveOutcome)
      requires Valid()
      modifies this`courses, this`courseOrder
      ensures Valid()
      ensures outcome == UnknownId <==> id !in old(courses)
      ensures outcome == HasEnrollments <==> id in old(courses) && old(courses[id].enrolledStudents) != []
      ensures outcome == Removed ==> courses == old(courses) - {id} && courseOrder == Without(old(courseOrder), id)
      ensures outcome != Removed ==> courses == old(courses) && courseOrder == old(courseOrder)
    {
      if id !in courses {
        return UnknownId;
      }
      if courses[id].enrolledStudents != [] {
        return HasEnrollments;
      }
      OrderWithout(courseOrder, courses.Keys, id);
      courses := courses - {id};
      courseOrder := Without(courseOrder, id);
      outcome := Removed;
    }

    /**
      `enroll_course`: with both ids known and the course's name not yet among the
      student's courses, the name is appended to the student's courses and the student's
      name to the course's students (unless a student of that name is already listed).
      Anything else changes nothing, so no enrollment is ever duplicated.
     */
    method EnrollCourse(studentId: int, courseId: int) returns (outcome: EnrollOutcome)
      requires Valid()
      modifies (set s | s in students.Values)`enrolledCourses, (set c | c in courses.Values)`enrolledStudents
      ensures Valid()
      ensures outcome == UnknownIds <==> !(studentId in students && courseId in courses)
      ensures outcome == AlreadyEnrolled <==>
                studentId in students && courseId in courses
                && courses[courseId].name in old(students[studentId].enrolledCourses)
      ensures outcome == Enrolled ==>
                var s, c := students[studentId], courses[courseId];
                s.enrolledCourses == old(s.enrolledCourses) + [c.name]
                && c.enrolledStudents == if s.name in old(c.enrolledStudents) then old(c.enrolledStudents)
                                         else old(c.enrolledStudents) + [s.name]
      ensures forall s :: s in students.Values && (outcome == Enrolled ==> s != students[studentId])
                ==> s.enrolledCourses == old(s.enrolledCourses)
      ensures forall c :: c in courses.Values && (outcome == Enrolled ==> c != courses[courseId])
                ==> c.enrolledStudents == old(c.enrolledStudents)
    {
      if !(studentId in students && courseId in courses) {
        return UnknownIds;
      }
      var s, c := students[studentId], courses[courseId];
      if c.name in s.enrolledCourses {
        return AlreadyEnrolled;
      }
      s.EnrollInCourse(c.name);
      var _ := c.EnrollStudent(s.name);
      outcome := Enrolled;
      forall k | k in students
        ensures Distinct(students[k].enrolledCourses)
      {
        if students[k] != s {
          assert students[k].enrolledCourses == old(students[k].enrolledCourses);
        }
      }
    }

    /** `record_grade`: with both ids known the student's grade for the course's name is set; otherwise nothing changes. */
    method RecordGrade(studentId: int, courseId: int, grade: string) returns (recorded: bool)
      requires Valid()
      modifies (set s | s in students.Values)`grades
      ensures Valid()
      ensures recorded <==> studentId in students && courseId in courses
      ensures recorded ==> students[studentId].grades == old(students[studentId].grades)[courses[courseId].name := grade]
      ensures forall s :: s in students.Values && (recorded ==> s != students[studentId]) ==> s.grades == old(s.grades)
    {
      recorded := studentId in students && courseId in courses;
      if recorded {
        students[studentId].AddGrade(courses[courseId].name, grade);
      }
    }

    /** The course names in dictionary order. */
    function CourseNames(): (names: seq<string>)
      requires Valid()
      reads this, studentIds, courseIds, students.Values, courses.Values
      ensures |names| == |courses| == |courseOrder|
      ensures forall i :: 0 <= i < |courseOrder| ==> names[i] == courses[courseOrder[i]].name
    {
      OrderCardinality(courseOrder, courses.Keys);
      var order, m := courseOrder, courses;
      seq(|order|, i requires 0 <= i < |order| && order[i] in m => m[order[i]].name)
    }

    /** `search_courses`: the loop over the course names, proved to compute `Matching`. */
    method SearchCourses(query: string) returns (result: seq<string>)
      requires Valid()
      ensures result == Matching(CourseNames(), query)
    {
      var names := CourseNames();
      result := [];
      var i := 0;
      while i < |names|
        invariant 0 <= i <= |names|
        invariant result == Matching(names[..i], query)
      {
        assert names[..i + 1][..i] == names[..i];
        if Lower(query) == Lower(names[i]) {
          result := result + [names[i]];
        }
        i := i + 1;
      }
      assert names[..i] == names;
    }

    /** `get_all_students`: every stored student, in insertion order. */
    function AllStudents(): (r: seq<Student>)
      requires Valid()
      reads this, studentIds, courseIds, students.Values, courses.Values
      ensures |r| == |students| == |studentOrder|
      ensures forall k :: k in students ==> students[k] in r
      ensures forall i :: 0 <= i < |r| ==> studentOrder[i] in students && r[i] == students[studentOrder[i]]
    {
      OrderCardinality(studentOrder, students.Keys);
      var order, m := studentOrder, students;
      var r := seq(|order|, i requires 0 <= i < |order| && order[i] in m => m[order[i]]);
      ValuesListed(order, m, r);
      r
    }

    /** `get_all_courses`: every stored course, in insertion order. */
    function AllCourses(): (r: seq<Course>)
      requires Valid()
      reads this, studentIds, courseIds, students.Values, courses.Values
      ensures |r| == |courses| == |courseOrder|
      ensures forall k :: k in courses ==> courses[k] in r
      ensures forall i :: 0 <= i < |r| ==> courseOrder[i] in courses && r[i] == courses[courseOrder[i]]
    {
      OrderCardinality(courseOrder, courses.Keys);
      var order, m := courseOrder, courses;
      var r := seq(|order|, i requires 0 <= i < |order| && order[i] in m => m[order[i]]);
      ValuesListed(order, m, r);
      r
    }
  }
}
