/** The student-list helpers of ES6_data_manipulation: `getListStudentIds`
    (1-get_list_student_ids.js), `getStudentsByLocation`
    (2-get_students_by_loc.js), `getStudentIdsSum` (3-get_ids_sum.js) and
    `updateStudentGradeByCity` (4-update_grade_by_city.js). A student object
    is a value with the three properties the helpers read. */
module Students {
  import opened Wrappers
  import opened Seqs

  datatype Student = Student(id: int, firstName: string, location: string)

  /** An argument tested with `Array.isArray`: an array, or anything else. */
  datatype JsList<T> = JsArray(items: seq<T>) | NotArray

  // ---- getListStudentIds ----

  /** `list.map((student) => student.id)`. */
  function Ids(list: seq<Student>): (r: seq<int>)
    ensures |r| == |list|
    ensures forall i :: 0 <= i < |list| ==> r[i] == list[i].id
  {
    if |list| == 0 then [] else [list[0].id] + Ids(list[1..])
  }

  /** `getListStudentIds(list)`: [] for a non-array, the ids in order
      otherwise. */
  function GetListStudentIds(list: JsList<Student>): (r: seq<int>)
    ensures list.NotArray? ==> r == []
    ensures list.JsArray? ==> |r| == |list.items| && forall i :: 0 <= i < |r| ==> r[i] == list.items[i].id
  {
    match list
    case NotArray => []
    case JsArray(items) => Ids(items)
  }

  // ---- getStudentsByLocation ----

  /** `studentList.filter((student) => student.location === city)`. */
  function InCity(students: seq<Student>, city: string): (r: seq<Student>)
    ensures |r| <= |students|
    ensures forall s :: s in r ==> s in students && s.location == city
    ensures forall s :: multiset(r)[s] == if s.location == city then multiset(students)[s] else 0
  {
    if |students| == 0 then []
    else
      assert students == [students[0]] + students[1..];
      var rest := InCity(students[1..], city);
      if students[0].location == city then [students[0]] + rest else rest
  }

  /** The filter keeps order: filtering a concatenation concatenates the
      filtered parts, so every kept student keeps its place relative to the
      others. */
  lemma {:induction false} InCityAppend(a: seq<Student>, b: seq<Student>, city: string)
    ensures InCity(a + b, city) == InCity(a, city) + InCity(b, city)
  {
    if |a| > 0 {
      assert (a + b)[1..] == a[1..] + b;
      InCityAppend(a[1..], b, city);
    } else {
      assert a + b == b;
    }
  }

  /** `getStudentsByLocation(studentList, city)`. */
  function GetStudentsByLocation(studentList: JsList<Student>, city: string): (r: seq<Student>)
    ensures studentList.NotArray? ==> r == []
    ensures studentList.JsArray? ==> r == InCity(studentList.items, city)
  {
    match studentList
    case NotArray => []
    case JsArray(items) => InCity(items, city)
  }

  // ---- getStudentIdsSum ----

  /** `getStudentIdsSum(studentList)`:
      `studentList.reduce((sum, student) => sum + student.id, 0)`, folding
      from the left, in unbounded integers: the source's additions on
      JavaScript Numbers agree only while the partial sums stay within 2^53. */
  function GetStudentIdsSum(studentList: seq<Student>): (r: int)
    ensures |studentList| == 0 ==> r == 0
  {
    if |studentList| == 0 then 0
    else GetStudentIdsSum(studentList[..|studentList| - 1]) + studentList[|studentList| - 1].id
  }

  /** Appending one student adds its id. */
  lemma IdsSumSnoc(list: seq<Student>, s: Student)
    ensures GetStudentIdsSum(list + [s]) == GetStudentIdsSum(list) + s.id
  {
    assert (list + [s])[..|list|] == list;
  }

  /** The sum of a concatenation is the sum of the sums. */
  lemma {:induction false} IdsSumAppend(a: seq<Student>, b: seq<Student>)
    ensures GetStudentIdsSum(a + b) == GetStudentIdsSum(a) + GetStudentIdsSum(b)
    decreases |b|
  {
    if |b| == 0 {
      assert a + b == a;
    } else {
      var b' := b[..|b| - 1];
      assert a + b == (a + b') + [b[|b| - 1]];
      assert b == b' + [b[|b| - 1]];
      IdsSumAppend(a, b');
      IdsSumSnoc(a + b', b[|b| - 1]);
      IdsSumSnoc(b', b[|b| - 1]);
    }
  }

  /** The sum does not depend on the order of the list. */
  lemma {:induction false} IdsSumPermutation(a: seq<Student>, b: seq<Student>)
    requires multiset(a) == multiset(b)
    ensures GetStudentIdsSum(a) == GetStudentIdsSum(b)
    decreases |a|
  {
    if |a| == 0 {
      assert |b| == |multiset(b)| == 0;
    } else {
      var s := a[|a| - 1];
      assert s in multiset(b);
      var i :| 0 <= i < |b| && b[i] == s;
      PermutationRemove(a, b, i);
      var a', b' := a[..|a| - 1], RemoveAt(b, i);
      assert a == a' + [s];
      IdsSumPermutation(a', b');
      IdsSumSnoc(a', s);
      IdsSumRemoveOne(b, i);
    }
  }

  lemma IdsSumRemoveOne(b: seq<Student>, i: nat)
    requires i < |b|
    ensures GetStudentIdsSum(b) == GetStudentIdsSum(b[..i] + b[i + 1..]) + b[i].id
  {
    var x, pre, post := b[i], b[..i], b[i + 1..];
    calc {
      GetStudentIdsSum(b);
      { SplitAround(b, i); }
      GetStudentIdsSum(pre + ([x] + post));
      { IdsSumAppend(pre, [x] + post); }
      GetStudentIdsSum(pre) + GetStudentIdsSum([x] + post);
      { IdsSumAppend([x], post); }
      GetStudentIdsSum(pre) + GetStudentIdsSum([x]) + GetStudentIdsSum(post);
      { IdsSumSnoc([], x); assert [] + [x] == [x]; }
      GetStudentIdsSum(pre) + x.id + GetStudentIdsSum(post);
      { IdsSumAppend(pre, post); }
      GetStudentIdsSum(pre + post) + x.id;
    }
  }

  // ---- updateStudentGradeByCity ----

  /** An element of `updatedGrades`. */
  datatype GradeEntry<G> = GradeEntry(studentId: int, grade: G)

  /** The `grade` property of a returned object: the value found, or the
      string 'N/A'. */
  datatype Grade<G> = Given(value: G) | NotAvailable

  /** The new object `{ ...student, grade }`. */
  datatype GradedStudent<G> = GradedStudent(student: Student, grade: Grade<G>)

  /** The position `updatedGrades.find((grade) => grade.studentId === id)`
      stops at: the first entry for the id, None when there is none. */
  function FirstEntryFor<G>(updatedGrades: seq<GradeEntry<G>>, id: int): (r: Option<nat>)
    ensures r.None? <==> forall i :: 0 <= i < |updatedGrades| ==> updatedGrades[i].studentId != id
    ensures r.Some? ==> r.value < |updatedGrades| && updatedGrades[r.value].studentId == id
    ensures r.Some? ==> forall j :: 0 <= j < r.value ==> updatedGrades[j].studentId != id
  {
    if |updatedGrades| == 0 then None
    else if updatedGrades[0].studentId == id then Some(0)
    else match FirstEntryFor(updatedGrades[1..], id)
      case None => None
      case Some(i) => Some(i + 1)
  }

  /** `studentGrade ? studentGrade.grade : 'N/A'`: the found object is
      always truthy, so only a missing entry gives 'N/A'. */
  function FindGrade<G>(updatedGrades: seq<GradeEntry<G>>, id: int): (r: Grade<G>)
    ensures r.NotAvailable? <==> forall i :: 0 <= i < |updatedGrades| ==> updatedGrades[i].studentId != id
    ensures r.Given? ==> exists i :: (0 <= i < |updatedGrades| && updatedGrades[i] == GradeEntry(id, r.value)
                                      && forall j :: 0 <= j < i ==> updatedGrades[j].studentId != id)
  {
    match FirstEntryFor(updatedGrades, id)
    case None => NotAvailable
    case Some(i) => Given(updatedGrades[i].grade)
  }

  /** The `.map(...)` over the students already filtered. */
  function WithGrades<G>(students: seq<Student>, updatedGrades: seq<GradeEntry<G>>): (r: seq<GradedStudent<G>>)
    ensures |r| == |students|
    ensures forall i :: 0 <= i < |r| ==> r[i] == GradedStudent(students[i], FindGrade(updatedGrades, students[i].id))
  {
    if |students| == 0 then []
    else [GradedStudent(students[0], FindGrade(updatedGrades, students[0].id))] + WithGrades(students[1..], updatedGrades)
  }

  /** `updateStudentGradeByCity(students, city, updatedGrades)`. */
  function UpdateStudentGradeByCity<G>(students: JsList<Student>, city: string, updatedGrades: seq<GradeEntry<G>>)
    : (r: seq<GradedStudent<G>>)
    ensures students.NotArray? ==> r == []
  {
    match students
    case NotArray => []
    case JsArray(items) => WithGrades(InCity(items, city), updatedGrades)
  }

  /** The result holds new objects for exactly the students of the city, in
      input order, with every other property copied and the grade of the
      first matching entry of `updatedGrades` ('N/A' when none matches). */
  lemma UpdateStudentGradeByCityContents<G>(items: seq<Student>, city: string, updatedGrades: seq<GradeEntry<G>>)
    ensures var r := UpdateStudentGradeByCity(JsArray(items), city, updatedGrades);
      && |r| == |InCity(items, city)|
      && forall i :: 0 <= i < |r| ==>
           && r[i].student == InCity(items, city)[i]
           && r[i].student.location == city
           && r[i].grade == FindGrade(updatedGrades, r[i].student.id)
  {
    var c := InCity(items, city);
    forall i | 0 <= i < |c| ensures c[i].location == city {
      assert c[i] in c;
    }
  }
}
