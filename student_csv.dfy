/** The student-CSV readers of Node_JS: `readDatabase`
    (Node_JS/full_server/utils.js), which groups first names by field, and
    `countStudents` (Node_JS/2-read_file.js and its promise-based twin
    Node_JS/3-read_file_async.js), which prints the same grouping with
    counts. The file's text is passed in, None where reading it fails; the
    console is the returned sequence of printed lines. */
module StudentCsv {
  import opened Wrappers
  import opened Strings
  import opened Seqs
  import opened JsObjects

  const LoadError: string := "Cannot load the database"

  /** The properties every plain object inherits from Object.prototype
      (section 20.1.3 of ECMA-262 and Annex B.2.2). Each is truthy, so
      `fields[field]` finds it, skips creating the group, and `.push` then
      throws a TypeError. */
  const ObjectPrototypeNames: set<string> := {
    "constructor", "hasOwnProperty", "isPrototypeOf", "propertyIsEnumerable",
    "toLocaleString", "toString", "valueOf", "__proto__",
    "__defineGetter__", "__defineSetter__", "__lookupGetter__", "__lookupSetter__"}

  /** `fields`: first names grouped by field. */
  type Fields = JsObject<seq<string>>

  /** A student line reduced to what the grouping uses: the property key of
      its field and its first name. */
  datatype Row = Row(field: string, firstName: string)

  // ---- columns ----

  /** `const [firstname, lastname, age, field] = line.split(',')`: the first
      column always exists; the fourth is undefined for a line with fewer
      than four columns. */
  function FirstName(line: string): string {
    Split(line, ',')[0]
  }

  function FieldColumn(line: string): (r: Option<string>)
    ensures r.Some? <==> |Split(line, ',')| >= 4
  {
    var columns := Split(line, ',');
    if |columns| >= 4 then Some(columns[3]) else None
  }

  /** The property key `fields[field]` uses: undefined becomes "undefined". */
  function FieldKey(field: Option<string>): string {
    if field.Some? then field.value else "undefined"
  }

  /** The lines of the file: `data.trim().split('\n')`. */
  function Lines(data: string): (r: seq<string>)
    ensures |r| >= 1
  {
    Split(Trim(data), '\n')
  }

  // ---- the grouping every reader shares ----

  /** `if (!fields[field]) { fields[field] = []; } fields[field].push(name)`:
      None where `.push` throws because the key names an inherited
      property. */
  function AddName(fields: Fields, key: string, name: string): (r: Option<Fields>)
    ensures r.None? <==> key !in fields.props && key in ObjectPrototypeNames
  {
    if key in fields.props then Some(JsObject(fields.keys, fields.props[key := fields.props[key] + [name]]))
    else if key in ObjectPrototypeNames then None
    else Some(JsObject(fields.keys + [key], fields.props[key := [name]]))
  }

  /** The grouping of a sequence of rows, processed in order from `{}`. */
  function Group(rows: seq<Row>): Option<Fields> {
    if |rows| == 0 then Some(JsObject([], map[]))
    else
      var last := rows[|rows| - 1];
      match Group(rows[..|rows| - 1])
      case None => None
      case Some(fields) => AddName(fields, last.field, last.firstName)
  }

  /** The fields in the order they first occur. */
  function FirstAppearances(rows: seq<Row>): seq<string> {
    if |rows| == 0 then []
    else
      var init := FirstAppearances(rows[..|rows| - 1]);
      var key := rows[|rows| - 1].field;
      if key in init then init else init + [key]
  }

  /** The first names of the rows of one field, in order. */
  function NamesOf(rows: seq<Row>, key: string): seq<string> {
    if |rows| == 0 then []
    else
      var last := rows[|rows| - 1];
      NamesOf(rows[..|rows| - 1], key) + if last.field == key then [last.firstName] else []
  }

  /** The number of names in the groups of `keys`. */
  function SizeSum(keys: seq<string>, groups: map<string, seq<string>>): nat
    requires forall k :: k in keys ==> k in groups
  {
    if |keys| == 0 then 0
    else SizeSum(keys[..|keys| - 1], groups) + |groups[keys[|keys| - 1]]|
  }

  /** The grouping fails exactly when some row's field names an inherited
      property; the groups it builds never use such a name. */
  lemma {:induction false} GroupFails(rows: seq<Row>)
    ensures Group(rows).None? <==> exists i :: 0 <= i < |rows| && rows[i].field in ObjectPrototypeNames
    ensures Group(rows).Some? ==> forall k :: k in Group(rows).value.props ==> k !in ObjectPrototypeNames
  {
    if |rows| > 0 {
      var init := rows[..|rows| - 1];
      GroupFails(init);
      assert forall i :: 0 <= i < |init| ==> rows[i] == init[i];
    }
  }

  /** The groups are created in first-appearance order, one per field. */
  lemma {:induction false} GroupKeys(rows: seq<Row>)
    requires Group(rows).Some?
    ensures Group(rows).value.keys == FirstAppearances(rows)
    ensures Lists(Group(rows).value.keys, Group(rows).value.props)
  {
    if |rows| > 0 {
      var init := rows[..|rows| - 1];
      var last := rows[|rows| - 1];
      GroupKeys(init);
      var before := Group(init).value;
      if last.field in before.props {
        ListsUpdate(before.keys, before.props, last.field, before.props[last.field] + [last.firstName]);
      } else {
        ListsAppend(before.keys, before.props, last.field, [last.firstName]);
      }
    }
  }

  /** Each group holds the first names of its field's rows in file order,
      and a field without rows has no group. */
  lemma {:induction false} GroupNames(rows: seq<Row>, k: string)
    requires Group(rows).Some?
    ensures NamesOf(rows, k) == if k in Group(rows).value.props then Group(rows).value.props[k] else []
  {
    if |rows| > 0 {
      var init := rows[..|rows| - 1];
      var last := rows[|rows| - 1];
      GroupNames(init, k);
      if last.field != k {
        assert NamesOf(rows, k) == NamesOf(init, k) + [];
      }
    }
  }

  /** Every row adds exactly one name: the groups hold as many names as
      there are rows. */
  lemma {:induction false} GroupSize(rows: seq<Row>)
    requires Group(rows).Some?
    ensures var fields := Group(rows).value;
      (forall k :: k in fields.keys ==> k in fields.props) && SizeSum(fields.keys, fields.props) == |rows|
  {
    GroupKeys(rows);
    if |rows| > 0 {
      var init := rows[..|rows| - 1];
      var last := rows[|rows| - 1];
      GroupSize(init);
      GroupKeys(init);
      var before := Group(init).value;
      if last.field in before.props {
        SizeSumReplace(before.keys, before.props, last.field, before.props[last.field] + [last.firstName]);
      } else {
        SizeSumFrame(before.keys, before.props, last.field, [last.firstName]);
      }
    }
  }

  /** Replacing the group of a key listed once changes the sum by the
      difference in size. */
  lemma {:induction false} SizeSumReplace(keys: seq<string>, groups: map<string, seq<string>>, key: string, names: seq<string>)
    requires (forall k :: k in keys ==> k in groups) && NoDup(keys) && key in keys
    ensures SizeSum(keys, groups[key := names]) + |groups[key]| == SizeSum(keys, groups) + |names|
  {
    var n := |keys|;
    var init := keys[..n - 1];
    if keys[n - 1] == key {
      assert key !in init by {
        assert forall j :: 0 <= j < n - 1 ==> keys[j] != keys[n - 1];
      }
      SizeSumSubmap(init, groups, groups[key := names]);
    } else {
      assert key in init by {
        var j :| 0 <= j < n && keys[j] == key;
        assert init[j] == key;
      }
      assert NoDup(init) by {
        assert forall i, j :: 0 <= i < j < n - 1 ==> init[i] == keys[i] && init[j] == keys[j];
      }
      SizeSumReplace(init, groups, key, names);
    }
  }

  /** The sum over `keys` reads only the groups of `keys`. */
  lemma {:induction false} SizeSumSubmap(keys: seq<string>, small: map<string, seq<string>>, big: map<string, seq<string>>)
    requires forall k :: k in keys ==> k in small && k in big && small[k] == big[k]
    ensures SizeSum(keys, small) == SizeSum(keys, big)
  {
    if |keys| > 0 {
      SizeSumSubmap(keys[..|keys| - 1], small, big);
    }
  }

  lemma SizeSumFrame(keys: seq<string>, groups: map<string, seq<string>>, key: string, names: seq<string>)
    requires (forall k :: k in keys ==> k in groups) && key !in keys
    ensures SizeSum(keys + [key], groups[key := names]) == SizeSum(keys, groups) + |names|
    ensures SizeSum(keys, groups[key := names]) == SizeSum(keys, groups)
  {
    SizeSumSubmap(keys, groups, groups[key := names]);
    assert (keys + [key])[..|keys|] == keys;
  }

  /** The sum does not depend on the order of the keys. */
  lemma {:induction false} SizeSumPermutation(a: seq<string>, b: seq<string>, groups: map<string, seq<string>>)
    requires multiset(a) == multiset(b) && forall k :: k in a ==> k in groups
    ensures forall k :: k in b ==> k in groups
    ensures SizeSum(a, groups) == SizeSum(b, groups)
    decreases |a|
  {
    PermutationMembers(a, b);
    if |a| == 0 {
      assert |b| == |multiset(b)| == 0;
    } else {
      var x := a[|a| - 1];
      assert x in multiset(b);
      var i :| 0 <= i < |b| && b[i] == x;
      PermutationRemove(a, b, i);
      SizeSumPermutation(a[..|a| - 1], RemoveAt(b, i), groups);
      SizeSumRemoveOne(b, i, groups);
    }
  }

  lemma SizeSumRemoveOne(b: seq<string>, i: nat, groups: map<string, seq<string>>)
    requires i < |b| && forall k :: k in b ==> k in groups
    ensures forall k :: k in RemoveAt(b, i) ==> k in groups
    ensures SizeSum(b, groups) == SizeSum(RemoveAt(b, i), groups) + |groups[b[i]]|
  {
    var x, pre, post := b[i], b[..i], b[i + 1..];
    assert forall k :: k in pre + post ==> k in groups by {
      forall k | k in pre + post ensures k in groups {
        assert k in pre || k in post;
      }
    }
    calc {
      SizeSum(b, groups);
      { SplitAround(b, i); }
      SizeSum(pre + ([x] + post), groups);
      { SizeSumAppend(pre, [x] + post, groups); }
      SizeSum(pre, groups) + SizeSum([x] + post, groups);
      { SizeSumAppend([x], post, groups); assert [x][..0] == []; }
      SizeSum(pre, groups) + |groups[x]| + SizeSum(post, groups);
      { SizeSumAppend(pre, post, groups); }
      SizeSum(pre + post, groups) + |groups[x]|;
    }
  }

  lemma {:induction false} SizeSumAppend(a: seq<string>, b: seq<string>, groups: map<string, seq<string>>)
    requires forall k :: k in a + b ==> k in groups
    ensures SizeSum(a + b, groups) == SizeSum(a, groups) + SizeSum(b, groups)
    decreases |b|
  {
    if |b| == 0 {
      assert a + b == a;
    } else {
      var b' := b[..|b| - 1];
      assert (a + b)[..|a + b| - 1] == a + b';
      SizeSumAppend(a, b', groups);
    }
  }

  /** One `forEach` step on the `fields` object, shared by every reader:
      false where `.push` throws. */
  method AddToFields(keys: seq<string>, groups: map<string, seq<string>>, key: string, name: string)
    returns (ok: bool, keys': seq<string>, groups': map<string, seq<string>>)
    ensures ok <==> AddName(JsObject(keys, groups), key, name).Some?
    ensures ok ==> AddName(JsObject(keys, groups), key, name).value == JsObject(keys', groups')
  {
    keys', groups' := keys, groups;
    if key !in groups' {
      if key in ObjectPrototypeNames {
        return false, keys', groups';
      }
      keys' := keys' + [key];
      groups' := groups'[key := []];
      assert [] + [name] == [name];
    }
    groups' := groups'[key := groups'[key] + [name]];
    ok := true;
  }

  lemma GroupSnoc(rows: seq<Row>, row: Row)
    ensures Group(rows + [row]) == match Group(rows)
      case None => None
      case Some(fields) => AddName(fields, row.field, row.firstName)
  {
    assert (rows + [row])[..|rows|] == rows;
  }

  /** Once a row has thrown, the rows after it change nothing. */
  lemma {:induction false} GroupStaysFailed(rows: seq<Row>, more: seq<Row>)
    requires Group(rows).None?
    ensures Group(rows + more).None?
    decreases |more|
  {
    if |more| > 0 {
      var init := more[..|more| - 1];
      GroupStaysFailed(rows, init);
      assert rows + more == (rows + init) + [more[|more| - 1]];
      GroupSnoc(rows + init, more[|more| - 1]);
    } else {
      assert rows + more == rows;
    }
  }

  // ---- readDatabase ----

  /** The row a data line contributes to `readDatabase`: none unless both
      the field and the first name are non-empty (`field && firstname`). */
  function DatabaseRow(line: string): (r: Option<Row>)
    ensures r.Some? <==> FieldColumn(line).Some? && FieldColumn(line).value != "" && FirstName(line) != ""
    ensures r.Some? ==> r.value == Row(FieldColumn(line).value, FirstName(line))
  {
    var field := FieldColumn(line);
    if field.Some? && field.value != "" && FirstName(line) != "" then Some(Row(field.value, FirstName(line)))
    else None
  }

  /** The rows of the data lines, in file order. */
  function DatabaseRows(lines: seq<string>): seq<Row> {
    if |lines| == 0 then []
    else
      var last := DatabaseRow(lines[|lines| - 1]);
      DatabaseRows(lines[..|lines| - 1]) + if last.Some? then [last.value] else []
  }

  /** What `readDatabase` resolves to for the file text: the header line is
      skipped, and any failure becomes 'Cannot load the database'. */
  function DatabaseResult(data: Option<string>): Outcome<Fields> {
    if data.None? then Throw(LoadError) else DatabaseFields(Lines(data.value))
  }

  /** The grouping of the lines after the header, or the error. */
  function DatabaseFields(lines: seq<string>): Outcome<Fields>
    requires |lines| >= 1
  {
    match Group(DatabaseRows(lines[1..]))
    case None => Throw(LoadError)
    case Some(fields) => Return(fields)
  }

  /** `readDatabase(filePath)`, with the file's text in place of the path. */
  method ReadDatabase(data: Option<string>) returns (r: Outcome<Fields>)
    ensures r == DatabaseResult(data)
  {
    if data.None? {
      return Throw(LoadError);
    }
    r := GroupDataLines(Lines(data.value));
  }

  /** The `lines.slice(1).forEach(...)` that fills `fields`. */
  method GroupDataLines(lines: seq<string>) returns (r: Outcome<Fields>)
    requires |lines| >= 1
    ensures r == DatabaseFields(lines)
  {
    var keys: seq<string> := [];
    var groups: map<string, seq<string>> := map[];
    for i := 1 to |lines|
      invariant Group(DatabaseRows(lines[1..i])) == Some(JsObject(keys, groups))
    {
      DatabaseRowsStep(lines, i);
      var row := DatabaseRow(lines[i]);
      if row.Some? {
        GroupSnoc(DatabaseRows(lines[1..i]), row.value);
      }
      var ok;
      ok, keys, groups := ReadLine(lines[i], keys, groups);
      if !ok {
        DatabaseFailsFrom(lines, i);
        return Throw(LoadError);
      }
    }
    assert lines[1..|lines|] == lines[1..];
    return Return(JsObject(keys, groups));
  }

  /** The body of the `forEach` over the data lines: split the line, and
      add the first name to its field's group when both are non-empty. */
  method ReadLine(line: string, keys: seq<string>, groups: map<string, seq<string>>)
    returns (ok: bool, keys': seq<string>, groups': map<string, seq<string>>)
    ensures DatabaseRow(line).None? ==> ok && keys' == keys && groups' == groups
    ensures DatabaseRow(line).Some? ==> var row := DatabaseRow(line).value;
      && (ok <==> AddName(JsObject(keys, groups), row.field, row.firstName).Some?)
      && (ok ==> AddName(JsObject(keys, groups), row.field, row.firstName).value == JsObject(keys', groups'))
  {
    var columns := Split(line, ',');
    var firstname := columns[0];
    var field := if |columns| >= 4 then Some(columns[3]) else None;
    ok, keys', groups' := true, keys, groups;
    if field.Some? && field.value != "" && firstname != "" {
      ok, keys', groups' := AddToFields(keys, groups, field.value, firstname);
    }
  }

  lemma DatabaseRowsStep(lines: seq<string>, i: nat)
    requires 1 <= i < |lines|
    ensures DatabaseRow(lines[i]).None? ==> DatabaseRows(lines[1..i + 1]) == DatabaseRows(lines[1..i])
    ensures DatabaseRow(lines[i]).Some? ==>
      DatabaseRows(lines[1..i + 1]) == DatabaseRows(lines[1..i]) + [DatabaseRow(lines[i]).value]
  {
    assert lines[1..i + 1][..i - 1] == lines[1..i];
    assert DatabaseRows(lines[1..i]) + [] == DatabaseRows(lines[1..i]);
  }

  lemma DatabaseFailsFrom(lines: seq<string>, i: nat)
    requires 1 <= i < |lines| && Group(DatabaseRows(lines[1..i + 1])).None?
    ensures Group(DatabaseRows(lines[1..])).None?
  {
    assert lines[1..] == lines[1..i + 1] + lines[i + 1..];
    DatabaseRowsAppend(lines[1..i + 1], lines[i + 1..]);
    GroupStaysFailed(DatabaseRows(lines[1..i + 1]), DatabaseRows(lines[i + 1..]));
  }

  lemma {:induction false} DatabaseRowsAppend(a: seq<string>, b: seq<string>)
    ensures DatabaseRows(a + b) == DatabaseRows(a) + DatabaseRows(b)
    decreases |b|
  {
    if |b| == 0 {
      assert a + b == a;
    } else {
      var b' := b[..|b| - 1];
      assert (a + b)[..|a + b| - 1] == a + b';
      DatabaseRowsAppend(a, b');
    }
  }

  /** A line contributes exactly when its field and first name are both
      non-empty, so a header-only or blank-field file resolves to `{}`. */
  lemma DatabaseRowsCount(lines: seq<string>)
    ensures |DatabaseRows(lines)| <= |lines|
    ensures (forall i :: 0 <= i < |lines| ==> DatabaseRow(lines[i]).None?) ==> DatabaseRows(lines) == []
  {
    if |lines| > 0 {
      DatabaseRowsCount(lines[..|lines| - 1]);
    }
  }

  // ---- countStudents ----

  /** `lines.filter((line, index) => line.trim() !== '' && index > 0)`. */
  function StudentLines(lines: seq<string>): (r: seq<string>)
    ensures |r| <= |lines|
    ensures forall s :: s in r ==> !AllSpace(s)
  {
    if |lines| <= 1 then []
    else
      var last := lines[|lines| - 1];
      StudentLines(lines[..|lines| - 1]) + if !AllSpace(last) then [last] else []
  }

  /** A student's row for `countStudents`: no emptiness check, and a
      missing fourth column groups it under "undefined". */
  function StudentRow(student: string): Row {
    Row(FieldKey(FieldColumn(student)), FirstName(student))
  }

  function StudentRows(students: seq<string>): (r: seq<Row>)
    ensures |r| == |students|
    ensures forall i :: 0 <= i < |r| ==> r[i] == StudentRow(students[i])
  {
    if |students| == 0 then [] else StudentRows(students[..|students| - 1]) + [StudentRow(students[|students| - 1])]
  }

  function TotalLine(count: nat): string {
    "Number of students: " + DecimalText(count)
  }

  function FieldLine(field: string, names: seq<string>): string {
    "Number of students in " + field + ": " + DecimalText(|names|) + ". List: " + Join(", ", names)
  }

  /** The lines the `for...of` over `Object.entries(fields)` prints. */
  function FieldLines(order: seq<string>, groups: map<string, seq<string>>): (r: seq<string>)
    requires forall k :: k in order ==> k in groups
    ensures |r| == |order|
    ensures forall i :: 0 <= i < |r| ==> r[i] == FieldLine(order[i], groups[order[i]])
  {
    if |order| == 0 then []
    else FieldLines(order[..|order| - 1], groups) + [FieldLine(order[|order| - 1], groups[order[|order| - 1]])]
  }

  /** Everything `countStudents` prints, and how it ends. */
  function CountResult(data: Option<string>): (seq<string>, Outcome<()>) {
    if data.None? then ([], Throw(LoadError)) else CountOutput(Lines(data.value))
  }

  /** What `countStudents` prints for the lines of the file, and how it
      ends. */
  function CountOutput(lines: seq<string>): (seq<string>, Outcome<()>) {
      var students := StudentLines(lines);
      var total := TotalLine(|students|);
      match Group(StudentRows(students))
      case None => ([total], Throw(LoadError))
      case Some(fields) =>
        GroupKeys(StudentRows(students));
        ([total] + FieldLines(OwnKeys(fields.keys), fields.props), Return(()))
  }

  /** `countStudents(path)` of Node_JS/2-read_file.js, and the callback of
      Node_JS/3-read_file_async.js, with the file's text in place of the
      path. */
  method CountStudents(data: Option<string>) returns (printed: seq<string>, r: Outcome<()>)
    ensures (printed, r) == CountResult(data)
  {
    if data.None? {
      return [], Throw(LoadError);
    }
    var students := FilterStudents(Lines(data.value));
    printed := [TotalLine(|students|)];
    var fields := GroupStudents(students);
    if fields.None? {
      return printed, Throw(LoadError);
    }
    GroupKeys(StudentRows(students));
    var report := PrintFields(OwnKeys(fields.value.keys), fields.value.props);
    return printed + report, Return(());
  }

  /** The `lines.filter(...)` that drops the header and the blank lines. */
  method FilterStudents(lines: seq<string>) returns (students: seq<string>)
    ensures students == StudentLines(lines)
  {
    students := [];
    for index := 0 to |lines|
      invariant students == StudentLines(lines[..index])
    {
      StudentLinesStep(lines, index);
      if !AllSpace(lines[index]) && index > 0 {
        students := students + [lines[index]];
      }
    }
    assert lines[..|lines|] == lines;
  }

  lemma StudentLinesStep(lines: seq<string>, index: nat)
    requires index < |lines|
    ensures index == 0 || AllSpace(lines[index]) ==> StudentLines(lines[..index + 1]) == StudentLines(lines[..index])
    ensures index > 0 && !AllSpace(lines[index]) ==>
      StudentLines(lines[..index + 1]) == StudentLines(lines[..index]) + [lines[index]]
  {
    assert lines[..index + 1][..index] == lines[..index];
    assert StudentLines(lines[..index]) + [] == StudentLines(lines[..index]);
  }

  /** The `students.forEach(...)` that fills `fields`; None where a `.push`
      throws. */
  method GroupStudents(students: seq<string>) returns (r: Option<Fields>)
    ensures r == Group(StudentRows(students))
  {
    var keys: seq<string> := [];
    var groups: map<string, seq<string>> := map[];
    for i := 0 to |students|
      invariant Group(StudentRows(students[..i])) == Some(JsObject(keys, groups))
    {
      StudentRowsStep(students, i);
      GroupSnoc(StudentRows(students[..i]), StudentRow(students[i]));
      var ok;
      ok, keys, groups := AddStudent(students[i], keys, groups);
      if !ok {
        StudentsFailFrom(students, i);
        return None;
      }
    }
    assert students[..|students|] == students;
    return Some(JsObject(keys, groups));
  }

  /** The body of that `forEach`: split the line and add the first name to
      the group of its (possibly undefined) field. */
  method AddStudent(student: string, keys: seq<string>, groups: map<string, seq<string>>)
    returns (ok: bool, keys': seq<string>, groups': map<string, seq<string>>)
    ensures var row := StudentRow(student);
      && (ok <==> AddName(JsObject(keys, groups), row.field, row.firstName).Some?)
      && (ok ==> AddName(JsObject(keys, groups), row.field, row.firstName).value == JsObject(keys', groups'))
  {
    var columns := Split(student, ',');
    var firstname := columns[0];
    var field := if |columns| >= 4 then Some(columns[3]) else None;
    ok, keys', groups' := AddToFields(keys, groups, FieldKey(field), firstname);
  }

  lemma StudentRowsStep(students: seq<string>, i: nat)
    requires i < |students|
    ensures StudentRows(students[..i + 1]) == StudentRows(students[..i]) + [StudentRow(students[i])]
  {
    assert students[..i + 1][..i] == students[..i];
  }

  /** Once a student's `.push` has thrown, the later lines change nothing. */
  lemma {:induction false} StudentsFailFrom(students: seq<string>, i: nat)
    requires i < |students| && Group(StudentRows(students[..i + 1])).None?
    ensures Group(StudentRows(students)).None?
    decreases |students| - i
  {
    if i + 1 == |students| {
      assert students[..i + 1] == students;
    } else {
      StudentRowsStep(students, i + 1);
      GroupSnoc(StudentRows(students[..i + 1]), StudentRow(students[i + 1]));
      StudentsFailFrom(students, i + 1);
    }
  }

  /** The `for...of` over `Object.entries(fields)`: one line per entry. */
  method PrintFields(entries: seq<string>, groups: map<string, seq<string>>) returns (printed: seq<string>)
    requires forall k :: k in entries ==> k in groups
    ensures printed == FieldLines(entries, groups)
  {
    printed := [];
    for j := 0 to |entries|
      invariant printed == FieldLines(entries[..j], groups)
    {
      assert entries[..j + 1][..j] == entries[..j];
      var field := entries[j];
      var names := groups[field];
      printed := printed + [FieldLine(field, names)];
    }
    assert entries[..|entries|] == entries;
  }

  /** The report described by the rows alone: for each field of `order`,
      its line with the first names of that field's rows. */
  function ReportLines(order: seq<string>, rows: seq<Row>): (r: seq<string>)
    ensures |r| == |order|
  {
    if |order| == 0 then []
    else
      var field := order[|order| - 1];
      ReportLines(order[..|order| - 1], rows) + [FieldLine(field, NamesOf(rows, field))]
  }

  /** Printing the groups gives the report of the rows they were built
      from. */
  lemma {:induction false} FieldLinesReport(order: seq<string>, groups: map<string, seq<string>>, rows: seq<Row>)
    requires forall k :: k in order ==> k in groups && groups[k] == NamesOf(rows, k)
    ensures FieldLines(order, groups) == ReportLines(order, rows)
  {
    if |order| > 0 {
      FieldLinesReport(order[..|order| - 1], groups, rows);
    }
  }

  /** One report line per field, in `Object.entries` order (the fields'
      first appearances, with any array-index field names moved to the
      front), each with the first names of that field's rows in file order;
      the counts of the lines add up to the number of rows. */
  lemma FieldReport(rows: seq<Row>)
    requires Group(rows).Some?
    ensures var fields := Group(rows).value;
      var order := OwnKeys(fields.keys);
      && order == OwnKeys(FirstAppearances(rows))
      && (forall k :: k in order ==> k in fields.props)
      && FieldLines(order, fields.props) == ReportLines(order, rows)
      && SizeSum(order, fields.props) == |rows|
  {
    GroupKeys(rows);
    GroupSize(rows);
    var fields := Group(rows).value;
    var order := OwnKeys(fields.keys);
    forall k | k in order ensures k in fields.props && fields.props[k] == NamesOf(rows, k) {
      GroupNames(rows, k);
    }
    FieldLinesReport(order, fields.props, rows);
    SizeSumPermutation(fields.keys, order, fields.props);
  }

  /** The printed report of a file whose grouping succeeds: the total
      counts the non-blank lines after the header, and the report of the
      student rows follows, one line per field in `Object.entries` order. */
  lemma CountReport(lines: seq<string>)
    requires Group(StudentRows(StudentLines(lines))).Some?
    ensures CountOutput(lines) == ([TotalLine(|StudentLines(lines)|)]
      + ReportLines(OwnKeys(FirstAppearances(StudentRows(StudentLines(lines)))), StudentRows(StudentLines(lines))),
      Return(()))
  {
    FieldReport(StudentRows(StudentLines(lines)));
  }

  /** `countStudents` throws exactly when a student's field names an
      inherited property of objects, and then it has printed only the
      total. */
  lemma CountFails(lines: seq<string>)
    ensures CountOutput(lines).1.Throw? ==>
      exists i :: 0 <= i < |StudentLines(lines)| && StudentRow(StudentLines(lines)[i]).field in ObjectPrototypeNames
    ensures (exists i :: 0 <= i < |StudentLines(lines)| && StudentRow(StudentLines(lines)[i]).field in ObjectPrototypeNames)
      ==> CountOutput(lines).1.Throw?
    ensures CountOutput(lines).1.Throw? ==>
      CountOutput(lines).1.message == LoadError && CountOutput(lines).0 == [TotalLine(|StudentLines(lines)|)]
  {
    GroupFails(StudentRows(StudentLines(lines)));
  }

  /** `readDatabase` resolves to the groups in first-appearance order, each
      holding the first names of its field's lines in file order; it
      rejects exactly the files where a field names an inherited
      property. */
  lemma ReadDatabaseContents(lines: seq<string>)
    requires |lines| >= 1
    ensures DatabaseFields(lines).Throw? ==>
      exists i :: 0 <= i < |DatabaseRows(lines[1..])| && DatabaseRows(lines[1..])[i].field in ObjectPrototypeNames
    ensures (exists i :: 0 <= i < |DatabaseRows(lines[1..])| && DatabaseRows(lines[1..])[i].field in ObjectPrototypeNames)
      ==> DatabaseFields(lines).Throw?
    ensures DatabaseFields(lines).Return? ==>
      && DatabaseFields(lines).value.keys == FirstAppearances(DatabaseRows(lines[1..]))
      && Lists(DatabaseFields(lines).value.keys, DatabaseFields(lines).value.props)
      && forall k :: k in DatabaseFields(lines).value.props ==>
           DatabaseFields(lines).value.props[k] == NamesOf(DatabaseRows(lines[1..]), k)
  {
    var rows := DatabaseRows(lines[1..]);
    GroupFails(rows);
    if Group(rows).Some? {
      GroupKeys(rows);
      forall k | k in Group(rows).value.props ensures Group(rows).value.props[k] == NamesOf(rows, k) {
        GroupNames(rows, k);
      }
    }
  }
}
