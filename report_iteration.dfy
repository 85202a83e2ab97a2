/** The report helpers of ES6_basic: `createIteratorObject`
    (100-createIteratorObject.js), whose iterator walks every employee of
    every department, and `iterateThroughObject`
    (101-iterateThroughObject.js), which joins the names it is given. */
module ReportIteration {
  import opened Strings
  import opened JsObjects

  // ---- createIteratorObject ----

  /** The employees of the departments, department after department:
      `allEmployees.push(...department)` for each department in turn. */
  function Flatten(departments: seq<seq<string>>): seq<string> {
    if |departments| == 0 then []
    else Flatten(departments[..|departments| - 1]) + departments[|departments| - 1]
  }

  /** The sum of the department sizes. */
  function TotalLength(departments: seq<seq<string>>): nat {
    if |departments| == 0 then 0
    else TotalLength(departments[..|departments| - 1]) + |departments[|departments| - 1]|
  }

  /** Every employee is there once per occurrence, in order: the flat list
      has as many names as the departments together, and the names of the
      department at position `d` sit right after those of the departments
      before it. */
  lemma {:induction false} FlattenShape(departments: seq<seq<string>>, d: nat)
    requires d < |departments|
    ensures |Flatten(departments)| == TotalLength(departments)
    ensures var start := |Flatten(departments[..d])|;
      start + |departments[d]| <= |Flatten(departments)|
      && Flatten(departments)[start..start + |departments[d]|] == departments[d]
    decreases |departments|
  {
    var n := |departments|;
    var init := departments[..n - 1];
    if d == n - 1 {
      FlattenLength(departments);
      assert departments[..d] == init;
    } else {
      FlattenShape(init, d);
      assert init[..d] == departments[..d];
      assert init[d] == departments[d];
      var start := |Flatten(departments[..d])|;
      assert Flatten(departments)[start..start + |departments[d]|] == Flatten(init)[start..start + |departments[d]|];
    }
  }

  lemma {:induction false} FlattenLength(departments: seq<seq<string>>)
    ensures |Flatten(departments)| == TotalLength(departments)
  {
    if |departments| > 0 {
      FlattenLength(departments[..|departments| - 1]);
    }
  }

  /** What `next()` returns: `{ value, done: false }` or `{ done: true }`. */
  datatype Step = Yield(value: string) | Done

  /** The object `[Symbol.iterator]()` returns, with the two variables its
      `next` closure captures. */
  class EmployeeIterator {
    var index: nat
    const allEmployees: seq<string>

    /** The body of `[Symbol.iterator]()`: gathers the employees, starting
        at index 0. */
    constructor (departments: seq<seq<string>>)
      ensures allEmployees == Flatten(departments) && index == 0
    {
      var all: seq<string> := [];
      for i := 0 to |departments|
        invariant all == Flatten(departments[..i])
      {
        assert departments[..i + 1][..i] == departments[..i];
        all := all + departments[i];
      }
      assert departments[..|departments|] == departments;
      allEmployees := all;
      index := 0;
    }

    /** `next()`: the employee at the index, which then moves on by one;
        once every employee has been returned, `{ done: true }` for ever. */
    method Next() returns (r: Step)
      modifies this
      ensures old(index) < |allEmployees| ==> r == Yield(allEmployees[old(index)]) && index == old(index) + 1
      ensures old(index) >= |allEmployees| ==> r == Done && index == old(index)
    {
      if index < |allEmployees| {
        var employee := allEmployees[index];
        index := index + 1;
        return Yield(employee);
      }
      return Done;
    }
  }

  /** The object `createIteratorObject(report)` returns. */
  class ReportIterable {
    const allEmployees: JsObject<seq<string>>

    constructor (allEmployees: JsObject<seq<string>>)
      ensures this.allEmployees == allEmployees
    {
      this.allEmployees := allEmployees;
    }

    /** `[Symbol.iterator]()`: a new traversal of the departments in
        `Object.values` order, from the first employee. */
    method Iterator() returns (it: EmployeeIterator)
      requires forall k :: k in allEmployees.keys ==> k in allEmployees.props
      ensures fresh(it) && it.index == 0
      ensures it.allEmployees == Flatten(Values(allEmployees))
    {
      it := new EmployeeIterator(Values(allEmployees));
    }
  }

  /** What a `for...of` loop over the iterable receives: `next()` called
      until it reports done. It yields every employee, in order, and
      nothing after. */
  method Drain(it: EmployeeIterator) returns (values: seq<string>)
    requires it.index == 0
    modifies it
    ensures values == it.allEmployees
    ensures it.index == |it.allEmployees|
  {
    values := [];
    var step := it.Next();
    while step.Yield?
      invariant it.index <= |it.allEmployees|
      invariant step.Yield? ==> it.index >= 1 && step.value == it.allEmployees[it.index - 1]
      invariant step.Yield? ==> values == it.allEmployees[..it.index - 1]
      invariant step.Done? ==> values == it.allEmployees[..it.index] && it.index == |it.allEmployees|
      decreases |it.allEmployees| - it.index, step.Yield?
    {
      values := values + [step.value];
      step := it.Next();
    }
    assert it.allEmployees[..it.index] == it.allEmployees;
  }

  // ---- iterateThroughObject ----

  /** The string the loop builds: ` ${employee} |` for each name in turn. */
  function Accumulated(report: seq<string>): string {
    if |report| == 0 then ""
    else Accumulated(report[..|report| - 1]) + " " + report[|report| - 1] + " |"
  }

  /** For at least one name the accumulated string is the names joined by
      " | ", with one space before and " |" after. */
  lemma {:induction false} AccumulatedShape(report: seq<string>)
    requires |report| > 0
    ensures Accumulated(report) == " " + Join(" | ", report) + " |"
  {
    var n := |report|;
    if n > 1 {
      var init := report[..n - 1];
      AccumulatedShape(init);
      JoinSnoc(" | ", init, report[n - 1]);
      assert init + [report[n - 1]] == report;
    }
  }

  /** `iterateThroughObject(report)`: the names joined by " | "; one name
      comes back alone, and no names give '' (`substring(1, -2)` of ''). */
  method IterateThroughObject(report: seq<string>) returns (r: string)
    ensures r == Join(" | ", report)
  {
    var employeeNames := "";
    for i := 0 to |report|
      invariant employeeNames == Accumulated(report[..i])
    {
      assert report[..i + 1][..i] == report[..i];
      employeeNames := employeeNames + " " + report[i] + " |";
    }
    assert report[..|report|] == report;
    r := Substring(employeeNames, 1, |employeeNames| - 2);
    if |report| > 0 {
      AccumulatedShape(report);
      var joined := Join(" | ", report);
      assert employeeNames[1..|employeeNames| - 2] == joined;
    }
  }
}
