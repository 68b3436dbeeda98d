/**
 * The traversal engine: four pre-order walks over a unit tree. Each walk is
 * modelled by the ordered stream of callback events it makes; a visitor is a
 * consumer of that stream (module Visitors).
 */
module Traversal {
  import opened Model

  /** The context passed to every callback: depth, and whether the node is the
      last element of its parent's sequence. */
  datatype Context = Context(level: nat, last: bool)

  /** The context a walk starts from when the caller gives none. */
  const DefaultContext: Context := Context(0, false)

  /** Context of the child at `index` out of `total` siblings. */
  function ChildContext(parent: Context, index: nat, total: nat): Context
  {
    Context(parent.level + 1, index == total - 1)
  }

  /** One callback invocation made by a walk. */
  datatype Event =
    | OnDepartment(department: Department, ctx: Context)
    | OnEmployee(employee: Employee, ctx: Context)
    | OnTask(task: Task, ctx: Context)

  /** The three callback kinds of a visitor. */
  datatype Kind = DepartmentKind | EmployeeKind | TaskKind

  const AllKinds: set<Kind> := {DepartmentKind, EmployeeKind, TaskKind}

  function KindOf(ev: Event): Kind
  {
    match ev
    case OnDepartment(_, _) => DepartmentKind
    case OnEmployee(_, _) => EmployeeKind
    case OnTask(_, _) => TaskKind
  }

  /** The events of `evs` whose kind is in `kinds`, in their original order. */
  function Only(evs: seq<Event>, kinds: set<Kind>): (r: seq<Event>)
    ensures |r| <= |evs|
    ensures forall i :: 0 <= i < |r| ==> KindOf(r[i]) in kinds
  {
    if evs == [] then []
    else Only(evs[..|evs| - 1], kinds) + (if KindOf(evs[|evs| - 1]) in kinds then [evs[|evs| - 1]] else [])
  }

  /** Concatenation of a sequence of event streams. */
  function Flatten(parts: seq<seq<Event>>): seq<Event>
  {
    if parts == [] then [] else parts[0] + Flatten(parts[1..])
  }

  // ---------------------------------------------------------------------------
  // The four walks
  // ---------------------------------------------------------------------------

  /** `visitAllUnits`: every department, employee and task, in pre-order. */
  function AllUnits(u: Unit, ctx: Context): seq<Event>
    decreases u, 1
  {
    match u
    case Dept(d) => [OnDepartment(d, ctx)] + UnitsOfChildren(d.children, ctx, 0)
    case Emp(e) => [OnEmployee(e, ctx)] + TaskEvents(e.tasks, ctx, 0)
  }

  /** The `forEach` over `children[i..]` of `visitAllUnits`. */
  function UnitsOfChildren(children: seq<Unit>, parent: Context, i: nat): seq<Event>
    decreases children, |children| - i
  {
    if i >= |children| then []
    else AllUnits(children[i], ChildContext(parent, i, |children|)) + UnitsOfChildren(children, parent, i + 1)
  }

  /** The task callbacks for `tasks[i..]` of an employee whose context is `parent`. */
  function TaskEvents(tasks: seq<Task>, parent: Context, i: nat): seq<Event>
    decreases |tasks| - i
  {
    if i >= |tasks| then []
    else [OnTask(tasks[i], ChildContext(parent, i, |tasks|))] + TaskEvents(tasks, parent, i + 1)
  }

  /** `visitAllDepartments`: departments only; employees are not entered. The
      child context still counts every child, employees included. */
  function AllDepartments(u: Unit, ctx: Context): seq<Event>
    decreases u, 1
  {
    match u
    case Dept(d) => [OnDepartment(d, ctx)] + DepartmentsOfChildren(d.children, ctx, 0)
    case Emp(_) => []
  }

  function DepartmentsOfChildren(children: seq<Unit>, parent: Context, i: nat): seq<Event>
    decreases children, |children| - i
  {
    if i >= |children| then []
    else AllDepartments(children[i], ChildContext(parent, i, |children|)) + DepartmentsOfChildren(children, parent, i + 1)
  }

  /** `visitAllEmployees`: employee callbacks only. */
  function AllEmployees(u: Unit, ctx: Context): seq<Event>
    decreases u, 1
  {
    match u
    case Dept(d) => EmployeesOfChildren(d.children, ctx, 0)
    case Emp(e) => [OnEmployee(e, ctx)]
  }

  function EmployeesOfChildren(children: seq<Unit>, parent: Context, i: nat): seq<Event>
    decreases children, |children| - i
  {
    if i >= |children| then []
    else AllEmployees(children[i], ChildContext(parent, i, |children|)) + EmployeesOfChildren(children, parent, i + 1)
  }

  /** `visitAllTasks`: task callbacks only. */
  function AllTasks(u: Unit, ctx: Context): seq<Event>
    decreases u, 1
  {
    match u
    case Dept(d) => TasksOfChildren(d.children, ctx, 0)
    case Emp(e) => TaskEvents(e.tasks, ctx, 0)
  }

  function TasksOfChildren(children: seq<Unit>, parent: Context, i: nat): seq<Event>
    decreases children, |children| - i
  {
    if i >= |children| then []
    else AllTasks(children[i], ChildContext(parent, i, |children|)) + TasksOfChildren(children, parent, i + 1)
  }

  // ---------------------------------------------------------------------------
  // Filtering
  // ---------------------------------------------------------------------------

  lemma {:induction false} OnlyConcat(a: seq<Event>, b: seq<Event>, kinds: set<Kind>)
    ensures Only(a + b, kinds) == Only(a, kinds) + Only(b, kinds)
    decreases |b|
  {
    if b == [] {
      assert a + b == a;
    } else {
      var b' := b[..|b| - 1];
      assert (a + b)[..|a + b| - 1] == a + b';
      OnlyConcat(a, b', kinds);
    }
  }

  lemma OnlySingleton(ev: Event, kinds: set<Kind>)
    ensures Only([ev], kinds) == if KindOf(ev) in kinds then [ev] else []
  {
    assert [ev][..0] == [];
  }

  lemma {:induction false} OnlyTaskEvents(tasks: seq<Task>, parent: Context, i: nat, kinds: set<Kind>)
    ensures Only(TaskEvents(tasks, parent, i), kinds) == if TaskKind in kinds then TaskEvents(tasks, parent, i) else []
    decreases |tasks| - i
  {
    if i < |tasks| {
      var head := [OnTask(tasks[i], ChildContext(parent, i, |tasks|))];
      OnlyConcat(head, TaskEvents(tasks, parent, i + 1), kinds);
      OnlySingleton(head[0], kinds);
      OnlyTaskEvents(tasks, parent, i + 1, kinds);
    }
  }

  /** `visitAllDepartments` makes exactly the department events of
      `visitAllUnits`, with the same contexts and in the same order. */
  lemma {:induction false} DepartmentsAreFilteredUnits(u: Unit, ctx: Context)
    ensures AllDepartments(u, ctx) == Only(AllUnits(u, ctx), {DepartmentKind})
    decreases u, 1
  {
    var k := {DepartmentKind};
    match u
    case Dept(d) =>
      var head := [OnDepartment(d, ctx)];
      var rest := UnitsOfChildren(d.children, ctx, 0);
      assert AllUnits(u, ctx) == head + rest;
      OnlyConcat(head, rest, k);
      OnlySingleton(head[0], k);
      ChildrenDepartmentsAreFiltered(d.children, ctx, 0);
      assert AllDepartments(u, ctx) == head + DepartmentsOfChildren(d.children, ctx, 0);
    case Emp(e) =>
      var head := [OnEmployee(e, ctx)];
      var rest := TaskEvents(e.tasks, ctx, 0);
      assert AllUnits(u, ctx) == head + rest;
      OnlyConcat(head, rest, k);
      OnlySingleton(head[0], k);
      OnlyTaskEvents(e.tasks, ctx, 0, k);
      var none: seq<Event> := [];
      assert Only(head, k) == none && Only(rest, k) == none;
      assert none + none == none;
  }

  lemma {:induction false} ChildrenDepartmentsAreFiltered(children: seq<Unit>, parent: Context, i: nat)
    ensures DepartmentsOfChildren(children, parent, i) == Only(UnitsOfChildren(children, parent, i), {DepartmentKind})
    decreases children, |children| - i
  {
    if i < |children| {
      var c := ChildContext(parent, i, |children|);
      OnlyConcat(AllUnits(children[i], c), UnitsOfChildren(children, parent, i + 1), {DepartmentKind});
      DepartmentsAreFilteredUnits(children[i], c);
      ChildrenDepartmentsAreFiltered(children, parent, i + 1);
    }
  }

  /** `visitAllEmployees` makes exactly the employee events of `visitAllUnits`. */
  lemma {:induction false} EmployeesAreFilteredUnits(u: Unit, ctx: Context)
    ensures AllEmployees(u, ctx) == Only(AllUnits(u, ctx), {EmployeeKind})
    decreases u, 1
  {
    var k := {EmployeeKind};
    var none: seq<Event> := [];
    match u
    case Dept(d) =>
      var head := [OnDepartment(d, ctx)];
      var rest := UnitsOfChildren(d.children, ctx, 0);
      assert AllUnits(u, ctx) == head + rest;
      OnlyConcat(head, rest, k);
      OnlySingleton(head[0], k);
      ChildrenEmployeesAreFiltered(d.children, ctx, 0);
      assert Only(head, k) == none;
      assert none + Only(rest, k) == Only(rest, k);
    case Emp(e) =>
      var head := [OnEmployee(e, ctx)];
      var rest := TaskEvents(e.tasks, ctx, 0);
      assert AllUnits(u, ctx) == head + rest;
      OnlyConcat(head, rest, k);
      OnlySingleton(head[0], k);
      OnlyTaskEvents(e.tasks, ctx, 0, k);
      assert Only(head, k) == head && Only(rest, k) == none;
      assert head + none == head;
  }

  lemma {:induction false} ChildrenEmployeesAreFiltered(children: seq<Unit>, parent: Context, i: nat)
    ensures EmployeesOfChildren(children, parent, i) == Only(UnitsOfChildren(children, parent, i), {EmployeeKind})
    decreases children, |children| - i
  {
    if i < |children| {
      var c := ChildContext(parent, i, |children|);
      OnlyConcat(AllUnits(children[i], c), UnitsOfChildren(children, parent, i + 1), {EmployeeKind});
      EmployeesAreFilteredUnits(children[i], c);
      ChildrenEmployeesAreFiltered(children, parent, i + 1);
    }
  }

  /** `visitAllTasks` makes exactly the task events of `visitAllUnits`. */
  lemma {:induction false} TasksAreFilteredUnits(u: Unit, ctx: Context)
    ensures AllTasks(u, ctx) == Only(AllUnits(u, ctx), {TaskKind})
    decreases u, 1
  {
    var k := {TaskKind};
    match u
    case Dept(d) =>
      var head := [OnDepartment(d, ctx)];
      assert AllUnits(u, ctx) == head + UnitsOfChildren(d.children, ctx, 0);
      OnlyConcat(head, UnitsOfChildren(d.children, ctx, 0), k);
      OnlySingleton(head[0], k);
      ChildrenTasksAreFiltered(d.children, ctx, 0);
      assert [] + Only(UnitsOfChildren(d.children, ctx, 0), k) == Only(UnitsOfChildren(d.children, ctx, 0), k);
    case Emp(e) =>
      var head := [OnEmployee(e, ctx)];
      assert AllUnits(u, ctx) == head + TaskEvents(e.tasks, ctx, 0);
      OnlyConcat(head, TaskEvents(e.tasks, ctx, 0), k);
      OnlySingleton(head[0], k);
      OnlyTaskEvents(e.tasks, ctx, 0, k);
      assert [] + TaskEvents(e.tasks, ctx, 0) == TaskEvents(e.tasks, ctx, 0);
  }

  lemma {:induction false} ChildrenTasksAreFiltered(children: seq<Unit>, parent: Context, i: nat)
    ensures TasksOfChildren(children, parent, i) == Only(UnitsOfChildren(children, parent, i), {TaskKind})
    decreases children, |children| - i
  {
    if i < |children| {
      var c := ChildContext(parent, i, |children|);
      OnlyConcat(AllUnits(children[i], c), UnitsOfChildren(children, parent, i + 1), {TaskKind});
      TasksAreFilteredUnits(children[i], c);
      ChildrenTasksAreFiltered(children, parent, i + 1);
    }
  }

  // ---------------------------------------------------------------------------
  // Counting and shape
  // ---------------------------------------------------------------------------

  /** One department event per department, one employee event per employee and
      one task event per task; nothing else. */
  lemma {:induction false} WalkCounts(u: Unit, ctx: Context)
    ensures |AllDepartments(u, ctx)| == Departments(u)
    ensures |AllEmployees(u, ctx)| == Employees(u)
    ensures |AllTasks(u, ctx)| == Tasks(u)
    ensures |AllUnits(u, ctx)| == Departments(u) + Employees(u) + Tasks(u)
    decreases u, 1
  {
    match u
    case Dept(d) => ChildrenWalkCounts(d.children, ctx, 0);
    case Emp(e) => TaskEventsShape(e.tasks, ctx, 0);
  }

  lemma {:induction false} ChildrenWalkCounts(children: seq<Unit>, parent: Context, i: nat)
    ensures |DepartmentsOfChildren(children, parent, i)| == ChildrenDepartments(children, i)
    ensures |EmployeesOfChildren(children, parent, i)| == ChildrenEmployees(children, i)
    ensures |TasksOfChildren(children, parent, i)| == ChildrenTasks(children, i)
    ensures |UnitsOfChildren(children, parent, i)|
         == ChildrenDepartments(children, i) + ChildrenEmployees(children, i) + ChildrenTasks(children, i)
    decreases children, |children| - i
  {
    if i < |children| {
      WalkCounts(children[i], ChildContext(parent, i, |children|));
      ChildrenWalkCounts(children, parent, i + 1);
    }
  }

  /** The task events of an employee: one per task, in task order, at the
      employee's level plus one, `last` counted against the task list. */
  lemma {:induction false} TaskEventsShape(tasks: seq<Task>, parent: Context, i: nat)
    requires i <= |tasks|
    ensures TaskEvents(tasks, parent, i)
         == seq(|tasks| - i, k requires 0 <= k < |tasks| - i =>
                  OnTask(tasks[i + k], Context(parent.level + 1, i + k == |tasks| - 1)))
    decreases |tasks| - i
  {
    if i < |tasks| {
      TaskEventsShape(tasks, parent, i + 1);
    }
  }

  /** An employee's event comes first, followed by its task events in order. */
  lemma EmployeeWalk(e: Employee, ctx: Context)
    ensures AllUnits(Emp(e), ctx)
         == [OnEmployee(e, ctx)]
          + seq(|e.tasks|, k requires 0 <= k < |e.tasks| =>
                  OnTask(e.tasks[k], Context(ctx.level + 1, k == |e.tasks| - 1)))
  {
    TaskEventsShape(e.tasks, ctx, 0);
  }

  /** The stream of each child of a department, in array order, each walked with
      the context `updatedContext` gives it. */
  function ChildStreams(children: seq<Unit>, parent: Context): seq<seq<Event>>
  {
    seq(|children|, k requires 0 <= k < |children| => AllUnits(children[k], ChildContext(parent, k, |children|)))
  }

  lemma {:induction false} ChildrenWalkShape(children: seq<Unit>, parent: Context, i: nat)
    requires i <= |children|
    ensures UnitsOfChildren(children, parent, i) == Flatten(ChildStreams(children, parent)[i..])
    decreases |children| - i
  {
    var streams := ChildStreams(children, parent);
    if i < |children| {
      ChildrenWalkShape(children, parent, i + 1);
      assert streams[i..][1..] == streams[i + 1..];
    } else {
      assert streams[i..] == [];
    }
  }

  /** Pre-order: a department's event precedes every event of its subtree, and
      the children's streams follow one after another in array order; child `k`
      is walked one level deeper and is `last` exactly when it is the final child. */
  lemma DepartmentWalk(d: Department, ctx: Context)
    ensures AllUnits(Dept(d), ctx)
         == [OnDepartment(d, ctx)]
          + Flatten(seq(|d.children|, k requires 0 <= k < |d.children| =>
                          AllUnits(d.children[k], Context(ctx.level + 1, k == |d.children| - 1))))
  {
    var streams := ChildStreams(d.children, ctx);
    ChildrenWalkShape(d.children, ctx, 0);
    assert streams[0..] == streams;
    assert streams == seq(|d.children|, k requires 0 <= k < |d.children| =>
                            AllUnits(d.children[k], Context(ctx.level + 1, k == |d.children| - 1)));
  }

  /** The tree of the diagram in traversal.type.ts: A[C[D, E], B]. */
  lemma DiagramContexts(a: string, b: string, c: string, d: string, e: string)
    ensures
      var D, E, B := Department(d, []), Department(e, []), Department(b, []);
      var C := Department(c, [Dept(D), Dept(E)]);
      var A := Department(a, [Dept(C), Dept(B)]);
      AllUnits(Dept(A), DefaultContext)
      == [ OnDepartment(A, Context(0, false)), OnDepartment(C, Context(1, false)),
           OnDepartment(D, Context(2, false)), OnDepartment(E, Context(2, true)),
           OnDepartment(B, Context(1, true)) ]
  {
    var D, E, B := Department(d, []), Department(e, []), Department(b, []);
    var C := Department(c, [Dept(D), Dept(E)]);
    var A := Department(a, [Dept(C), Dept(B)]);
    var c0, c1, c2 := Context(0, false), Context(1, false), Context(2, false);
    var c1', c2' := Context(1, true), Context(2, true);
    assert AllUnits(Dept(D), c2) == [OnDepartment(D, c2)];
    assert AllUnits(Dept(E), c2') == [OnDepartment(E, c2')];
    assert AllUnits(Dept(B), c1') == [OnDepartment(B, c1')];
    assert UnitsOfChildren(C.children, c1, 1) == [OnDepartment(E, c2')];
    assert UnitsOfChildren(C.children, c1, 0) == [OnDepartment(D, c2), OnDepartment(E, c2')];
    assert AllUnits(Dept(C), c1) == [OnDepartment(C, c1), OnDepartment(D, c2), OnDepartment(E, c2')];
    assert UnitsOfChildren(A.children, c0, 1) == [OnDepartment(B, c1')];
    assert UnitsOfChildren(A.children, c0, 0)
        == [OnDepartment(C, c1), OnDepartment(D, c2), OnDepartment(E, c2'), OnDepartment(B, c1')];
  }
}
