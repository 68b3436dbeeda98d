/** Optional values, used for the visitor's optional callbacks and for table lookups. */
module Wrappers {
  datatype Option<+T> = None | Some(value: T)
}

/**
 * The organisation tree: a unit is a department with ordered children or an
 * employee with a role and ordered tasks.
 */
module Model {

  /** The role code of an employee. The declared codes are "A", "B", "C" and "X";
      any other string is admitted so that the renderers' fallbacks can be reached. */
  type Role = string

  datatype Task = Task(id: int, duration: int)

  datatype Department = Department(name: string, children: seq<Unit>)

  datatype Employee = Employee(name: string, role: Role, tasks: seq<Task>)

  datatype Unit = Dept(department: Department) | Emp(employee: Employee)

  /** Sum of the durations of a task list (the source's `tasks.reduce`). */
  function TaskSum(tasks: seq<Task>): int
  {
    if tasks == [] then 0 else TaskSum(tasks[..|tasks| - 1]) + tasks[|tasks| - 1].duration
  }

  /** Sum of all task durations in a subtree: the reference total. */
  function TotalDuration(u: Unit): int
    decreases u, 1
  {
    match u
    case Dept(d) => ChildrenDuration(d.children, 0)
    case Emp(e) => TaskSum(e.tasks)
  }

  /** Sum of `TotalDuration` over `children[i..]`. */
  function ChildrenDuration(children: seq<Unit>, i: nat): int
    decreases children, |children| - i
  {
    if i >= |children| then 0 else TotalDuration(children[i]) + ChildrenDuration(children, i + 1)
  }

  /** Number of departments, employees and tasks in a subtree. */
  function Departments(u: Unit): nat
    decreases u, 1
  {
    match u
    case Dept(d) => 1 + ChildrenDepartments(d.children, 0)
    case Emp(_) => 0
  }

  function ChildrenDepartments(children: seq<Unit>, i: nat): nat
    decreases children, |children| - i
  {
    if i >= |children| then 0 else Departments(children[i]) + ChildrenDepartments(children, i + 1)
  }

  function Employees(u: Unit): nat
    decreases u, 1
  {
    match u
    case Dept(d) => ChildrenEmployees(d.children, 0)
    case Emp(_) => 1
  }

  function ChildrenEmployees(children: seq<Unit>, i: nat): nat
    decreases children, |children| - i
  {
    if i >= |children| then 0 else Employees(children[i]) + ChildrenEmployees(children, i + 1)
  }

  function Tasks(u: Unit): nat
    decreases u, 1
  {
    match u
    case Dept(d) => ChildrenTasks(d.children, 0)
    case Emp(e) => |e.tasks|
  }

  function ChildrenTasks(children: seq<Unit>, i: nat): nat
    decreases children, |children| - i
  {
    if i >= |children| then 0 else Tasks(children[i]) + ChildrenTasks(children, i + 1)
  }
}
