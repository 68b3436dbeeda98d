/**
 * The visitor that sums task durations. It has only a task callback, so the
 * department and employee events of any walk pass it by.
 */
module TaskCalculation {
  import opened Wrappers
  import opened Model
  import opened Traversal
  import opened Visitors

  /** The visitor as a value: only the task callback, which adds the duration. */
  function TaskVisitor(): (v: Visitor<int>)
    ensures !v.Handles(DepartmentKind) && !v.Handles(EmployeeKind) && v.Handles(TaskKind)
  {
    Visitor(None, None, Some((total: int, t: Task, c: Context) => total + t.duration))
  }

  class TaskCalculationVisitor {
    /** The running total; the `totalWork` getter returns it. */
    var totalWork: int

    constructor ()
      ensures totalWork == 0
    {
      totalWork := 0;
    }

    method VisitTask(task: Task, context: Context)
      modifies this
      ensures totalWork == old(totalWork) + task.duration
    {
      totalWork := totalWork + task.duration;
    }

    /** Receives a walk's events in order; only task events reach a callback. */
    method Consume(events: seq<Event>)
      modifies this
      ensures totalWork == Run(TaskVisitor(), old(totalWork), events)
    {
      var i := 0;
      while i < |events|
        invariant 0 <= i <= |events|
        invariant totalWork == Run(TaskVisitor(), old(totalWork), events[..i])
      {
        RunSnoc(TaskVisitor(), old(totalWork), events[..i], events[i]);
        assert events[..i + 1] == events[..i] + [events[i]];
        match events[i] {
          case OnTask(t, c) => VisitTask(t, c);
          case OnDepartment(_, _) =>
          case OnEmployee(_, _) =>
        }
        i := i + 1;
      }
      assert events[..|events|] == events;
    }
  }

  /** Summing a list from the front gives the same as summing it from the back. */
  lemma {:induction false} TaskSumCons(t: Task, tasks: seq<Task>)
    ensures TaskSum([t] + tasks) == t.duration + TaskSum(tasks)
    decreases |tasks|
  {
    if tasks != [] {
      var init := tasks[..|tasks| - 1];
      assert ([t] + tasks)[..|tasks|] == [t] + init;
      TaskSumCons(t, init);
    } else {
      assert [t] + tasks == [t];
      assert [t][..0] == [];
    }
  }

  /** The task events of an employee add the durations of its remaining tasks. */
  lemma {:induction false} TaskEventsTotal(tasks: seq<Task>, parent: Context, i: nat, s: int)
    requires i <= |tasks|
    ensures Run(TaskVisitor(), s, TaskEvents(tasks, parent, i)) == s + TaskSum(tasks[i..])
    decreases |tasks| - i
  {
    var v := TaskVisitor();
    if i < |tasks| {
      var head := [OnTask(tasks[i], ChildContext(parent, i, |tasks|))];
      assert TaskEvents(tasks, parent, i) == head + TaskEvents(tasks, parent, i + 1);
      RunConcat(v, s, head, TaskEvents(tasks, parent, i + 1));
      assert head[..0] == [];
      assert Run(v, s, head) == s + tasks[i].duration;
      TaskEventsTotal(tasks, parent, i + 1, s + tasks[i].duration);
      assert tasks[i..] == [tasks[i]] + tasks[i + 1..];
      TaskSumCons(tasks[i], tasks[i + 1..]);
    } else {
      assert tasks[i..] == [];
    }
  }

  /** `visitAllTasks` delivers every task of the subtree, so the visitor adds
      the subtree's total duration to whatever it held. */
  lemma {:induction false} TasksWalkTotal(u: Unit, ctx: Context, s: int)
    ensures Run(TaskVisitor(), s, AllTasks(u, ctx)) == s + TotalDuration(u)
    decreases u, 1
  {
    match u
    case Dept(d) =>
      ChildrenTasksWalkTotal(d.children, ctx, 0, s);
    case Emp(e) =>
      TaskEventsTotal(e.tasks, ctx, 0, s);
      assert e.tasks[0..] == e.tasks;
  }

  lemma {:induction false} ChildrenTasksWalkTotal(children: seq<Unit>, parent: Context, i: nat, s: int)
    ensures Run(TaskVisitor(), s, TasksOfChildren(children, parent, i)) == s + ChildrenDuration(children, i)
    decreases children, |children| - i
  {
    if i < |children| {
      var v := TaskVisitor();
      var c := ChildContext(parent, i, |children|);
      var first, others := AllTasks(children[i], c), TasksOfChildren(children, parent, i + 1);
      assert TasksOfChildren(children, parent, i) == first + others;
      RunConcat(v, s, first, others);
      TasksWalkTotal(children[i], c, s);
      ChildrenTasksWalkTotal(children, parent, i + 1, s + TotalDuration(children[i]));
    }
  }

  /** The same visitor driven by `visitAllUnits` computes the same total: the
      department and employee events find no callback. */
  lemma UnitsWalkTotal(u: Unit, ctx: Context, s: int)
    ensures Run(TaskVisitor(), s, AllUnits(u, ctx)) == s + TotalDuration(u)
  {
    UnhandledEventsAreIgnored(TaskVisitor(), s, AllUnits(u, ctx), {TaskKind});
    TasksAreFilteredUnits(u, ctx);
    TasksWalkTotal(u, ctx, s);
  }

  /** The documented use: a fresh visitor, `visitAllTasks` from the root with the
      default context, then `totalWork`. */
  method TotalWork(root: Unit) returns (total: int)
    ensures total == TotalDuration(root)
  {
    var visitor := new TaskCalculationVisitor();
    visitor.Consume(AllTasks(root, DefaultContext));
    TasksWalkTotal(root, DefaultContext, 0);
    total := visitor.totalWork;
  }
}
