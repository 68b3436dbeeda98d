/**
 * The visitor that builds the tree report. Each department or employee
 * callback appends one newline-terminated line; non-root departments also
 * update the tree renderer's active levels. The main theorem relates the
 * report a walk produces to a stateless outline in which the bar at depth `i`
 * is drawn exactly when the ancestor at depth `i` is not a last child.
 */
module OrganisationTree {
  import opened Wrappers
  import opened Model
  import opened Traversal
  import opened Visitors
  import opened RenderTree
  import opened RenderOrganisation

  /** The visitor's observable state: the report text so far and the tree
      renderer's active levels. */
  datatype ReportState = ReportState(text: string, active: set<nat>)

  const FreshState: ReportState := ReportState("", {})

  /** `visitDepartment` on a state value. The root department gets no indent and
      does not touch the active levels; any other department is indented with
      the levels as they were before it, and then updates them. */
  function DepartmentStep(name: Unit -> string, tc: TreeConfig, st: ReportState, d: Department, ctx: Context): ReportState
  {
    if ctx.level == 0 then
      ReportState(st.text + name(Dept(d)) + "\n", st.active)
    else
      ReportState(st.text + Indent(tc, st.active, ctx) + name(Dept(d)) + "\n",
                  UpdatedLevels(st.active, ctx))
  }

  /** `visitEmployee` on a state value: always indented, levels untouched. */
  function EmployeeStep(name: Unit -> string, tc: TreeConfig, st: ReportState, e: Employee, ctx: Context): ReportState
  {
    ReportState(st.text + Indent(tc, st.active, ctx) + name(Emp(e)) + "\n", st.active)
  }

  /** The visitor as a value, for a given labeller: department and employee
      callbacks, no task callback. */
  function TreeVisitor(name: Unit -> string, tc: TreeConfig): (v: Visitor<ReportState>)
    ensures v.Handles(DepartmentKind) && v.Handles(EmployeeKind) && !v.Handles(TaskKind)
  {
    Visitor(Some((s, d, c) => DepartmentStep(name, tc, s, d, c)),
            Some((s, e, c) => EmployeeStep(name, tc, s, e, c)),
            None)
  }

  /** The label of a node, from the organisation renderer. */
  function Label(oc: OrganisationConfig, u: Unit): string
  {
    match u
    case Dept(d) => RenderDepartment(oc, d)
    case Emp(e) => RenderEmployee(oc, e)
  }

  /** The labeller a report uses. */
  function Labeller(oc: OrganisationConfig): Unit -> string
  {
    u => Label(oc, u)
  }

  class OrganisationTreeVisitor {
    const organisationRenderer: OrganisationConfig
    const treeRenderer: TreeRenderer
    /** The report so far; the `renderedTree` getter returns it. */
    var renderedTree: string

    function State(): ReportState
      reads this, treeRenderer
    {
      ReportState(renderedTree, treeRenderer.activeParentLevels)
    }

    constructor (organisationRenderer: OrganisationConfig, treeRenderer: TreeRenderer)
      ensures this.organisationRenderer == organisationRenderer
      ensures this.treeRenderer == treeRenderer
      ensures renderedTree == ""
    {
      this.organisationRenderer := organisationRenderer;
      this.treeRenderer := treeRenderer;
      renderedTree := "";
    }

    /** Appends one newline-terminated line. */
    method AddToRenderedTree(line: string)
      modifies this
      ensures renderedTree == old(renderedTree) + line + "\n"
    {
      renderedTree := renderedTree + line + "\n";
    }

    method VisitDepartment(department: Department, context: Context)
      modifies this, treeRenderer
      ensures context.level == 0 ==>
                renderedTree == old(renderedTree) + RenderDepartment(organisationRenderer, department) + "\n"
                && treeRenderer.activeParentLevels == old(treeRenderer.activeParentLevels)
      ensures context.level != 0 ==>
                renderedTree == old(renderedTree) + Indent(treeRenderer.config, old(treeRenderer.activeParentLevels), context)
                                + RenderDepartment(organisationRenderer, department) + "\n"
                && treeRenderer.activeParentLevels == UpdatedLevels(old(treeRenderer.activeParentLevels), context)
      ensures State() == DepartmentStep(Labeller(organisationRenderer), treeRenderer.config, old(State()), department, context)
    {
      if context.level == 0 {
        AddToRenderedTree(RenderDepartment(organisationRenderer, department));
        return;
      }
      var indent := treeRenderer.RenderTreeIndent(context);
      AddToRenderedTree(indent + RenderDepartment(organisationRenderer, department));
      treeRenderer.UpdateActiveBranchLevels(context);
    }

    method VisitEmployee(employee: Employee, context: Context)
      modifies this
      ensures renderedTree == old(renderedTree) + Indent(treeRenderer.config, treeRenderer.activeParentLevels, context)
                              + RenderEmployee(organisationRenderer, employee) + "\n"
      ensures State() == EmployeeStep(Labeller(organisationRenderer), treeRenderer.config, old(State()), employee, context)
    {
      var treeIndent := treeRenderer.RenderTreeIndent(context);
      AddToRenderedTree(treeIndent + RenderEmployee(organisationRenderer, employee));
    }

    /** Receives a walk's events in order; task events find no callback. */
    method Consume(events: seq<Event>)
      modifies this, treeRenderer
      ensures State() == Run(TreeVisitor(Labeller(organisationRenderer), treeRenderer.config), old(State()), events)
    {
      var v := TreeVisitor(Labeller(organisationRenderer), treeRenderer.config);
      var i := 0;
      while i < |events|
        invariant 0 <= i <= |events|
        invariant State() == Run(v, old(State()), events[..i])
      {
        RunSnoc(v, old(State()), events[..i], events[i]);
        assert events[..i + 1] == events[..i] + [events[i]];
        match events[i] {
          case OnDepartment(d, c) => VisitDepartment(d, c);
          case OnEmployee(e, c) => VisitEmployee(e, c);
          case OnTask(_, _) =>
        }
        i := i + 1;
      }
      assert events[..|events|] == events;
    }
  }

  // ---------------------------------------------------------------------------
  // Append-only report
  // ---------------------------------------------------------------------------

  /** Whatever the events, the report only grows: earlier text is a prefix of later text. */
  lemma {:induction false} ReportIsAppendOnly(name: Unit -> string, tc: TreeConfig, st: ReportState, evs: seq<Event>)
    ensures var r := Run(TreeVisitor(name, tc), st, evs);
            |st.text| <= |r.text| && r.text[..|st.text|] == st.text
    decreases |evs|
  {
    if evs != [] {
      var v := TreeVisitor(name, tc);
      var init := evs[..|evs| - 1];
      ReportIsAppendOnly(name, tc, st, init);
      var mid := Run(v, st, init);
      var r := Dispatch(v, mid, evs[|evs| - 1]);
      StepAppends(name, tc, mid, evs[|evs| - 1]);
      assert r.text[..|st.text|] == r.text[..|mid.text|][..|st.text|];
    }
  }

  /** One event appends to the report and never rewrites it. */
  lemma StepAppends(name: Unit -> string, tc: TreeConfig, st: ReportState, ev: Event)
    ensures var r := Dispatch(TreeVisitor(name, tc), st, ev);
            |st.text| <= |r.text| && r.text[..|st.text|] == st.text
  {
    match ev
    case OnDepartment(d, c) =>
      var tail := (if c.level == 0 then "" else Indent(tc, st.active, c)) + name(Dept(d)) + "\n";
      assert Dispatch(TreeVisitor(name, tc), st, ev).text == st.text + tail;
    case OnEmployee(e, c) =>
      var tail := Indent(tc, st.active, c) + name(Emp(e)) + "\n";
      assert Dispatch(TreeVisitor(name, tc), st, ev).text == st.text + tail;
    case OnTask(_, _) =>
  }

  // ---------------------------------------------------------------------------
  // The reference outline
  // ---------------------------------------------------------------------------

  /** One report line: its prefix and the node it labels. */
  datatype Line = Line(prefix: string, node: Unit)

  /** The indent segments of a node whose ancestors, from the root down, had the
      contexts `ancestors`: segment 0 is blank, and segment `i >= 1` is the line
      glyph exactly when the ancestor at depth `i` is not a last child. */
  function Bars(tc: TreeConfig, ancestors: seq<Context>): (r: seq<string>)
    ensures |r| == |ancestors|
    ensures forall i :: 0 <= i < |r| ==>
              r[i] == if i >= 1 && !ancestors[i].last then tc.style(tc.line) else Blank
  {
    if ancestors == [] then []
    else
      var n := |ancestors| - 1;
      Bars(tc, ancestors[..n]) + [if n >= 1 && !ancestors[n].last then tc.style(tc.line) else Blank]
  }

  /** The prefix of a node drawn from its ancestors alone. */
  function AncestorIndent(tc: TreeConfig, ancestors: seq<Context>, ctx: Context): string
  {
    Concat(Bars(tc, ancestors)) + Marker(tc, ctx)
  }

  /** The line of one node: a root department (level 0) has no prefix, every
      other node the prefix its ancestors give it. */
  function NodeLine(tc: TreeConfig, u: Unit, ctx: Context, ancestors: seq<Context>): Line
  {
    Line(if u.Dept? && ctx.level == 0 then "" else AncestorIndent(tc, ancestors, ctx), u)
  }

  /** The lines of a subtree, in pre-order: departments always, employees when
      `withEmployees`. */
  function Outline(tc: TreeConfig, withEmployees: bool, u: Unit, ctx: Context, ancestors: seq<Context>): seq<Line>
    decreases u, 1
  {
    match u
    case Dept(d) =>
      [NodeLine(tc, u, ctx, ancestors)] + ChildrenOutline(tc, withEmployees, d.children, ctx, ancestors + [ctx], 0)
    case Emp(_) =>
      if withEmployees then [NodeLine(tc, u, ctx, ancestors)] else []
  }

  function ChildrenOutline(tc: TreeConfig, withEmployees: bool, children: seq<Unit>, parent: Context,
                           ancestors: seq<Context>, i: nat): seq<Line>
    decreases children, |children| - i
  {
    if i >= |children| then []
    else Outline(tc, withEmployees, children[i], ChildContext(parent, i, |children|), ancestors)
         + ChildrenOutline(tc, withEmployees, children, parent, ancestors, i + 1)
  }

  /** One report line: prefix, label, newline. */
  function LineText(name: Unit -> string, line: Line): string
  {
    line.prefix + name(line.node) + "\n"
  }

  /** The report text of a sequence of lines. */
  function Text(name: Unit -> string, lines: seq<Line>): string
  {
    if lines == [] then "" else Text(name, lines[..|lines| - 1]) + LineText(name, lines[|lines| - 1])
  }

  lemma {:induction false} TextConcat(name: Unit -> string, a: seq<Line>, b: seq<Line>)
    ensures Text(name, a + b) == Text(name, a) + Text(name, b)
    decreases |b|
  {
    if b == [] {
      assert a + b == a;
    } else {
      var b', last := b[..|b| - 1], b[|b| - 1];
      assert (a + b)[..|a + b| - 1] == a + b';
      assert (a + b)[|a + b| - 1] == last;
      assert Text(name, a + b) == Text(name, a + b') + LineText(name, last);
      assert Text(name, b) == Text(name, b') + LineText(name, last);
      TextConcat(name, a, b');
      ConcatAssoc(Text(name, a), Text(name, b'), LineText(name, last));
    }
  }

  /** The nodes of the lines, in order. */
  function Nodes(lines: seq<Line>): (r: seq<Unit>)
    ensures |r| == |lines|
  {
    if lines == [] then [] else Nodes(lines[..|lines| - 1]) + [lines[|lines| - 1].node]
  }

  lemma {:induction false} NodesConcat(a: seq<Line>, b: seq<Line>)
    ensures Nodes(a + b) == Nodes(a) + Nodes(b)
    decreases |b|
  {
    if b == [] {
      assert a + b == a;
    } else {
      var b' := b[..|b| - 1];
      assert (a + b)[..|a + b| - 1] == a + b';
      NodesConcat(a, b');
    }
  }

  /** The department and employee nodes an event stream visits, in order. */
  function VisitedUnits(evs: seq<Event>): seq<Unit>
  {
    if evs == [] then []
    else VisitedUnits(evs[..|evs| - 1])
         + match evs[|evs| - 1]
           case OnDepartment(d, _) => [Dept(d)]
           case OnEmployee(e, _) => [Emp(e)]
           case OnTask(_, _) => []
  }

  lemma {:induction false} VisitedUnitsConcat(a: seq<Event>, b: seq<Event>)
    ensures VisitedUnits(a + b) == VisitedUnits(a) + VisitedUnits(b)
    decreases |b|
  {
    if b == [] {
      assert a + b == a;
    } else {
      var b' := b[..|b| - 1];
      assert (a + b)[..|a + b| - 1] == a + b';
      VisitedUnitsConcat(a, b');
    }
  }

  lemma {:induction false} TaskEventsVisitNoUnit(tasks: seq<Task>, parent: Context, i: nat)
    ensures VisitedUnits(TaskEvents(tasks, parent, i)) == []
    decreases |tasks| - i
  {
    if i < |tasks| {
      var head := [OnTask(tasks[i], ChildContext(parent, i, |tasks|))];
      VisitedUnitsConcat(head, TaskEvents(tasks, parent, i + 1));
      assert VisitedUnits(head) == VisitedUnits([]) + [];
      TaskEventsVisitNoUnit(tasks, parent, i + 1);
    }
  }

  /** One line per department and employee, in the order `visitAllUnits` visits them. */
  lemma {:induction false} OutlineFollowsUnitsWalk(tc: TreeConfig, u: Unit, ctx: Context, ancestors: seq<Context>)
    ensures Nodes(Outline(tc, true, u, ctx, ancestors)) == VisitedUnits(AllUnits(u, ctx))
    ensures |Outline(tc, true, u, ctx, ancestors)| == Departments(u) + Employees(u)
    decreases u, 1
  {
    match u
    case Dept(d) =>
      var head := [OnDepartment(d, ctx)];
      var line := [NodeLine(tc, u, ctx, ancestors)];
      VisitedUnitsConcat(head, UnitsOfChildren(d.children, ctx, 0));
      assert VisitedUnits(head) == VisitedUnits([]) + [u];
      NodesConcat(line, ChildrenOutline(tc, true, d.children, ctx, ancestors + [ctx], 0));
      assert Nodes(line) == Nodes([]) + [u];
      ChildrenOutlineFollowsUnitsWalk(tc, d.children, ctx, ancestors + [ctx], 0);
    case Emp(e) =>
      var head := [OnEmployee(e, ctx)];
      VisitedUnitsConcat(head, TaskEvents(e.tasks, ctx, 0));
      assert VisitedUnits(head) == VisitedUnits([]) + [u];
      TaskEventsVisitNoUnit(e.tasks, ctx, 0);
      assert Nodes([NodeLine(tc, u, ctx, ancestors)]) == Nodes([]) + [u];
  }

  lemma {:induction false} ChildrenOutlineFollowsUnitsWalk(tc: TreeConfig, children: seq<Unit>, parent: Context,
                                                           ancestors: seq<Context>, i: nat)
    ensures Nodes(ChildrenOutline(tc, true, children, parent, ancestors, i))
         == VisitedUnits(UnitsOfChildren(children, parent, i))
    ensures |ChildrenOutline(tc, true, children, parent, ancestors, i)|
         == ChildrenDepartments(children, i) + ChildrenEmployees(children, i)
    decreases children, |children| - i
  {
    if i < |children| {
      var c := ChildContext(parent, i, |children|);
      OutlineFollowsUnitsWalk(tc, children[i], c, ancestors);
      ChildrenOutlineFollowsUnitsWalk(tc, children, parent, ancestors, i + 1);
      NodesConcat(Outline(tc, true, children[i], c, ancestors), ChildrenOutline(tc, true, children, parent, ancestors, i + 1));
      VisitedUnitsConcat(AllUnits(children[i], c), UnitsOfChildren(children, parent, i + 1));
    }
  }

  /** One line per department, in the order `visitAllDepartments` visits them. */
  lemma {:induction false} OutlineFollowsDepartmentsWalk(tc: TreeConfig, u: Unit, ctx: Context, ancestors: seq<Context>)
    ensures Nodes(Outline(tc, false, u, ctx, ancestors)) == VisitedUnits(AllDepartments(u, ctx))
    ensures |Outline(tc, false, u, ctx, ancestors)| == Departments(u)
    decreases u, 1
  {
    match u
    case Dept(d) =>
      var head := [OnDepartment(d, ctx)];
      var line := [NodeLine(tc, u, ctx, ancestors)];
      VisitedUnitsConcat(head, DepartmentsOfChildren(d.children, ctx, 0));
      assert VisitedUnits(head) == VisitedUnits([]) + [u];
      NodesConcat(line, ChildrenOutline(tc, false, d.children, ctx, ancestors + [ctx], 0));
      assert Nodes(line) == Nodes([]) + [u];
      ChildrenOutlineFollowsDepartmentsWalk(tc, d.children, ctx, ancestors + [ctx], 0);
    case Emp(e) =>
  }

  lemma {:induction false} ChildrenOutlineFollowsDepartmentsWalk(tc: TreeConfig, children: seq<Unit>, parent: Context,
                                                                 ancestors: seq<Context>, i: nat)
    ensures Nodes(ChildrenOutline(tc, false, children, parent, ancestors, i))
         == VisitedUnits(DepartmentsOfChildren(children, parent, i))
    ensures |ChildrenOutline(tc, false, children, parent, ancestors, i)| == ChildrenDepartments(children, i)
    decreases children, |children| - i
  {
    if i < |children| {
      var c := ChildContext(parent, i, |children|);
      OutlineFollowsDepartmentsWalk(tc, children[i], c, ancestors);
      ChildrenOutlineFollowsDepartmentsWalk(tc, children, parent, ancestors, i + 1);
      NodesConcat(Outline(tc, false, children[i], c, ancestors), ChildrenOutline(tc, false, children, parent, ancestors, i + 1));
      VisitedUnitsConcat(AllDepartments(children[i], c), DepartmentsOfChildren(children, parent, i + 1));
    }
  }

  // ---------------------------------------------------------------------------
  // The stateful renderer draws the outline
  // ---------------------------------------------------------------------------

  /** The active levels say, for each ancestor depth, whether its bar is drawn;
      level 0 is never active. */
  ghost predicate Agrees(active: set<nat>, ancestors: seq<Context>)
  {
    && 0 !in active
    && forall i :: 1 <= i < |ancestors| ==> (i in active <==> !ancestors[i].last)
  }

  /** Two active sets agree on level 0 and on every level below `level`. */
  ghost predicate SameBelow(a1: set<nat>, a2: set<nat>, level: nat)
  {
    forall i: nat :: (i == 0 || i < level) ==> (i in a1 <==> i in a2)
  }

  /** When the active levels agree with the ancestors, the renderer's indent is
      the ancestors' indent. */
  lemma IndentMatchesAncestors(tc: TreeConfig, active: set<nat>, ancestors: seq<Context>, ctx: Context)
    requires |ancestors| == ctx.level
    requires Agrees(active, ancestors)
    ensures Indent(tc, active, ctx) == AncestorIndent(tc, ancestors, ctx)
  {
    assert Segments(tc, active, ctx.level) == Bars(tc, ancestors);
  }

  /** After a non-root department's update, the levels agree with the ancestors
      of its children. */
  lemma AgreesAfterUpdate(active: set<nat>, ancestors: seq<Context>, ctx: Context)
    requires |ancestors| == ctx.level >= 1
    requires Agrees(active, ancestors)
    ensures Agrees(UpdatedLevels(active, ctx), ancestors + [ctx])
    ensures SameBelow(UpdatedLevels(active, ctx), active, ctx.level)
  {
    var a := UpdatedLevels(active, ctx);
    var anc := ancestors + [ctx];
    forall i | 1 <= i < |anc| ensures i in a <==> !anc[i].last {
      if i < ctx.level {
        assert anc[i] == ancestors[i];
      }
    }
  }

  /** A department's callback writes its outline line; below the root it then
      records its own branch, so the levels agree with its children's ancestors. */
  lemma DepartmentDrawsLine(name: Unit -> string, tc: TreeConfig, d: Department, ctx: Context,
                            ancestors: seq<Context>, st: ReportState)
    requires |ancestors| == ctx.level
    requires Agrees(st.active, ancestors)
    ensures var r := Run(TreeVisitor(name, tc), st, [OnDepartment(d, ctx)]);
            && r.text == st.text + LineText(name, NodeLine(tc, Dept(d), ctx, ancestors))
            && Agrees(r.active, ancestors + [ctx])
            && SameBelow(r.active, st.active, ctx.level)
  {
    var head := [OnDepartment(d, ctx)];
    assert head[..0] == [];
    assert Run(TreeVisitor(name, tc), st, head) == DepartmentStep(name, tc, st, d, ctx);
    if ctx.level == 0 {
      RootDepartmentDrawsLine(name, tc, d, ctx, ancestors, st);
    } else {
      NestedDepartmentDrawsLine(name, tc, d, ctx, ancestors, st);
    }
  }

  lemma RootDepartmentDrawsLine(name: Unit -> string, tc: TreeConfig, d: Department, ctx: Context,
                                ancestors: seq<Context>, st: ReportState)
    requires |ancestors| == ctx.level == 0
    requires Agrees(st.active, ancestors)
    ensures var r := DepartmentStep(name, tc, st, d, ctx);
            && r.text == st.text + LineText(name, NodeLine(tc, Dept(d), ctx, ancestors))
            && Agrees(r.active, ancestors + [ctx])
            && SameBelow(r.active, st.active, ctx.level)
  {
    assert NodeLine(tc, Dept(d), ctx, ancestors).prefix == "";
    assert "" + name(Dept(d)) == name(Dept(d));
  }

  lemma NestedDepartmentDrawsLine(name: Unit -> string, tc: TreeConfig, d: Department, ctx: Context,
                                  ancestors: seq<Context>, st: ReportState)
    requires |ancestors| == ctx.level >= 1
    requires Agrees(st.active, ancestors)
    ensures var r := DepartmentStep(name, tc, st, d, ctx);
            && r.text == st.text + LineText(name, NodeLine(tc, Dept(d), ctx, ancestors))
            && Agrees(r.active, ancestors + [ctx])
            && SameBelow(r.active, st.active, ctx.level)
  {
    IndentMatchesAncestors(tc, st.active, ancestors, ctx);
    AgreesAfterUpdate(st.active, ancestors, ctx);
    var indent, shown := Indent(tc, st.active, ctx), name(Dept(d));
    assert NodeLine(tc, Dept(d), ctx, ancestors).prefix == indent;
    ConcatAssoc(st.text, indent, shown);
    ConcatAssoc(st.text, indent + shown, "\n");
  }

  /** An employee's callback writes its outline line and leaves the levels alone. */
  lemma EmployeeDrawsLine(name: Unit -> string, tc: TreeConfig, e: Employee, ctx: Context,
                          ancestors: seq<Context>, st: ReportState)
    requires |ancestors| == ctx.level
    requires Agrees(st.active, ancestors)
    ensures var r := Run(TreeVisitor(name, tc), st, [OnEmployee(e, ctx)]);
            r.text == st.text + LineText(name, NodeLine(tc, Emp(e), ctx, ancestors)) && r.active == st.active
  {
    var head := [OnEmployee(e, ctx)];
    assert head[..0] == [];
    IndentMatchesAncestors(tc, st.active, ancestors, ctx);
    var indent, shown := Indent(tc, st.active, ctx), name(Emp(e));
    assert Run(TreeVisitor(name, tc), st, head).text == st.text + indent + shown + "\n";
    ConcatAssoc(st.text, indent, shown);
    ConcatAssoc(st.text, indent + shown, "\n");
  }

  /** The text of a line followed by more lines. */
  lemma TextOfLine(name: Unit -> string, line: Line, rest: seq<Line>)
    ensures Text(name, [line] + rest) == LineText(name, line) + Text(name, rest)
  {
    TextConcat(name, [line], rest);
    assert [line][..0] == [];
  }

  /** Appending the text of two runs of lines is appending the text of both. */
  lemma AppendTexts(name: Unit -> string, t0: string, t1: string, t2: string, here: seq<Line>, later: seq<Line>)
    requires t1 == t0 + Text(name, here)
    requires t2 == t1 + Text(name, later)
    ensures t2 == t0 + Text(name, here + later)
  {
    TextConcat(name, here, later);
    ConcatAssoc(t0, Text(name, here), Text(name, later));
  }

  /** Levels that match on everything an ancestor list covers agree with it alike. */
  lemma AgreesTransfer(a1: set<nat>, a2: set<nat>, ancestors: seq<Context>)
    requires Agrees(a2, ancestors)
    requires SameBelow(a1, a2, |ancestors|)
    ensures Agrees(a1, ancestors)
  {
  }

  lemma ConcatAssoc(a: string, b: string, c: string)
    ensures (a + b) + c == a + (b + c)
  {
  }

  lemma SameBelowTrans(a1: set<nat>, a2: set<nat>, a3: set<nat>, lo: nat, hi: nat)
    requires lo <= hi
    requires SameBelow(a1, a2, hi)
    requires SameBelow(a2, a3, lo)
    ensures SameBelow(a1, a3, lo)
  {
  }

  lemma {:induction false} TaskEventsAreIgnored(name: Unit -> string, tc: TreeConfig, tasks: seq<Task>,
                                                parent: Context, i: nat, st: ReportState)
    ensures Run(TreeVisitor(name, tc), st, TaskEvents(tasks, parent, i)) == st
    decreases |tasks| - i
  {
    if i < |tasks| {
      var v := TreeVisitor(name, tc);
      var head := [OnTask(tasks[i], ChildContext(parent, i, |tasks|))];
      RunConcat(v, st, head, TaskEvents(tasks, parent, i + 1));
      assert Run(v, st, head) == Dispatch(v, Run(v, st, []), head[0]) == st;
      TaskEventsAreIgnored(name, tc, tasks, parent, i + 1, st);
    }
  }

  /** The main theorem. Walking a subtree with `visitAllUnits` appends exactly
      the outline of that subtree, whatever the report held before, provided the
      active levels agree with the ancestors; and the walk leaves level 0 and
      every level above the subtree's root as it found them. */
  lemma {:induction false} UnitsWalkDrawsOutline(name: Unit -> string, tc: TreeConfig, u: Unit, ctx: Context,
                                                 ancestors: seq<Context>, st: ReportState)
    requires |ancestors| == ctx.level
    requires Agrees(st.active, ancestors)
    ensures Run(TreeVisitor(name, tc), st, AllUnits(u, ctx)).text == st.text + Text(name, Outline(tc, true, u, ctx, ancestors))
    ensures SameBelow(Run(TreeVisitor(name, tc), st, AllUnits(u, ctx)).active, st.active, ctx.level)
    decreases u, 1
  {
    var v := TreeVisitor(name, tc);
    var line := NodeLine(tc, u, ctx, ancestors);
    match u
    case Dept(d) =>
      var head, kids := [OnDepartment(d, ctx)], UnitsOfChildren(d.children, ctx, 0);
      assert AllUnits(u, ctx) == head + kids;
      RunConcat(v, st, head, kids);
      DepartmentDrawsLine(name, tc, d, ctx, ancestors, st);
      var st1 := Run(v, st, head);
      var rest := ChildrenOutline(tc, true, d.children, ctx, ancestors + [ctx], 0);
      TextOfLine(name, line, rest);
      ChildrenWalkDrawsOutline(name, tc, d.children, ctx, ancestors + [ctx], 0, st1);
      ConcatAssoc(st.text, LineText(name, line), Text(name, rest));
      SameBelowTrans(Run(v, st1, kids).active, st1.active, st.active, ctx.level, ctx.level + 1);
    case Emp(e) =>
      var head, tasks := [OnEmployee(e, ctx)], TaskEvents(e.tasks, ctx, 0);
      assert AllUnits(u, ctx) == head + tasks;
      RunConcat(v, st, head, tasks);
      EmployeeDrawsLine(name, tc, e, ctx, ancestors, st);
      TaskEventsAreIgnored(name, tc, e.tasks, ctx, 0, Run(v, st, head));
      TextOfLine(name, line, []);
      assert [line] + [] == [line];
  }

  lemma {:induction false} ChildrenWalkDrawsOutline(name: Unit -> string, tc: TreeConfig, children: seq<Unit>,
                                                    parent: Context, ancestors: seq<Context>, i: nat, st: ReportState)
    requires |ancestors| == parent.level + 1
    requires Agrees(st.active, ancestors)
    ensures Run(TreeVisitor(name, tc), st, UnitsOfChildren(children, parent, i)).text == st.text + Text(name, ChildrenOutline(tc, true, children, parent, ancestors, i))
    ensures SameBelow(Run(TreeVisitor(name, tc), st, UnitsOfChildren(children, parent, i)).active, st.active, parent.level + 1)
    decreases children, |children| - i, 1
  {
    if i < |children| {
      ChildWalkDrawsOutline(name, tc, children, parent, ancestors, i, st);
    } else {
      assert UnitsOfChildren(children, parent, i) == [];
      assert ChildrenOutline(tc, true, children, parent, ancestors, i) == [];
      assert st.text + Text(name, []) == st.text;
    }
  }

  lemma {:induction false} ChildWalkDrawsOutline(name: Unit -> string, tc: TreeConfig, children: seq<Unit>,
                                                 parent: Context, ancestors: seq<Context>, i: nat, st: ReportState)
    requires i < |children|
    requires |ancestors| == parent.level + 1
    requires Agrees(st.active, ancestors)
    ensures Run(TreeVisitor(name, tc), st, UnitsOfChildren(children, parent, i)).text == st.text + Text(name, ChildrenOutline(tc, true, children, parent, ancestors, i))
    ensures SameBelow(Run(TreeVisitor(name, tc), st, UnitsOfChildren(children, parent, i)).active, st.active, parent.level + 1)
    decreases children, |children| - i, 0
  {
    var v := TreeVisitor(name, tc);
    var c := ChildContext(parent, i, |children|);
    var first, others := AllUnits(children[i], c), UnitsOfChildren(children, parent, i + 1);
    assert UnitsOfChildren(children, parent, i) == first + others;
    RunConcat(v, st, first, others);
    var st1 := Run(v, st, first);
    var r := Run(v, st1, others);
    UnitsWalkDrawsOutline(name, tc, children[i], c, ancestors, st);
    AgreesTransfer(st1.active, st.active, ancestors);
    ChildrenWalkDrawsOutline(name, tc, children, parent, ancestors, i + 1, st1);
    var here, later := Outline(tc, true, children[i], c, ancestors), ChildrenOutline(tc, true, children, parent, ancestors, i + 1);
    assert ChildrenOutline(tc, true, children, parent, ancestors, i) == here + later;
    AppendTexts(name, st.text, st1.text, r.text, here, later);
    SameBelowTrans(r.active, st1.active, st.active, parent.level + 1, parent.level + 1);
  }

  /** The same for `visitAllDepartments`: the department-only outline, in which
      a department's `last` still counts its employee siblings. */
  lemma {:induction false} DepartmentsWalkDrawsOutline(name: Unit -> string, tc: TreeConfig, u: Unit, ctx: Context,
                                                       ancestors: seq<Context>, st: ReportState)
    requires |ancestors| == ctx.level
    requires Agrees(st.active, ancestors)
    ensures Run(TreeVisitor(name, tc), st, AllDepartments(u, ctx)).text == st.text + Text(name, Outline(tc, false, u, ctx, ancestors))
    ensures SameBelow(Run(TreeVisitor(name, tc), st, AllDepartments(u, ctx)).active, st.active, ctx.level)
    decreases u, 1
  {
    match u
    case Dept(d) =>
      var v := TreeVisitor(name, tc);
      var line := NodeLine(tc, u, ctx, ancestors);
      var head, kids := [OnDepartment(d, ctx)], DepartmentsOfChildren(d.children, ctx, 0);
      assert AllDepartments(u, ctx) == head + kids;
      RunConcat(v, st, head, kids);
      DepartmentDrawsLine(name, tc, d, ctx, ancestors, st);
      var st1 := Run(v, st, head);
      var rest := ChildrenOutline(tc, false, d.children, ctx, ancestors + [ctx], 0);
      TextOfLine(name, line, rest);
      ChildrenDepartmentsWalkDrawsOutline(name, tc, d.children, ctx, ancestors + [ctx], 0, st1);
      ConcatAssoc(st.text, LineText(name, line), Text(name, rest));
      SameBelowTrans(Run(v, st1, kids).active, st1.active, st.active, ctx.level, ctx.level + 1);
    case Emp(e) =>
  }

  lemma {:induction false} ChildrenDepartmentsWalkDrawsOutline(name: Unit -> string, tc: TreeConfig, children: seq<Unit>,
                                                               parent: Context, ancestors: seq<Context>, i: nat, st: ReportState)
    requires |ancestors| == parent.level + 1
    requires Agrees(st.active, ancestors)
    ensures Run(TreeVisitor(name, tc), st, DepartmentsOfChildren(children, parent, i)).text == st.text + Text(name, ChildrenOutline(tc, false, children, parent, ancestors, i))
    ensures SameBelow(Run(TreeVisitor(name, tc), st, DepartmentsOfChildren(children, parent, i)).active, st.active, parent.level + 1)
    decreases children, |children| - i, 1
  {
    if i < |children| {
      ChildDepartmentsWalkDrawsOutline(name, tc, children, parent, ancestors, i, st);
    } else {
      assert DepartmentsOfChildren(children, parent, i) == [];
      assert ChildrenOutline(tc, false, children, parent, ancestors, i) == [];
      assert st.text + Text(name, []) == st.text;
    }
  }

  lemma {:induction false} ChildDepartmentsWalkDrawsOutline(name: Unit -> string, tc: TreeConfig, children: seq<Unit>,
                                                            parent: Context, ancestors: seq<Context>, i: nat, st: ReportState)
    requires i < |children|
    requires |ancestors| == parent.level + 1
    requires Agrees(st.active, ancestors)
    ensures Run(TreeVisitor(name, tc), st, DepartmentsOfChildren(children, parent, i)).text == st.text + Text(name, ChildrenOutline(tc, false, children, parent, ancestors, i))
    ensures SameBelow(Run(TreeVisitor(name, tc), st, DepartmentsOfChildren(children, parent, i)).active, st.active, parent.level + 1)
    decreases children, |children| - i, 0
  {
    var v := TreeVisitor(name, tc);
    var c := ChildContext(parent, i, |children|);
    var first, others := AllDepartments(children[i], c), DepartmentsOfChildren(children, parent, i + 1);
    assert DepartmentsOfChildren(children, parent, i) == first + others;
    RunConcat(v, st, first, others);
    var st1 := Run(v, st, first);
    var r := Run(v, st1, others);
    DepartmentsWalkDrawsOutline(name, tc, children[i], c, ancestors, st);
    AgreesTransfer(st1.active, st.active, ancestors);
    ChildrenDepartmentsWalkDrawsOutline(name, tc, children, parent, ancestors, i + 1, st1);
    var here, later := Outline(tc, false, children[i], c, ancestors), ChildrenOutline(tc, false, children, parent, ancestors, i + 1);
    assert ChildrenOutline(tc, false, children, parent, ancestors, i) == here + later;
    AppendTexts(name, st.text, st1.text, r.text, here, later);
    SameBelowTrans(r.active, st1.active, st.active, parent.level + 1, parent.level + 1);
  }

  /** A fresh visitor's report of `visitAllUnits` from the root is the outline. */
  lemma FreshUnitsReport(oc: OrganisationConfig, tc: TreeConfig, root: Unit)
    ensures Run(TreeVisitor(Labeller(oc), tc), FreshState, AllUnits(root, DefaultContext)).text
         == Text(Labeller(oc), Outline(tc, true, root, DefaultContext, []))
  {
    UnitsWalkDrawsOutline(Labeller(oc), tc, root, DefaultContext, [], FreshState);
  }

  /** Reusing the visitor: the departments report appended after the units report
      is exactly the one a fresh visitor would produce, because level 0 is never
      written and each deeper level is rewritten by its ancestor before it is read. */
  lemma ReusedVisitorAppendsFreshReport(oc: OrganisationConfig, tc: TreeConfig, root: Unit)
    ensures var v := TreeVisitor(Labeller(oc), tc);
            var first := Run(v, FreshState, AllUnits(root, DefaultContext));
            Run(v, first, AllDepartments(root, DefaultContext)).text
            == first.text + Run(v, FreshState, AllDepartments(root, DefaultContext)).text
  {
    var name := Labeller(oc);
    var v := TreeVisitor(name, tc);
    var first := Run(v, FreshState, AllUnits(root, DefaultContext));
    UnitsWalkDrawsOutline(name, tc, root, DefaultContext, [], FreshState);
    AgreesTransfer(first.active, FreshState.active, []);
    var departments := Text(name, Outline(tc, false, root, DefaultContext, []));
    DepartmentsWalkDrawsOutline(name, tc, root, DefaultContext, [], first);
    DepartmentsWalkDrawsOutline(name, tc, root, DefaultContext, [], FreshState);
    assert "" + departments == departments;
  }

  /** The report script: one fresh visitor receives `visitAllUnits` and then
      `visitAllDepartments` from the root, and its report is read after each. */
  method Reports(oc: OrganisationConfig, tc: TreeConfig, root: Unit) returns (units: string, both: string)
    ensures units == Text(Labeller(oc), Outline(tc, true, root, DefaultContext, []))
    ensures both == units + Text(Labeller(oc), Outline(tc, false, root, DefaultContext, []))
  {
    var renderer := new TreeRenderer(tc);
    var visitor := new OrganisationTreeVisitor(oc, renderer);
    assert visitor.State() == FreshState;
    visitor.Consume(AllUnits(root, DefaultContext));
    units := visitor.renderedTree;
    ghost var first := visitor.State();
    visitor.Consume(AllDepartments(root, DefaultContext));
    both := visitor.renderedTree;
    FreshUnitsReport(oc, tc, root);
    UnitsWalkDrawsOutline(Labeller(oc), tc, root, DefaultContext, [], FreshState);
    AgreesTransfer(first.active, FreshState.active, []);
    DepartmentsWalkDrawsOutline(Labeller(oc), tc, root, DefaultContext, [], first);
  }

  /** The last-sibling rule of `visitAllDepartments` counts employees: a
      department followed only by employees is drawn as a middle child, and its
      bar continues below it, in the departments-only report. */
  lemma DepartmentsReportCountsEmployeeSiblings(tc: TreeConfig, root: string, dept: string, sub: string, e: Employee)
    ensures var S := Department(sub, []);
            var D := Department(dept, [Dept(S)]);
            var R := Department(root, [Dept(D), Emp(e)]);
            Outline(tc, false, Dept(R), DefaultContext, [])
            == [ Line("", Dept(R)),
                 Line(Blank + tc.style(tc.middle), Dept(D)),
                 Line(Blank + tc.style(tc.line) + tc.style(tc.end), Dept(S)) ]
  {
    var S := Department(sub, []);
    var D := Department(dept, [Dept(S)]);
    var R := Department(root, [Dept(D), Emp(e)]);
    var c0, c1 := DefaultContext, Context(1, false);
    RootWithEmployeeSibling(tc, R, D, e);
    ChainOutline(tc, D, S, c1, [c0]);
    SecondLevelIndents(tc);
    assert [c0] + [c1] == [c0, c1];
  }

  /** A root whose children are a department and then an employee: the
      departments-only outline draws the department as a middle child. */
  lemma RootWithEmployeeSibling(tc: TreeConfig, R: Department, D: Department, e: Employee)
    requires R.children == [Dept(D), Emp(e)]
    ensures Outline(tc, false, Dept(R), DefaultContext, [])
         == [Line("", Dept(R))] + Outline(tc, false, Dept(D), Context(1, false), [DefaultContext])
  {
    var c0 := DefaultContext;
    assert [] + [c0] == [c0];
    assert ChildContext(c0, 0, 2) == Context(1, false);
    var here := Outline(tc, false, Dept(D), Context(1, false), [c0]);
    var later := ChildrenOutline(tc, false, R.children, c0, [c0], 1);
    assert Outline(tc, false, Emp(e), ChildContext(c0, 1, 2), [c0]) == [];
    assert ChildrenOutline(tc, false, R.children, c0, [c0], 2) == [];
    assert later == [] + [];
    assert ChildrenOutline(tc, false, R.children, c0, [c0], 0) == here + later;
    assert here + later == here;
  }

  /** A department below the root whose only child is a department without
      children: two lines, each with the prefix its ancestors give it. */
  lemma ChainOutline(tc: TreeConfig, D: Department, S: Department, ctx: Context, ancestors: seq<Context>)
    requires D.children == [Dept(S)] && S.children == [] && ctx.level != 0
    ensures Outline(tc, false, Dept(D), ctx, ancestors)
         == [ Line(AncestorIndent(tc, ancestors, ctx), Dept(D)),
              Line(AncestorIndent(tc, ancestors + [ctx], Context(ctx.level + 1, true)), Dept(S)) ]
  {
    var child := Context(ctx.level + 1, true);
    LeafOutline(tc, S, child, ancestors + [ctx]);
    OnlyChildOutline(tc, D, ctx, ancestors);
  }

  /** A department without children below the root has a single line. */
  lemma LeafOutline(tc: TreeConfig, d: Department, ctx: Context, ancestors: seq<Context>)
    requires d.children == [] && ctx.level != 0
    ensures Outline(tc, false, Dept(d), ctx, ancestors) == [Line(AncestorIndent(tc, ancestors, ctx), Dept(d))]
  {
    assert ChildrenOutline(tc, false, d.children, ctx, ancestors + [ctx], 0) == [];
  }

  /** A department below the root with one department child and nothing else. */
  lemma OnlyChildOutline(tc: TreeConfig, d: Department, ctx: Context, ancestors: seq<Context>)
    requires |d.children| == 1 && d.children[0].Dept? && ctx.level != 0
    ensures Outline(tc, false, Dept(d), ctx, ancestors)
         == [Line(AncestorIndent(tc, ancestors, ctx), Dept(d))]
            + Outline(tc, false, d.children[0], Context(ctx.level + 1, true), ancestors + [ctx])
  {
    var rest := ChildrenOutline(tc, false, d.children, ctx, ancestors + [ctx], 0);
    assert ChildrenOutline(tc, false, d.children, ctx, ancestors + [ctx], 1) == [];
    assert rest == Outline(tc, false, d.children[0], Context(ctx.level + 1, true), ancestors + [ctx]) + [];
  }

  lemma SecondLevelIndents(tc: TreeConfig)
    ensures AncestorIndent(tc, [DefaultContext], Context(1, false)) == Blank + tc.style(tc.middle)
    ensures AncestorIndent(tc, [DefaultContext, Context(1, false)], Context(2, true))
         == Blank + tc.style(tc.line) + tc.style(tc.end)
  {
    FirstLevelBars(tc);
    SecondLevelBars(tc);
  }

  lemma FirstLevelBars(tc: TreeConfig)
    ensures Concat(Bars(tc, [DefaultContext])) == Blank
  {
    var b := Bars(tc, [DefaultContext]);
    assert |b| == 1 && b[0] == Blank;
    assert b == [] + [Blank];
    ConcatSnoc([], Blank);
  }

  lemma SecondLevelBars(tc: TreeConfig)
    ensures Concat(Bars(tc, [DefaultContext, Context(1, false)])) == Blank + tc.style(tc.line)
  {
    var b := Bars(tc, [DefaultContext, Context(1, false)]);
    assert |b| == 2 && b[0] == Blank && b[1] == tc.style(tc.line);
    assert b == [Blank] + [tc.style(tc.line)];
    ConcatSnoc([Blank], tc.style(tc.line));
    ConcatSnoc([], Blank);
    assert [] + [Blank] == [Blank];
  }
}
