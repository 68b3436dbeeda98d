/**
 * The original single-function implementation, `processUnits`: one recursive
 * function that sums the task durations of a subtree and, when asked, prints
 * one line per department and employee. The indent of a child is the parent's
 * indent plus one segment, chosen by whether the parent was a last child.
 */
module Problem {
  import opened Model
  import opened Traversal
  import opened RenderTree
  import opened RenderOrganisation
  import opened OrganisationTree

  /** The constants `processUnits` fixes, with the colour functions as parameters.
      `tree` holds the tree colour and the three branch glyphs. */
  datatype LegacyConfig = LegacyConfig(
    tree: TreeConfig,
    department: string -> string,
    employee: string -> string,
    role: string -> string,
    task: string -> string,
    departmentEmoji: string,
    employeeEmojis: EmployeeGlyphs,
    fallbackEmoji: string,
    roleDecorators: RoleDecorators,
    tasksEmoji: string)

  /** The constants `processUnits` fixes, with their glyphs as intended, and the
      terminal library's colours as parameters. */
  function DefaultLegacyConfig(boldGray: string -> string, bold: string -> string, yellow: string -> string,
                               greenBright: string -> string, dim: string -> string): LegacyConfig
  {
    LegacyConfig(
      TreeConfig(dim, "└── ", "├── ", "│   ", Blank),
      boldGray, bold, yellow, greenBright,
      "🏢",
      EmployeeGlyphs("👩‍💻", "👩‍⚕️", "👩‍💼"),
      " 👤",
      RoleDecorators("≺🎖️", "≻"),
      "🛠️")
  }

  /** The original and the refactored defaults side by side: the tree glyphs and
      colour are `createTreeRenderer`'s, and the department glyph, employee glyph
      table, role brackets, task glyph and separator are the organisation
      renderer's. They differ in the unknown-employee glyph (the original puts
      a space before it) and in the role text of codes other than "A", "B",
      "C" and "X" ("Contractor" against "Unknown Role"). */
  lemma LegacyDefaultsMatchRenderers(boldGray: string -> string, bold: string -> string, yellow: string -> string,
                                     greenBright: string -> string, dim: string -> string)
    ensures var lc := DefaultLegacyConfig(boldGray, bold, yellow, greenBright, dim);
            var oc := DefaultConfig(boldGray, bold, yellow, greenBright, dim);
            && lc.tree == DefaultTreeConfig(dim)
            && lc.departmentEmoji == oc.decoration.department
            && lc.employeeEmojis == oc.decoration.employees
            && lc.roleDecorators == oc.decoration.roleDecorators
            && lc.tasksEmoji == oc.decoration.task
            && lc.tree.style("|") == oc.decoration.taskSeparator
            && lc.fallbackEmoji == " " + oc.decoration.unknownEmployee
            && (forall role :: role in {"A", "B", "C"} ==> LegacyRoleText(role) == oc.transformation(role))
            && LegacyRoleText("X") == oc.transformation("X")
            && LegacyRoleText("Z") != oc.transformation("Z")
  {
  }

  /** The inline role text: every role other than "A", "B" and "C" reads "Contractor". */
  function LegacyRoleText(role: Role): (r: string)
    ensures r == "Engineer" <==> role == "A"
    ensures r == "Supervisor" <==> role == "B"
    ensures r == "Manager" <==> role == "C"
    ensures r == "Contractor" <==> role !in {"A", "B", "C"}
  {
    if role == "A" then "Engineer"
    else if role == "B" then "Supervisor"
    else if role == "C" then "Manager"
    else "Contractor"
  }

  /** The line prefix: none when the indent is empty, the indent and the branch
      marker otherwise. */
  function LegacyPrefix(lc: LegacyConfig, indent: string, isLast: bool): string
  {
    if indent == "" then "" else indent + lc.tree.style(if isLast then lc.tree.end else lc.tree.middle)
  }

  /** The indent handed to every child of a department. */
  function ChildIndent(lc: LegacyConfig, indent: string, isLast: bool): string
  {
    indent + (if isLast then Blank else lc.tree.style(lc.tree.line))
  }

  function LegacyDepartmentLabel(lc: LegacyConfig, d: Department): string
  {
    lc.department(lc.departmentEmoji + " " + d.name)
  }

  function LegacyEmployeeLabel(lc: LegacyConfig, e: Employee): string
  {
    lc.employee(GlyphOr(lc.employeeEmojis, e.role, lc.fallbackEmoji) + " " + e.name)
    + " " + lc.role(lc.roleDecorators.start + LegacyRoleText(e.role) + lc.roleDecorators.end)
    + " " + lc.tree.style("|")
    + " " + lc.task(Decimal(|e.tasks|) + lc.tasksEmoji)
  }

  function LegacyLabel(lc: LegacyConfig, u: Unit): string
  {
    match u
    case Dept(d) => LegacyDepartmentLabel(lc, d)
    case Emp(e) => LegacyEmployeeLabel(lc, e)
  }

  /** The labeller of the printed lines. */
  function LegacyLabeller(lc: LegacyConfig): Unit -> string
  {
    u => LegacyLabel(lc, u)
  }

  /** The lines `processUnits` prints for a subtree, in order. */
  function LegacyLines(lc: LegacyConfig, u: Unit, printReport: bool, indent: string, isLast: bool): seq<string>
    decreases u, 1
  {
    var own := if printReport then [LegacyPrefix(lc, indent, isLast) + LegacyLabel(lc, u)] else [];
    match u
    case Dept(d) => own + LegacyChildLines(lc, d.children, printReport, ChildIndent(lc, indent, isLast), 0)
    case Emp(_) => own
  }

  function LegacyChildLines(lc: LegacyConfig, children: seq<Unit>, printReport: bool, indent: string, i: nat): seq<string>
    decreases children, |children| - i
  {
    if i >= |children| then []
    else LegacyLines(lc, children[i], printReport, indent, i == |children| - 1)
         + LegacyChildLines(lc, children, printReport, indent, i + 1)
  }

  /** `processUnits`: the total duration of the subtree, and the lines it prints
      (the console is modelled by returning them). */
  method ProcessUnits(lc: LegacyConfig, unit: Unit, printReport: bool, indent: string, isLast: bool)
    returns (totalDuration: int, printed: seq<string>)
    ensures totalDuration == TotalDuration(unit)
    ensures printed == LegacyLines(lc, unit, printReport, indent, isLast)
    decreases unit
  {
    totalDuration := 0;
    printed := [];
    var prefix := indent;
    if indent != "" {
      prefix := prefix + lc.tree.style(if isLast then lc.tree.end else lc.tree.middle);
    }
    match unit
    case Dept(d) =>
      if printReport {
        printed := printed + [prefix + LegacyDepartmentLabel(lc, d)];
      }
      var newIndent := indent + (if isLast then Blank else lc.tree.style(lc.tree.line));
      assert newIndent == ChildIndent(lc, indent, isLast);
      assert prefix == LegacyPrefix(lc, indent, isLast);
      assert LegacyLabel(lc, unit) == LegacyDepartmentLabel(lc, d);
      assert printed == if printReport then [LegacyPrefix(lc, indent, isLast) + LegacyLabel(lc, unit)] else [];
      var index := 0;
      while index < |d.children|
        invariant 0 <= index <= |d.children|
        invariant totalDuration + ChildrenDuration(d.children, index) == ChildrenDuration(d.children, 0)
        invariant printed + LegacyChildLines(lc, d.children, printReport, newIndent, index)
               == LegacyLines(lc, unit, printReport, indent, isLast)
      {
        var childIsLast := index == |d.children| - 1;
        assert LegacyChildLines(lc, d.children, printReport, newIndent, index)
            == LegacyLines(lc, d.children[index], printReport, newIndent, childIsLast)
               + LegacyChildLines(lc, d.children, printReport, newIndent, index + 1);
        assert ChildrenDuration(d.children, index)
            == TotalDuration(d.children[index]) + ChildrenDuration(d.children, index + 1);
        var childDuration, childLines := ProcessUnits(lc, d.children[index], printReport, newIndent, childIsLast);
        totalDuration := totalDuration + childDuration;
        ghost var rest := LegacyChildLines(lc, d.children, printReport, newIndent, index + 1);
        SeqAssoc(printed, childLines, rest);
        printed := printed + childLines;
        index := index + 1;
      }
    case Emp(e) =>
      var employeeDuration := TaskSum(e.tasks);
      totalDuration := totalDuration + employeeDuration;
      if printReport {
        printed := printed + [prefix + LegacyEmployeeLabel(lc, e)];
      }
  }

  lemma SeqAssoc(a: seq<string>, b: seq<string>, c: seq<string>)
    ensures (a + b) + c == a + (b + c)
  {
  }

  /** Without `printReport` nothing is printed, and the total is the same. */
  lemma {:induction false} QuietRunPrintsNothing(lc: LegacyConfig, u: Unit, indent: string, isLast: bool)
    ensures LegacyLines(lc, u, false, indent, isLast) == []
    decreases u, 1
  {
    match u
    case Dept(d) => QuietChildrenPrintNothing(lc, d.children, ChildIndent(lc, indent, isLast), 0);
    case Emp(_) =>
  }

  lemma {:induction false} QuietChildrenPrintNothing(lc: LegacyConfig, children: seq<Unit>, indent: string, i: nat)
    ensures LegacyChildLines(lc, children, false, indent, i) == []
    decreases children, |children| - i
  {
    if i < |children| {
      QuietRunPrintsNothing(lc, children[i], indent, i == |children| - 1);
      QuietChildrenPrintNothing(lc, children, indent, i + 1);
    }
  }

  /** The printed lines joined as the console shows them, one per row. */
  function PrintedText(lines: seq<string>): string
  {
    if lines == [] then "" else PrintedText(lines[..|lines| - 1]) + lines[|lines| - 1] + "\n"
  }

  lemma {:induction false} PrintedTextConcat(a: seq<string>, b: seq<string>)
    ensures PrintedText(a + b) == PrintedText(a) + PrintedText(b)
    decreases |b|
  {
    if b == [] {
      assert a + b == a;
    } else {
      var b' := b[..|b| - 1];
      assert (a + b)[..|a + b| - 1] == a + b';
      PrintedTextConcat(a, b');
      ConcatAssoc(PrintedText(a), PrintedText(b'), b[|b| - 1]);
      ConcatAssoc(PrintedText(a), PrintedText(b') + b[|b| - 1], "\n");
    }
  }

  /** Appending a context to the ancestors appends one segment to the indent. */
  lemma BarsSnoc(tc: TreeConfig, ancestors: seq<Context>, ctx: Context)
    requires |ancestors| == ctx.level
    ensures Concat(Bars(tc, ancestors + [ctx]))
         == Concat(Bars(tc, ancestors)) + (if ctx.level >= 1 && !ctx.last then tc.style(tc.line) else Blank)
  {
    assert (ancestors + [ctx])[..|ancestors|] == ancestors;
    ConcatSnoc(Bars(tc, ancestors), if ctx.level >= 1 && !ctx.last then tc.style(tc.line) else Blank);
  }

  /** Below the root the indent is never empty: it starts with the blank segment. */
  lemma IndentIsNonEmpty(tc: TreeConfig, ancestors: seq<Context>)
    requires ancestors != []
    ensures Concat(Bars(tc, ancestors)) != ""
  {
    ConcatStartsWithFirst(Bars(tc, ancestors));
  }

  /** One printed line of a node below the root is its outline line. */
  lemma LegacyLineIsOutlineLine(lc: LegacyConfig, u: Unit, ctx: Context, ancestors: seq<Context>)
    requires |ancestors| == ctx.level >= 1
    ensures PrintedText([LegacyPrefix(lc, Concat(Bars(lc.tree, ancestors)), ctx.last) + LegacyLabel(lc, u)])
         == LineText(LegacyLabeller(lc), NodeLine(lc.tree, u, ctx, ancestors))
  {
    IndentIsNonEmpty(lc.tree, ancestors);
    assert LegacyLabeller(lc)(u) == LegacyLabel(lc, u);
    var line := LegacyPrefix(lc, Concat(Bars(lc.tree, ancestors)), ctx.last) + LegacyLabel(lc, u);
    assert [line][..0] == [];
    assert PrintedText([line]) == "" + line + "\n";
    assert "" + line == line;
  }

  /** Below the root, `processUnits` prints exactly the outline: its indent is
      the concatenated ancestor segments, and its `isLast` is the node's `last`. */
  lemma {:induction false} LegacyMatchesOutline(lc: LegacyConfig, u: Unit, ctx: Context, ancestors: seq<Context>)
    requires |ancestors| == ctx.level >= 1
    ensures PrintedText(LegacyLines(lc, u, true, Concat(Bars(lc.tree, ancestors)), ctx.last))
         == Text(LegacyLabeller(lc), Outline(lc.tree, true, u, ctx, ancestors))
    decreases u, 1
  {
    var indent := Concat(Bars(lc.tree, ancestors));
    var own := [LegacyPrefix(lc, indent, ctx.last) + LegacyLabel(lc, u)];
    var line := NodeLine(lc.tree, u, ctx, ancestors);
    LegacyLineIsOutlineLine(lc, u, ctx, ancestors);
    match u
    case Dept(d) =>
      var kids := LegacyChildLines(lc, d.children, true, ChildIndent(lc, indent, ctx.last), 0);
      assert LegacyLines(lc, u, true, indent, ctx.last) == own + kids;
      BarsSnoc(lc.tree, ancestors, ctx);
      LegacyChildrenMatchOutline(lc, d.children, ctx, ancestors + [ctx], 0);
      PrintedTextConcat(own, kids);
      TextOfLine(LegacyLabeller(lc), line, ChildrenOutline(lc.tree, true, d.children, ctx, ancestors + [ctx], 0));
    case Emp(e) =>
      assert LegacyLines(lc, u, true, indent, ctx.last) == own;
      TextOfLine(LegacyLabeller(lc), line, []);
      assert [line] + [] == [line];
      assert LineText(LegacyLabeller(lc), line) + "" == LineText(LegacyLabeller(lc), line);
  }

  lemma {:induction false} LegacyChildrenMatchOutline(lc: LegacyConfig, children: seq<Unit>, parent: Context,
                                                      ancestors: seq<Context>, i: nat)
    requires |ancestors| == parent.level + 1
    ensures PrintedText(LegacyChildLines(lc, children, true, Concat(Bars(lc.tree, ancestors)), i))
         == Text(LegacyLabeller(lc), ChildrenOutline(lc.tree, true, children, parent, ancestors, i))
    decreases children, |children| - i, 1
  {
    if i < |children| {
      LegacyChildMatchesOutline(lc, children, parent, ancestors, i);
    } else {
      assert LegacyChildLines(lc, children, true, Concat(Bars(lc.tree, ancestors)), i) == [];
      assert ChildrenOutline(lc.tree, true, children, parent, ancestors, i) == [];
    }
  }

  lemma {:induction false} LegacyChildMatchesOutline(lc: LegacyConfig, children: seq<Unit>, parent: Context,
                                                     ancestors: seq<Context>, i: nat)
    requires i < |children|
    requires |ancestors| == parent.level + 1
    ensures PrintedText(LegacyChildLines(lc, children, true, Concat(Bars(lc.tree, ancestors)), i))
         == Text(LegacyLabeller(lc), ChildrenOutline(lc.tree, true, children, parent, ancestors, i))
    decreases children, |children| - i, 0
  {
    var indent := Concat(Bars(lc.tree, ancestors));
    var name := LegacyLabeller(lc);
    var c := ChildContext(parent, i, |children|);
    assert c.level == |ancestors| && c.last == (i == |children| - 1);
    var first, others := LegacyLines(lc, children[i], true, indent, c.last), LegacyChildLines(lc, children, true, indent, i + 1);
    assert LegacyChildLines(lc, children, true, indent, i) == first + others;
    var here, later := Outline(lc.tree, true, children[i], c, ancestors), ChildrenOutline(lc.tree, true, children, parent, ancestors, i + 1);
    assert ChildrenOutline(lc.tree, true, children, parent, ancestors, i) == here + later;
    LegacyMatchesOutline(lc, children[i], c, ancestors);
    assert PrintedText(first) == Text(name, here);
    LegacyChildrenMatchOutline(lc, children, parent, ancestors, i + 1);
    assert PrintedText(others) == Text(name, later);
    PrintedTextConcat(first, others);
    TextConcat(name, here, later);
  }

  /** Called on a root department with the defaults (empty indent, `isLast`
      true), `processUnits` prints the root's label unindented and then the same
      outline the visitor-based report draws, with its own labels. */
  lemma LegacyRootReport(lc: LegacyConfig, d: Department)
    ensures PrintedText(LegacyLines(lc, Dept(d), true, "", true))
         == Text(LegacyLabeller(lc), Outline(lc.tree, true, Dept(d), DefaultContext, []))
  {
    var u := Dept(d);
    var own := [LegacyPrefix(lc, "", true) + LegacyLabel(lc, u)];
    var line := NodeLine(lc.tree, u, DefaultContext, []);
    assert ChildIndent(lc, "", true) == Blank;
    FirstLevelBars(lc.tree);
    var kids := LegacyChildLines(lc, d.children, true, Blank, 0);
    assert LegacyLines(lc, u, true, "", true) == own + kids;
    assert [] + [DefaultContext] == [DefaultContext];
    LegacyChildrenMatchOutline(lc, d.children, DefaultContext, [DefaultContext], 0);
    PrintedTextConcat(own, kids);
    assert own[..0] == [];
    assert PrintedText(own) == "" + LegacyLabel(lc, u) + "\n";
    assert line.prefix == "";
    assert LegacyLabeller(lc)(u) == LegacyLabel(lc, u);
    TextOfLine(LegacyLabeller(lc), line, ChildrenOutline(lc.tree, true, d.children, DefaultContext, [DefaultContext], 0));
  }

  /** With the default `indent` and `isLast`, one place the two implementations
      draw differently: an employee given as the root is printed without prefix
      here, while the visitor gives every employee a branch marker. */
  lemma RootEmployeeDiffers(lc: LegacyConfig, e: Employee)
    ensures LegacyLines(lc, Emp(e), true, "", true) == [LegacyEmployeeLabel(lc, e)]
    ensures Outline(lc.tree, true, Emp(e), DefaultContext, [])
         == [Line(lc.tree.style(lc.tree.middle), Emp(e))]
  {
    assert "" + LegacyEmployeeLabel(lc, e) == LegacyEmployeeLabel(lc, e);
    assert Bars(lc.tree, []) == [];
    assert "" + lc.tree.style(lc.tree.middle) == lc.tree.style(lc.tree.middle);
  }

  /** The other place: a root called with `isLast` false hands its children the
      styled line glyph as indent (an empty indent still adds nothing to the
      root's own line), so a child prints that glyph and then its marker. The
      visitor always draws depth 0 as four spaces, so the two differ whenever the
      styled line glyph is not four spaces. */
  lemma RootNotLastDiffers(lc: LegacyConfig, name: string, e: Employee)
    ensures LegacyLines(lc, Dept(Department(name, [Emp(e)])), true, "", false)
         == [LegacyDepartmentLabel(lc, Department(name, [Emp(e)])),
             LegacyPrefix(lc, lc.tree.style(lc.tree.line), true) + LegacyEmployeeLabel(lc, e)]
    ensures Outline(lc.tree, true, Dept(Department(name, [Emp(e)])), DefaultContext, [])
         == [Line("", Dept(Department(name, [Emp(e)]))), Line(Blank + lc.tree.style(lc.tree.end), Emp(e))]
  {
    var d := Department(name, [Emp(e)]);
    var indent := ChildIndent(lc, "", false);
    assert indent == lc.tree.style(lc.tree.line);
    var child := [LegacyPrefix(lc, indent, true) + LegacyEmployeeLabel(lc, e)];
    assert LegacyChildLines(lc, d.children, true, indent, 1) == [];
    assert LegacyChildLines(lc, d.children, true, indent, 0) == child + [];
    assert "" + LegacyDepartmentLabel(lc, d) == LegacyDepartmentLabel(lc, d);
    var c := ChildContext(DefaultContext, 0, 1);
    assert c == Context(1, true);
    FirstLevelBars(lc.tree);
    assert [] + [DefaultContext] == [DefaultContext];
    assert ChildrenOutline(lc.tree, true, d.children, DefaultContext, [DefaultContext], 1) == [];
    assert ChildrenOutline(lc.tree, true, d.children, DefaultContext, [DefaultContext], 0)
        == [Line(Blank + lc.tree.style(lc.tree.end), Emp(e))] + [];
  }

  /** The documented use: the total alone, then the report; both compute the same total. */
  method ReportAndTotal(lc: LegacyConfig, root: Unit) returns (printed: seq<string>, quietTotal: int, printingTotal: int)
    ensures printingTotal == quietTotal == TotalDuration(root)
    ensures printed == LegacyLines(lc, root, true, "", true)
  {
    printingTotal, printed := ProcessUnits(lc, root, true, "", true);
    var nothing;
    quietTotal, nothing := ProcessUnits(lc, root, false, "", true);
  }
}
