/**
 * The organisation renderer: a stateless formatter from a department or an
 * employee to its label, configured once with styles, glyphs and a role
 * transformation. It takes no traversal context.
 */
module RenderOrganisation {
  import opened Wrappers
  import opened Model

  datatype OrganisationStyle = OrganisationStyle(
    department: string -> string,
    employee: string -> string,
    role: string -> string,
    task: string -> string)

  /** The per-role glyph table; it has entries for "A", "B" and "C" only. */
  datatype EmployeeGlyphs = EmployeeGlyphs(a: string, b: string, c: string)

  datatype RoleDecorators = RoleDecorators(start: string, end: string)

  datatype OrganisationDecoration = OrganisationDecoration(
    department: string,
    employees: EmployeeGlyphs,
    unknownEmployee: string,
    task: string,
    taskSeparator: string,
    roleDecorators: RoleDecorators)

  datatype OrganisationConfig = OrganisationConfig(
    style: OrganisationStyle,
    decoration: OrganisationDecoration,
    transformation: Role -> string)

  /** Table lookup `employees[role]`: present for "A", "B" and "C" only. */
  function Lookup(glyphs: EmployeeGlyphs, role: Role): (r: Option<string>)
    ensures r.Some? <==> role in {"A", "B", "C"}
    ensures role == "A" ==> r == Some(glyphs.a)
    ensures role == "B" ==> r == Some(glyphs.b)
    ensures role == "C" ==> r == Some(glyphs.c)
  {
    if role == "A" then Some(glyphs.a)
    else if role == "B" then Some(glyphs.b)
    else if role == "C" then Some(glyphs.c)
    else None
  }

  /** `glyphs[role] || fallback`: the table glyph when there is one and it is
      not the empty string (which is falsy), the fallback otherwise. */
  function GlyphOr(glyphs: EmployeeGlyphs, role: Role, fallback: string): (r: string)
    ensures role !in {"A", "B", "C"} ==> r == fallback
    ensures role in {"A", "B", "C"} ==>
              r == (if Lookup(glyphs, role).value != "" then Lookup(glyphs, role).value else fallback)
  {
    match Lookup(glyphs, role)
    case Some(g) => if g != "" then g else fallback
    case None => fallback
  }

  /** The employee glyph of a role, falling back to the unknown-employee glyph. */
  function RoleEmoji(decoration: OrganisationDecoration, role: Role): string
  {
    GlyphOr(decoration.employees, role, decoration.unknownEmployee)
  }

  /** The default role transformation. Each text names exactly one case. */
  function DefaultRoleText(role: Role): (r: string)
    ensures r == "Engineer" <==> role == "A"
    ensures r == "Supervisor" <==> role == "B"
    ensures r == "Manager" <==> role == "C"
    ensures r == "Contractor" <==> role == "X"
    ensures r == "Unknown Role" <==> role !in {"A", "B", "C", "X"}
  {
    if role == "A" then "Engineer"
    else if role == "B" then "Supervisor"
    else if role == "C" then "Manager"
    else if role == "X" then "Contractor"
    else "Unknown Role"
  }

  // ---------------------------------------------------------------------------
  // Decimal rendering of a count (a number concatenated to a string)
  // ---------------------------------------------------------------------------

  predicate IsDigit(ch: char)
  {
    '0' <= ch <= '9'
  }

  function DigitChar(d: nat): (ch: char)
    requires d < 10
    ensures IsDigit(ch) && ch as int - '0' as int == d
  {
    (d + '0' as int) as char
  }

  /** The decimal numeral of `n`: digits only, and no leading zero unless `n` is zero. */
  function Decimal(n: nat): (r: string)
    ensures r != []
    ensures forall i :: 0 <= i < |r| ==> IsDigit(r[i])
    ensures r[0] == '0' ==> n == 0
  {
    if n < 10 then [DigitChar(n)] else Decimal(n / 10) + [DigitChar(n % 10)]
  }

  /** The value of a string of decimal digits. */
  function DecimalValue(s: string): nat
    requires forall i :: 0 <= i < |s| ==> IsDigit(s[i])
  {
    if s == [] then 0
    else
      assert IsDigit(s[|s| - 1]);
      10 * DecimalValue(s[..|s| - 1]) + (s[|s| - 1] as int - '0' as int)
  }

  /** Reading the numeral back gives the number. */
  lemma {:induction false} DecimalRoundTrip(n: nat)
    ensures DecimalValue(Decimal(n)) == n
  {
    if n >= 10 {
      DecimalRoundTrip(n / 10);
      var s := Decimal(n);
      assert s[..|s| - 1] == Decimal(n / 10);
    }
  }

  /** Distinct counts render differently. */
  lemma DecimalInjective(m: nat, n: nat)
    requires Decimal(m) == Decimal(n)
    ensures m == n
  {
    DecimalRoundTrip(m);
    DecimalRoundTrip(n);
  }

  // ---------------------------------------------------------------------------
  // The two labels
  // ---------------------------------------------------------------------------

  /** `renderDepartment`: the styled department glyph and name. */
  function RenderDepartment(config: OrganisationConfig, d: Department): string
  {
    config.style.department(config.decoration.department + " " + d.name)
  }

  /** The decorated role text, styled. */
  function RoleLabel(config: OrganisationConfig, role: Role): string
  {
    config.style.role(config.decoration.roleDecorators.start + config.transformation(role)
                      + config.decoration.roleDecorators.end)
  }

  /** `renderEmployee`: glyph and name, role label, separator, task count. */
  function RenderEmployee(config: OrganisationConfig, e: Employee): string
  {
    config.style.employee(RoleEmoji(config.decoration, e.role) + " " + e.name)
    + " " + RoleLabel(config, e.role)
    + " " + config.decoration.taskSeparator
    + " " + config.style.task(Decimal(|e.tasks|) + config.decoration.task)
  }

  /** The number shown is the number of tasks: two employees that differ only in
      their tasks' ids and durations render alike, and a different count renders
      differently. */
  lemma EmployeeLabelShowsTaskCount(config: OrganisationConfig, e1: Employee, e2: Employee)
    requires e1.name == e2.name && e1.role == e2.role
    ensures |e1.tasks| == |e2.tasks| ==> RenderEmployee(config, e1) == RenderEmployee(config, e2)
    ensures (forall s :: config.style.task(s) == s) && |e1.tasks| != |e2.tasks|
            ==> RenderEmployee(config, e1) != RenderEmployee(config, e2)
  {
    if (forall s :: config.style.task(s) == s) && |e1.tasks| != |e2.tasks| {
      var head := config.style.employee(RoleEmoji(config.decoration, e1.role) + " " + e1.name)
                  + " " + RoleLabel(config, e1.role) + " " + config.decoration.taskSeparator + " ";
      var n1, n2 := Decimal(|e1.tasks|), Decimal(|e2.tasks|);
      var g := config.decoration.task;
      assert RenderEmployee(config, e1) == head + (n1 + g);
      assert RenderEmployee(config, e2) == head + (n2 + g);
      if RenderEmployee(config, e1) == RenderEmployee(config, e2) {
        assert n1 + g == (head + (n1 + g))[|head|..];
        assert n1 + g == n2 + g;
        assert |n1| == |n2|;
        assert n1 == (n1 + g)[..|n1|] == (n2 + g)[..|n2|] == n2;
        DecimalInjective(|e1.tasks|, |e2.tasks|);
      }
    }
  }

  /** The configuration `createOrganisationRenderer` uses when given none, with
      the colour functions of the terminal library as parameters. */
  function DefaultConfig(boldGray: string -> string, bold: string -> string, yellow: string -> string,
                         greenBright: string -> string, dim: string -> string): OrganisationConfig
  {
    OrganisationConfig(
      OrganisationStyle(boldGray, bold, yellow, greenBright),
      OrganisationDecoration(
        "🏢",
        EmployeeGlyphs("👩‍💻", "👩‍⚕️", "👩‍💼"),
        "👤",
        "🛠️",
        dim("|"),
        RoleDecorators("≺🎖️", "≻")),
      DefaultRoleText)
  }

  /** The documented department example, with every style the identity. */
  lemma DepartmentExample(id: string -> string)
    requires forall s :: id(s) == s
    ensures RenderDepartment(DefaultConfig(id, id, id, id, id), Department("Engineering", [])) == "🏢 Engineering"
  {
  }

  /** The default glyph of role "C". */
  lemma DefaultManagerGlyph(d: OrganisationDecoration)
    requires d.employees == EmployeeGlyphs("👩‍💻", "👩‍⚕️", "👩‍💼")
    ensures RoleEmoji(d, "C") == "👩‍💼"
  {
  }

  /** The pieces of the employee example put together. */
  lemma EmployeeExampleText()
    ensures "👩‍💼" + " " + "Alice" + " " + ("≺🎖️" + "Manager" + "≻") + " " + "|" + " " + ("2" + "🛠️")
         == "👩‍💼 Alice ≺🎖️Manager≻ | 2🛠️"
  {
  }

  /** The documented employee example, with every style the identity. */
  lemma EmployeeExample(id: string -> string, t1: Task, t2: Task)
    requires forall s :: id(s) == s
    ensures RenderEmployee(DefaultConfig(id, id, id, id, id), Employee("Alice", "C", [t1, t2]))
         == "👩‍💼 Alice ≺🎖️Manager≻ | 2🛠️"
  {
    var config := DefaultConfig(id, id, id, id, id);
    DefaultManagerGlyph(config.decoration);
    assert RoleLabel(config, "C") == "≺🎖️" + "Manager" + "≻";
    assert Decimal(2) == "2";
    assert config.style.task(Decimal(2) + config.decoration.task) == "2" + "🛠️";
    assert config.style.employee(RoleEmoji(config.decoration, "C") + " " + "Alice") == "👩‍💼" + " " + "Alice";
    EmployeeExampleText();
  }
}
