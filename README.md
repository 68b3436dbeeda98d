# Organisation report: visitor-based traversal and the single-function original

This project models a small TypeScript program. The program prints the
structure of an organisation as an indented tree and sums the durations of
all tasks in it. An organisation is a tree of units. A unit is either a
department, with an ordered list of child units, or an employee, with a role
code and an ordered list of tasks.

The program exists in two versions, and both are modelled:

- **The original `processUnits`** is one recursive function. It walks the
  tree, adds up the durations, and prints the tree when `printReport` is set.
- **The refactored version** splits that work apart:
  - four traversal functions walk the tree, and each calls the optional
    callbacks of a visitor;
  - a tree-indent renderer keeps the set of levels whose branch is still
    open, and turns a traversal context into the prefix of a line;
  - an organisation renderer turns a department or an employee into its label;
  - two visitors use the traversals and renderers: one builds the report
    text, one sums the task durations.

How the model is built:

- **Walks:** each traversal function is modelled by the sequence of callback
  events it produces, in order.
- **Visitors:** a visitor is a value with three optional callbacks.
  `Visitors.Run` feeds it a sequence of events.
- **Classes:** the two visitor classes and the tree renderer stay classes with
  mutable fields. Each visitor has a `Consume` method that takes the events of
  a walk one at a time. It is proved to leave the same state that `Run` of the
  matching visitor value computes.
- **`processUnits`:** it stays a recursive method with a loop over the
  children. It is proved to return the reference total and exactly the lines
  that a reference function describes.

Proved about the model:

- **The filters:** the departments, employees and tasks walks deliver exactly
  the department, employee and task events of the full walk, in the same order
  and with the same contexts.
- **The task total:** the task-summing visitor yields the total duration of
  the tree, whichever of the two walks drives it.
- **The report text:** the report that the tree visitor builds is an
  independently defined outline. In that outline, a bar is drawn at depth
  `i >= 1` exactly when the ancestor at depth `i` is not a last child; depth 0
  is always blank. The rendered tree only ever grows.
- **Reusing one visitor:** running the departments walk with the same visitor
  after the full walk appends a fresh departments-only report.
- **Departments-only report and employee siblings:** that report decides
  "last child" over all children, employees included. An example lemma shows
  the effect.
- **The original against the refactored version:** `processUnits` prints the
  same outline, with its own labels, for every subtree below the root. Called
  on a root department with the default `indent` and `isLast`, it prints the
  same outline as well. Two example lemmas show where the versions differ: a
  root employee, and a root called with `isLast` false (its children's indent
  starts with the line glyph, where the visitor draws four spaces).

Terminal colours enter as string functions. Console output is modelled as the
returned lines or the built string. The demo data set is not modelled.

## Model

| member | source | states |
|---|---|---|
| Traversal.ChildContext | docs/src/solution/traversal.ts:5-15 | `updatedContext`: the context of child `index` of `total`; its properties are stated by `TaskEventsShape` and `DepartmentWalk` |
| Traversal.AllUnits | docs/src/solution/traversal.ts:17-42 | `visitAllUnits` as the events it makes, in call order; its shape is stated by `DepartmentWalk`, `EmployeeWalk` and `WalkCounts` |
| Traversal.UnitsOfChildren | docs/src/solution/traversal.ts:25-31 | the `forEach` over a department's children, from index `i`; stated by `ChildrenWalkShape` |
| Traversal.TaskEvents | docs/src/solution/traversal.ts:35-40 | the `forEach` over an employee's tasks, from index `i`; stated by `TaskEventsShape` |
| Traversal.AllDepartments | docs/src/solution/traversal.ts:44-60 | `visitAllDepartments` as its events; stated by `DepartmentsAreFilteredUnits` |
| Traversal.AllEmployees | docs/src/solution/traversal.ts:62-78 | `visitAllEmployees` as its events; stated by `EmployeesAreFilteredUnits` |
| Traversal.AllTasks | docs/src/solution/traversal.ts:80-101 | `visitAllTasks` as its events; stated by `TasksAreFilteredUnits` |
| Traversal.Only | docs/src/solution/traversal.ts:44-101 | the events of a stream whose kind is selected, in their original order; never more than the stream has |
| Traversal.DepartmentsAreFilteredUnits | docs/src/solution/traversal.ts:44-60 | `visitAllDepartments` delivers exactly the department events of `visitAllUnits`, with the same contexts and in the same order |
| Traversal.ChildrenDepartmentsAreFiltered | docs/src/solution/traversal.ts:52-58 | the same for the remaining children of a department |
| Traversal.EmployeesAreFilteredUnits | docs/src/solution/traversal.ts:62-78 | `visitAllEmployees` delivers exactly the employee events of `visitAllUnits` |
| Traversal.ChildrenEmployeesAreFiltered | docs/src/solution/traversal.ts:67-74 | the same for the remaining children |
| Traversal.TasksAreFilteredUnits | docs/src/solution/traversal.ts:80-101 | `visitAllTasks` delivers exactly the task events of `visitAllUnits` |
| Traversal.ChildrenTasksAreFiltered | docs/src/solution/traversal.ts:85-92 | the same for the remaining children |
| Traversal.OnlyConcat | docs/src/solution/traversal.ts:25-31 | filtering distributes over the concatenation of sibling streams |
| Traversal.OnlySingleton | docs/src/solution/traversal.ts:23 | a single event passes the filter exactly when its kind is selected |
| Traversal.OnlyTaskEvents | docs/src/solution/traversal.ts:35-40 | an employee's task events pass a filter wholesale or not at all |
| Traversal.WalkCounts | docs/src/solution/traversal.ts:17-101 | each walk makes one event per department, employee or task of the subtree, as its kind says |
| Traversal.ChildrenWalkCounts | docs/src/solution/traversal.ts:25-31 | the same counts for the remaining children |
| Traversal.TaskEventsShape | docs/src/solution/traversal.ts:5-15 | task `k` of an employee gets level one deeper than the employee, and is last exactly when it is the final task |
| Traversal.EmployeeWalk | docs/src/solution/traversal.ts:32-40 | an employee's walk is its own event, then one event per task in order, with those contexts |
| Traversal.ChildrenWalkShape | docs/src/solution/traversal.ts:25-31 | the children's events are the concatenation of the child streams, in child order |
| Traversal.DepartmentWalk | docs/src/solution/traversal.ts:22-31 | a department's walk is its own event, then, in array order, the walk of each child `k` with level one deeper and last exactly when `k` is the final index: pre-order |
| Traversal.DiagramContexts | docs/src/solution/traversal.type.ts:10-15 | the documented five-node tree gets exactly the levels and last flags of the diagram |
| Visitors.Dispatch | docs/src/solution/traversal.ts:23 | one optional callback call `visitor?.visitX?.(…)`; stated by `DispatchUnhandled` |
| Visitors.Run | docs/src/solution/visitor.ts:4-8 | a visitor's state after a stream of calls; stated by `RunConcat`, `RunSnoc` and `UnhandledEventsAreIgnored` |
| Visitors.Visitor.Without | docs/src/solution/visitor.ts:4-8 | removing one callback leaves that kind unhandled and the other two callbacks exactly as they were |
| Visitors.RunConcat | docs/src/solution/visitor.ts:4-8 | a visitor fed two streams in turn ends as if fed their concatenation |
| Visitors.RunSnoc | docs/src/solution/visitor.ts:4-8 | feeding one more event applies exactly that event's callback |
| Visitors.DispatchUnhandled | docs/src/solution/traversal.ts:23 | an event whose callback is absent leaves the visitor's state unchanged (the optional call) |
| Visitors.UnhandledEventsAreIgnored | docs/src/solution/traversal.ts:23-39 | a visitor whose callbacks are among some kinds reaches the same state on a stream and on that stream filtered to those kinds |
| Visitors.AbsentCallbackIsNoOp | docs/src/solution/visitor.ts:4-8 | dropping one callback is the same as dropping that kind's events from every stream |
| RenderTree.DefaultTreeConfig | docs/src/solution/render-tree.ts:19-28 | the configuration `createTreeRenderer` uses when given none; the `OrganisationTreeVisitor` constructor's default tree renderer uses it |
| RenderTree.Indent | docs/src/solution/render-tree.ts:82-91 | `renderTreeIndent` on a given active set; stated by `Segments`, `IndentReadsOnlyLowerLevels` and `OrganisationTree.IndentMatchesAncestors` |
| RenderTree.TreeRenderer.RenderTreeIndent | docs/src/solution/render-tree.ts:82-91 | the renderer's indent for its current active set; stated by `OrganisationTree.IndentMatchesAncestors` |
| RenderTree.Segments | docs/src/solution/render-tree.ts:83-87 | the indent has one segment per level below the node: the styled line glyph when that level is active, four spaces otherwise |
| RenderTree.UpdatedLevels | docs/src/solution/render-tree.ts:137-143 | after an update, the node's level is active exactly when the node is not last; every other level keeps its membership |
| RenderTree.IndentReadsOnlyLowerLevels | docs/src/solution/render-tree.ts:82-91 | the indent depends only on the levels above the node |
| RenderTree.UpdateIsIdempotent | docs/src/solution/render-tree.ts:137-143 | updating twice with the same context is updating once |
| RenderTree.ConcatStartsWithFirst | docs/src/solution/render-tree.ts:87 | a joined indent starts with its first segment |
| RenderTree.TreeRenderer.constructor | docs/src/solution/render-tree.ts:19-30 | a fresh renderer has its configuration and no active level |
| RenderTree.TreeRenderer.UpdateActiveBranchLevels | docs/src/solution/render-tree.ts:137-143 | the method leaves the set that `UpdatedLevels` describes |
| RenderOrganisation.RoleEmoji | docs/src/solution/render-organisation.ts:95-97 | the employee glyph: the table's entry or the unknown-employee glyph; stated by `GlyphOr` and `DefaultManagerGlyph` |
| RenderOrganisation.RenderDepartment | docs/src/solution/render-organisation.ts:88-92 | the department label; stated by `DepartmentExample` |
| RenderOrganisation.RenderEmployee | docs/src/solution/render-organisation.ts:94-109 | the employee label; stated by `EmployeeLabelShowsTaskCount` and `EmployeeExample` |
| RenderOrganisation.DefaultConfig | docs/src/solution/render-organisation.ts:52-85 | the configuration `createOrganisationRenderer` uses when given none; stated by `DefaultRoleText`, `DefaultManagerGlyph` and the examples |
| RenderOrganisation.Lookup | docs/src/solution/render-organisation.ts:11-18 | the glyph table has an entry for "A", "B" and "C" and for nothing else |
| RenderOrganisation.GlyphOr | docs/src/solution/render-organisation.ts:95-97 | the table glyph if the role has one and it is non-empty, the fallback otherwise |
| RenderOrganisation.DefaultRoleText | docs/src/solution/render-organisation.ts:73-83 | each role text names exactly one case: Engineer iff "A", Supervisor iff "B", Manager iff "C", Contractor iff "X", Unknown Role for every other code |
| RenderOrganisation.Decimal | docs/src/solution/render-organisation.ts:107 | a count renders as digits only, non-empty, with no leading zero unless the count is zero |
| RenderOrganisation.DecimalRoundTrip | docs/src/solution/render-organisation.ts:107 | reading the rendered count back gives the count |
| RenderOrganisation.DecimalInjective | docs/src/solution/render-organisation.ts:107 | different counts render differently |
| RenderOrganisation.EmployeeLabelShowsTaskCount | docs/src/solution/render-organisation.ts:104-108 | the employee label depends on the number of tasks, not on their ids or durations; with an identity task style, different counts give different labels |
| RenderOrganisation.DepartmentExample | docs/src/solution/render-organisation.ts:45-46 | with plain styles, the documented department renders as `🏢 Engineering` |
| RenderOrganisation.DefaultManagerGlyph | docs/src/solution/render-organisation.ts:62-66 | role "C" gets the manager glyph of the default table |
| RenderOrganisation.EmployeeExample | docs/src/solution/render-organisation.ts:48-49 | with plain styles, the documented manager Alice with two tasks renders as the documented label: manager glyph and name, `≺🎖️Manager≻`, the separator, and `2🛠️` |
| OrganisationTree.DepartmentStep | docs/src/solution/organisation-tree.visitor.ts:26-42 | `visitDepartment` on the visitor's state; stated by `DepartmentDrawsLine` and `StepAppends` |
| OrganisationTree.EmployeeStep | docs/src/solution/organisation-tree.visitor.ts:44-51 | `visitEmployee` on the visitor's state; stated by `EmployeeDrawsLine` and `StepAppends` |
| OrganisationTree.TreeVisitor | docs/src/solution/organisation-tree.visitor.ts:10-52 | the tree visitor handles departments and employees and has no task callback |
| OrganisationTree.OrganisationTreeVisitor.constructor | docs/src/solution/organisation-tree.visitor.ts:11-24 | a new visitor holds the given renderers and an empty rendered tree |
| OrganisationTree.OrganisationTreeVisitor.AddToRenderedTree | docs/src/solution/organisation-tree.visitor.ts:13-15 | the line and a newline are appended |
| OrganisationTree.OrganisationTreeVisitor.VisitDepartment | docs/src/solution/organisation-tree.visitor.ts:26-42 | a root department adds its bare label and leaves the active levels alone; any other adds indent and label, then updates the levels |
| OrganisationTree.OrganisationTreeVisitor.VisitEmployee | docs/src/solution/organisation-tree.visitor.ts:44-51 | an employee always adds indent and label, and never changes the active levels |
| OrganisationTree.OrganisationTreeVisitor.Consume | docs/src/solution/traversal.ts:17-42 | taking a walk's events one at a time leaves the state that `Run` of the tree visitor computes |
| OrganisationTree.ReportIsAppendOnly | docs/src/solution/organisation-tree.visitor.ts:13-15 | whatever events follow, the earlier rendered text stays a prefix |
| OrganisationTree.StepAppends | docs/src/solution/organisation-tree.visitor.ts:26-51 | each callback only appends to the rendered text |
| OrganisationTree.Bars | docs/src/solution/render-tree.ts:82-91 | the reference segments: blank at depth 0, and at depth `i >= 1` the line glyph exactly when the ancestor at that depth is not last |
| OrganisationTree.Nodes | docs/src/solution/organisation-tree.visitor.ts:26-51 | one node per report line, in line order |
| OrganisationTree.OutlineFollowsUnitsWalk | docs/src/solution/traversal.ts:17-42 | the full report has one line per department and employee, in walk order |
| OrganisationTree.ChildrenOutlineFollowsUnitsWalk | docs/src/solution/traversal.ts:25-31 | the same for the remaining children |
| OrganisationTree.OutlineFollowsDepartmentsWalk | docs/src/solution/traversal.ts:44-60 | the departments-only report has one line per department, in walk order |
| OrganisationTree.ChildrenOutlineFollowsDepartmentsWalk | docs/src/solution/traversal.ts:52-58 | the same for the remaining children |
| OrganisationTree.IndentMatchesAncestors | docs/src/solution/render-tree.ts:82-91 | when the active set agrees with the ancestors, the renderer's indent is the reference indent |
| OrganisationTree.AgreesAfterUpdate | docs/src/solution/render-tree.ts:137-143 | a non-root department's update extends that agreement to its children, without touching shallower levels |
| OrganisationTree.DepartmentDrawsLine | docs/src/solution/organisation-tree.visitor.ts:26-42 | a department event appends its reference line and keeps the agreement for its children |
| OrganisationTree.RootDepartmentDrawsLine | docs/src/solution/organisation-tree.visitor.ts:28-33 | the root case of the above: no prefix, levels untouched |
| OrganisationTree.NestedDepartmentDrawsLine | docs/src/solution/organisation-tree.visitor.ts:36-41 | the non-root case of the above |
| OrganisationTree.EmployeeDrawsLine | docs/src/solution/organisation-tree.visitor.ts:44-51 | an employee event appends its reference line and leaves the active levels as they were |
| OrganisationTree.TaskEventsAreIgnored | docs/src/solution/organisation-tree.visitor.ts:10 | the tree visitor has no task callback: task events change nothing |
| OrganisationTree.UnitsWalkDrawsOutline | docs/src/solution/organisation-tree.visitor.ts:26-51 | `visitAllUnits` with the tree visitor appends exactly the reference outline of the subtree, and leaves shallower levels as they were |
| OrganisationTree.ChildrenWalkDrawsOutline | docs/src/solution/traversal.ts:25-31 | the same for the remaining children of a department |
| OrganisationTree.ChildWalkDrawsOutline | docs/src/solution/traversal.ts:25-31 | one child step of the above |
| OrganisationTree.DepartmentsWalkDrawsOutline | docs/src/solution/traversal.ts:44-60 | `visitAllDepartments` with the tree visitor appends exactly the departments-only reference outline |
| OrganisationTree.ChildrenDepartmentsWalkDrawsOutline | docs/src/solution/traversal.ts:52-58 | the same for the remaining children |
| OrganisationTree.ChildDepartmentsWalkDrawsOutline | docs/src/solution/traversal.ts:52-58 | one child step of the above |
| OrganisationTree.FreshUnitsReport | docs/src/solution/solution.bin.ts:14-15 | a fresh visitor driven by `visitAllUnits` from the root renders exactly the full outline |
| OrganisationTree.ReusedVisitorAppendsFreshReport | docs/src/solution/solution.bin.ts:17-18 | reusing that visitor for `visitAllDepartments` appends what a fresh visitor would render |
| OrganisationTree.Reports | docs/src/solution/solution.bin.ts:6-18 | the two printed reports: the full outline, then that text followed by the departments-only outline |
| OrganisationTree.DepartmentsReportCountsEmployeeSiblings | docs/src/solution/traversal.ts:52-57 | in the departments-only report, a department followed only by an employee gets the middle marker, and its bar continues below it |
| OrganisationTree.RootWithEmployeeSibling | docs/src/solution/traversal.ts:52-57 | a root with a department and then an employee: the department is drawn as a middle child |
| OrganisationTree.ChainOutline | docs/src/solution/organisation-tree.visitor.ts:36-41 | a department with one leaf department below it gives two lines, each with its ancestors' prefix |
| OrganisationTree.LeafOutline | docs/src/solution/organisation-tree.visitor.ts:36-41 | a non-root department without children is one line |
| OrganisationTree.OnlyChildOutline | docs/src/solution/traversal.ts:25-31 | a department's only child is drawn as its last child, one level deeper |
| OrganisationTree.SecondLevelIndents | docs/src/solution/render-tree.ts:82-91 | the indents of the example: four spaces and a marker at depth 1; four spaces, a bar and a marker at depth 2 below a middle child |
| TaskCalculation.TaskVisitor | docs/src/solution/task-calculation.visitor.ts:4-13 | the task visitor handles tasks only |
| Model.TaskSum | docs/src/problem/problem.ts:84 | the sum of the tasks' durations; stated by `TaskSumCons` |
| TaskCalculation.TaskCalculationVisitor.constructor | docs/src/solution/task-calculation.visitor.ts:5 | the total starts at zero |
| TaskCalculation.TaskCalculationVisitor.VisitTask | docs/src/solution/task-calculation.visitor.ts:10-12 | the task's duration is added to the total |
| TaskCalculation.TaskCalculationVisitor.Consume | docs/src/solution/traversal.ts:80-101 | taking a walk's events one at a time leaves the total that `Run` of the task visitor computes |
| TaskCalculation.TaskSumCons | docs/src/problem/problem.ts:84 | summing durations from the front agrees with summing from the back |
| TaskCalculation.TaskEventsTotal | docs/src/solution/traversal.ts:94-99 | an employee's task events add the durations of its tasks |
| TaskCalculation.TasksWalkTotal | docs/src/solution/traversal.ts:80-101 | `visitAllTasks` with the task visitor adds the subtree's total duration |
| TaskCalculation.ChildrenTasksWalkTotal | docs/src/solution/traversal.ts:85-92 | the same for the remaining children |
| TaskCalculation.UnitsWalkTotal | docs/src/solution/traversal.ts:17-42 | driven by `visitAllUnits` instead, the task visitor also adds the total duration |
| TaskCalculation.TotalWork | docs/src/solution/solution.bin.ts:10-11 | a fresh visitor driven by `visitAllTasks` from the root reports the total duration of the organisation |
| Problem.DefaultLegacyConfig | docs/src/problem/problem.ts:32-50 | the constants `processUnits` fixes, with the terminal colours as parameters; stated by `LegacyDefaultsMatchRenderers` |
| Problem.LegacyDefaultsMatchRenderers | docs/src/problem/problem.ts:32-50 | the original's constants are the refactored renderers' defaults, except the unknown-employee glyph (a leading space) and the role text of codes other than A, B, C and X |
| Problem.LegacyPrefix | docs/src/problem/problem.ts:54-58 | a line's prefix: nothing at the root, otherwise indent and marker; stated by `IndentIsNonEmpty` and `LegacyLineIsOutlineLine` |
| Problem.ChildIndent | docs/src/problem/problem.ts:65 | the indent handed to the children; stated by `BarsSnoc` |
| Problem.LegacyEmployeeLabel | docs/src/problem/problem.ts:71-92 | the original's employee label; stated by `LegacyDefaultsMatchRenderers` against the refactored renderer |
| Problem.LegacyLines | docs/src/problem/problem.ts:30-97 | the lines `processUnits` prints, in order; stated by `ProcessUnits`, `QuietRunPrintsNothing`, `LegacyMatchesOutline` and `LegacyRootReport` |
| Problem.LegacyRoleText | docs/src/problem/problem.ts:72-82 | the original role text: Engineer iff "A", Supervisor iff "B", Manager iff "C", Contractor for every other code |
| Problem.ProcessUnits | docs/src/problem/problem.ts:30-97 | returns the subtree's total duration and prints exactly the lines of the reference, in order |
| Problem.QuietRunPrintsNothing | docs/src/problem/problem.ts:61-63 | with `printReport` false nothing is printed |
| Problem.QuietChildrenPrintNothing | docs/src/problem/problem.ts:66-69 | the same for the remaining children |
| Problem.PrintedTextConcat | docs/src/problem/problem.ts:62 | the console text of two runs of lines is their concatenation |
| Problem.BarsSnoc | docs/src/problem/problem.ts:65 | a child's indent is its parent's indent plus one segment: at depth `i >= 1`, four spaces below a last child and the line glyph otherwise; depth 0 is always four spaces (the original agrees only when the root is called with `isLast` true) |
| Problem.IndentIsNonEmpty | docs/src/problem/problem.ts:56 | below the root the indent is never empty, so a marker is always added |
| Problem.LegacyLineIsOutlineLine | docs/src/problem/problem.ts:55-58 | one printed line below the root has the outline's prefix |
| Problem.LegacyMatchesOutline | docs/src/problem/problem.ts:55-69 | below the root, `processUnits` prints exactly the reference outline of the subtree, with its own labels |
| Problem.LegacyChildrenMatchOutline | docs/src/problem/problem.ts:66-69 | the same for the remaining children |
| Problem.LegacyChildMatchesOutline | docs/src/problem/problem.ts:66-69 | one child step of the above |
| Problem.LegacyRootReport | docs/src/problem/problem.bin.ts:4-6 | called on a root department with the defaults, it prints the same outline that the visitor-based report draws |
| Problem.RootEmployeeDiffers | docs/src/problem/problem.ts:55-58 | with the default `indent` and `isLast`, a root employee is printed with no prefix by the original, while the visitor draws a middle marker |
| Problem.RootNotLastDiffers | docs/src/problem/problem.ts:55-68 | a root department called with `isLast` false prints its only child after the styled line glyph and the end marker; the visitor's outline puts four spaces and the end marker there |
| Problem.ReportAndTotal | docs/src/problem/problem.bin.ts:4-10 | the printing and the quiet call return the same total, the total duration, and the printing call prints the reference lines |

## Left out

- Terminal colours: the colour functions of the terminal library are parameters (`string -> string`), so no escape codes are modelled.
- Console output: `console.log` is modelled by returned lines or a returned string. The "Total Task Duration" line of the demo scripts is not modelled.
- The demo data set in `docs/src/data.ts` is not part of this model; every lemma holds for any organisation tree.
- Glyph text: the problem.ts and render-tree.ts source files store their glyphs as mis-decoded text. The model uses the intended characters (`└── `, `├── `, `│   `, and the emoji), and it treats glyph width as irrelevant.
- Numbers: task ids and durations are unbounded integers. JavaScript floating-point sums (rounding beyond 2^53, NaN) are not modelled.
- Partial and default configs: `createOrganisationRenderer` and `createTreeRenderer` take partial configurations, and the model needs complete ones. A partial one leaves the missing fields undefined in the source, and that failure is not modelled. `RenderOrganisation.DefaultConfig` and `Problem.DefaultLegacyConfig` give the defaults. The tree part of `Problem.DefaultLegacyConfig` is `RenderTree.DefaultTreeConfig`, the `createTreeRenderer()` default that the `OrganisationTreeVisitor` constructor's default argument uses.
- `indentSpace`: the tree renderer never reads this field, so it is kept in the configuration but has no effect, as in the source.
- Extra context fields: the traversal is generic in a context type extending `{level, last}` and spreads any extra fields into child contexts. Only the two fields are modelled.
- Absent visitor: a null or undefined visitor (`visitor?.`) cannot be expressed; one without callbacks can be, and it ignores every event.
- Object keys: `employees[role]` on a JavaScript object would also find inherited keys such as `"toString"`. The table is modelled with exactly its three keys.
- Getters: the `renderedTree` and `totalWork` getters are modelled as reads of the backing fields.
- Problem.ProcessUnits: the employee case sums durations with `TaskSum`, a recursive function, instead of a `reduce` loop. `TaskCalculation.TaskSumCons` relates the two folding orders.

