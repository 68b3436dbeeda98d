/**
 * The tree-indent renderer: turns a traversal context into the prefix of a
 * report line, using a set of "active" levels at which an ancestor branch is
 * still open.
 */
module RenderTree {
  import opened Traversal

  /** Glyphs and their style. `indentSpace` is part of the configuration, but
      the renderer never reads it: the blank segment is always `Blank`. */
  datatype TreeConfig = TreeConfig(
    style: string -> string,
    end: string,
    middle: string,
    line: string,
    indentSpace: string)

  /** The blank segment for a level whose branch is closed: four spaces. */
  const Blank: string := "    "

  /** The configuration `createTreeRenderer` uses when given none, with the
      terminal library's `dim` as a parameter. */
  function DefaultTreeConfig(dim: string -> string): TreeConfig
  {
    TreeConfig(dim, "└── ", "├── ", "│   ", "    ")
  }

  /** Concatenation of a sequence of strings (the source's `join('')`). */
  function Concat(parts: seq<string>): string
  {
    if parts == [] then "" else Concat(parts[..|parts| - 1]) + parts[|parts| - 1]
  }

  lemma ConcatSnoc(parts: seq<string>, last: string)
    ensures Concat(parts + [last]) == Concat(parts) + last
  {
    assert (parts + [last])[..|parts|] == parts;
  }

  /** A non-empty concatenation starts with its first part. */
  lemma {:induction false} ConcatStartsWithFirst(parts: seq<string>)
    requires parts != []
    ensures |Concat(parts)| >= |parts[0]| && Concat(parts)[..|parts[0]|] == parts[0]
    decreases |parts|
  {
    if |parts| > 1 {
      var init := parts[..|parts| - 1];
      ConcatStartsWithFirst(init);
      assert init[0] == parts[0];
      var c := Concat(init);
      assert Concat(parts) == c + parts[|parts| - 1];
      assert (c + parts[|parts| - 1])[..|parts[0]|] == c[..|parts[0]|];
    } else {
      assert Concat(parts) == Concat([]) + parts[0];
    }
  }

  /** Segment `i` of an indent: the styled line glyph when level `i` is active,
      the blank segment otherwise. */
  function Segment(config: TreeConfig, active: set<nat>, i: nat): string
  {
    if i in active then config.style(config.line) else Blank
  }

  /** The first `n` segments of an indent. */
  function Segments(config: TreeConfig, active: set<nat>, n: nat): (r: seq<string>)
    ensures |r| == n
    ensures forall i :: 0 <= i < n ==> r[i] == Segment(config, active, i)
  {
    if n == 0 then [] else Segments(config, active, n - 1) + [Segment(config, active, n - 1)]
  }

  /** The branch marker of the node itself. */
  function Marker(config: TreeConfig, ctx: Context): string
  {
    config.style(if ctx.last then config.end else config.middle)
  }

  /** `renderTreeIndent`: `ctx.level` segments, then the node's marker. */
  function Indent(config: TreeConfig, active: set<nat>, ctx: Context): string
  {
    Concat(Segments(config, active, ctx.level)) + Marker(config, ctx)
  }

  /** `updateActiveBranchLevels` on a set value. */
  function UpdatedLevels(active: set<nat>, ctx: Context): (r: set<nat>)
    ensures ctx.level in r <==> !ctx.last
    ensures forall l :: l != ctx.level ==> (l in r <==> l in active)
  {
    if !ctx.last then active + {ctx.level} else active - {ctx.level}
  }

  /** The indent depends only on which of the levels `0 .. ctx.level - 1` are active. */
  lemma IndentReadsOnlyLowerLevels(config: TreeConfig, a1: set<nat>, a2: set<nat>, ctx: Context)
    requires forall i :: 0 <= i < ctx.level ==> (i in a1 <==> i in a2)
    ensures Indent(config, a1, ctx) == Indent(config, a2, ctx)
  {
    assert Segments(config, a1, ctx.level) == Segments(config, a2, ctx.level);
  }

  /** Updating twice with the same context is updating once. */
  lemma UpdateIsIdempotent(active: set<nat>, ctx: Context)
    ensures UpdatedLevels(UpdatedLevels(active, ctx), ctx) == UpdatedLevels(active, ctx)
  {
  }

  /** The renderer object: its configuration and the set of active levels that
      `createTreeRenderer` closes over. */
  class TreeRenderer {
    const config: TreeConfig
    var activeParentLevels: set<nat>

    /** `createTreeRenderer`: a fresh renderer has no active level. */
    constructor (config: TreeConfig)
      ensures this.config == config
      ensures activeParentLevels == {}
    {
      this.config := config;
      activeParentLevels := {};
    }

    /** `renderTreeIndent`: reads the active set and changes nothing. */
    function RenderTreeIndent(ctx: Context): string
      reads this
    {
      Indent(config, activeParentLevels, ctx)
    }

    /** `updateActiveBranchLevels`: level `ctx.level` becomes active exactly when
        the node is not last; every other level keeps its membership. */
    method UpdateActiveBranchLevels(ctx: Context)
      modifies this
      ensures activeParentLevels == UpdatedLevels(old(activeParentLevels), ctx)
      ensures ctx.level in activeParentLevels <==> !ctx.last
      ensures forall l :: l != ctx.level ==> (l in activeParentLevels <==> l in old(activeParentLevels))
    {
      if !ctx.last {
        activeParentLevels := activeParentLevels + {ctx.level};
      } else {
        activeParentLevels := activeParentLevels - {ctx.level};
      }
    }
  }
}
