/**
 * The visitor contract: three independently optional callbacks. A visitor is
 * modelled as a state transformer; running it over an event stream applies
 * the callback present for each event and skips the event otherwise.
 */
module Visitors {
  import opened Wrappers
  import opened Model
  import opened Traversal

  datatype Visitor<!S> = Visitor(
    visitDepartment: Option<(S, Department, Context) -> S>,
    visitEmployee: Option<(S, Employee, Context) -> S>,
    visitTask: Option<(S, Task, Context) -> S>)
  {
    /** Whether the callback for kind `k` is present. */
    predicate Handles(k: Kind)
    {
      match k
      case DepartmentKind => visitDepartment.Some?
      case EmployeeKind => visitEmployee.Some?
      case TaskKind => visitTask.Some?
    }

    /** This visitor with the callback for kind `k` removed. */
    function Without(k: Kind): (v: Visitor<S>)
      ensures !v.Handles(k)
      ensures forall k' :: k' != k ==> (v.Handles(k') <==> Handles(k'))
      ensures k != DepartmentKind ==> v.visitDepartment == visitDepartment
      ensures k != EmployeeKind ==> v.visitEmployee == visitEmployee
      ensures k != TaskKind ==> v.visitTask == visitTask
    {
      match k
      case DepartmentKind => this.(visitDepartment := None)
      case EmployeeKind => this.(visitEmployee := None)
      case TaskKind => this.(visitTask := None)
    }
  }

  /** One event: the matching callback when present, a no-op otherwise. */
  function Dispatch<S>(v: Visitor<S>, s: S, ev: Event): S
  {
    match ev
    case OnDepartment(d, c) => if v.visitDepartment.Some? then v.visitDepartment.value(s, d, c) else s
    case OnEmployee(e, c) => if v.visitEmployee.Some? then v.visitEmployee.value(s, e, c) else s
    case OnTask(t, c) => if v.visitTask.Some? then v.visitTask.value(s, t, c) else s
  }

  /** The state after the visitor has received every event of `evs`, in order. */
  function Run<S>(v: Visitor<S>, s: S, evs: seq<Event>): S
  {
    if evs == [] then s else Dispatch(v, Run(v, s, evs[..|evs| - 1]), evs[|evs| - 1])
  }

  /** Running over two streams one after the other is running over their concatenation. */
  lemma {:induction false} RunConcat<S>(v: Visitor<S>, s: S, a: seq<Event>, b: seq<Event>)
    ensures Run(v, s, a + b) == Run(v, Run(v, s, a), b)
    decreases |b|
  {
    if b == [] {
      assert a + b == a;
    } else {
      var b' := b[..|b| - 1];
      assert (a + b)[..|a + b| - 1] == a + b';
      RunConcat(v, s, a, b');
    }
  }

  /** Run over one more event. */
  lemma RunSnoc<S>(v: Visitor<S>, s: S, evs: seq<Event>, ev: Event)
    ensures Run(v, s, evs + [ev]) == Dispatch(v, Run(v, s, evs), ev)
  {
    assert (evs + [ev])[..|evs|] == evs;
  }

  /** An event whose callback is absent leaves the state unchanged. */
  lemma DispatchUnhandled<S>(v: Visitor<S>, s: S, ev: Event)
    requires !v.Handles(KindOf(ev))
    ensures Dispatch(v, s, ev) == s
  {
  }

  /** Events whose callback is absent leave the state unchanged: a visitor
      sees the same as if the stream held only the kinds it handles. */
  lemma {:induction false} UnhandledEventsAreIgnored<S>(v: Visitor<S>, s: S, evs: seq<Event>, kinds: set<Kind>)
    requires forall k :: v.Handles(k) ==> k in kinds
    ensures Run(v, s, evs) == Run(v, s, Only(evs, kinds))
    decreases |evs|
  {
    if evs != [] {
      var init, ev := evs[..|evs| - 1], evs[|evs| - 1];
      UnhandledEventsAreIgnored(v, s, init, kinds);
      if KindOf(ev) in kinds {
        RunSnoc(v, s, Only(init, kinds), ev);
      } else {
        assert Only(evs, kinds) == Only(init, kinds);
        DispatchUnhandled(v, Run(v, s, init), ev);
      }
    }
  }

  /** Removing one callback is the same as removing that kind of event from the
      stream: the walk over the rest, and the other callbacks, are unaffected. */
  lemma {:induction false} AbsentCallbackIsNoOp<S>(v: Visitor<S>, k: Kind, s: S, evs: seq<Event>)
    ensures Run(v.Without(k), s, evs) == Run(v, s, Only(evs, AllKinds - {k}))
    decreases |evs|
  {
    var w := v.Without(k);
    var kinds := AllKinds - {k};
    if evs != [] {
      var init, ev := evs[..|evs| - 1], evs[|evs| - 1];
      AbsentCallbackIsNoOp(v, k, s, init);
      if KindOf(ev) in kinds {
        RunSnoc(v, s, Only(init, kinds), ev);
        assert Dispatch(w, Run(w, s, init), ev) == Dispatch(v, Run(w, s, init), ev);
      } else {
        assert Only(evs, kinds) == Only(init, kinds);
        DispatchUnhandled(w, Run(w, s, init), ev);
      }
    }
  }
}
