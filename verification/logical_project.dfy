/** `LogicalProject`: a logical node that computes a list of named
    expressions over its single child. Every function here takes a project
    node; `Plans` routes the other kind elsewhere. */
module LogicalProjects {
  import opened Wrappers
  import opened JavaLang
  import opened Lists
  import opened PlanNodes

  /** The full constructor. The projection list may be null (here: absent),
      which is refused. */
  function Make<E, G, P, C>(projects: Option<seq<E>>, groupExpression: Option<G>,
                            logicalProperties: Option<P>, child: C)
    : (r: Result<Plan<E, G, P, C>, PlanError>)
    ensures r.Failure? <==> projects.None?
    ensures r.Failure? ==> r.error == NullProjectsError
    ensures r.Success? ==> r.value.LogicalProject? && r.value.projects == projects.value
    ensures r.Success? ==> r.value.groupExpression == groupExpression
    ensures r.Success? ==> Properties(r.value) == logicalProperties
    ensures r.Success? ==> Children(r.value) == [child]
  {
    match projects
    case None => Failure(NullProjectsError)
    case Some(ps) => Success(LogicalProject(ps, groupExpression, logicalProperties, child))
  }

  /** The two-argument constructor: a fresh node with neither memo linkage
      nor cached properties. */
  function MakeUnlinked<E, G, P, C>(projects: Option<seq<E>>, child: C)
    : (r: Result<Plan<E, G, P, C>, PlanError>)
    ensures r.Failure? <==> projects.None?
    ensures r.Success? ==> r.value.LogicalProject? && r.value.projects == projects.value
    ensures r.Success? ==> r.value.groupExpression.None? && Properties(r.value).None?
    ensures r.Success? ==> Children(r.value) == [child]
  {
    Make(projects, None, None, child)
  }

  /** `computeOutput(input)`: one slot per projection, in order; the input
      plan plays no part. */
  function ComputeOutput<E, G, P, C, S>(p: Plan<E, G, P, C>, toSlot: E -> S, input: C): (r: seq<S>)
    requires p.LogicalProject?
    ensures |r| == |p.projects|
    ensures forall i :: 0 <= i < |r| ==> r[i] == toSlot(p.projects[i])
  {
    Map(toSlot, p.projects)
  }

  /** `getExpressions()`: exactly the projection list, in order. */
  function GetExpressions<E, G, P, C>(p: Plan<E, G, P, C>): (r: seq<Expression<E>>)
    requires p.LogicalProject?
    ensures |r| == |p.projects|
    ensures forall i :: 0 <= i < |r| ==> r[i] == Named(p.projects[i])
  {
    Map(e => Named(e), p.projects)
  }

  /** `equals(o)`: only another project can be equal, and only when the two
      projection lists hold the same elements in the same order. */
  function Equals<E(==), G, P, C>(p: Plan<E, G, P, C>, o: Plan<E, G, P, C>): (r: bool)
    requires p.LogicalProject?
    ensures r <==> o.LogicalProject? && o.projects == p.projects
  {
    match o
    case LogicalProject(projects, _, _, _) =>
      ListEqualsIsSequenceEquality(p.projects, projects);
      ListEquals(p.projects, projects)
    case PhysicalLimit(_, _, _, _, _) => false
  }

  /** `hashCode()`: `Objects.hash(projects)`, whose value on a list is the
      parameter `projectsHash`. */
  function Hash<E, G, P, C>(p: Plan<E, G, P, C>, projectsHash: seq<E> -> int32): int32
    requires p.LogicalProject?
  {
    projectsHash(p.projects)
  }

  /** Equal projects hash alike. */
  lemma EqualsImpliesSameHash<E, G, P, C>(p: Plan<E, G, P, C>, o: Plan<E, G, P, C>,
                                         projectsHash: seq<E> -> int32)
    requires p.LogicalProject? && Equals(p, o)
    ensures o.LogicalProject? && Hash(p, projectsHash) == Hash(o, projectsHash)
  {
  }

  /** `withChildren(children)`: exactly one child is demanded; the new node
      keeps the projections and starts with neither memo linkage nor
      properties. */
  function WithChildren<E, G, P, C>(p: Plan<E, G, P, C>, children: seq<C>)
    : (r: Result<Plan<E, G, P, C>, PlanError>)
    requires p.LogicalProject?
    ensures r.Failure? <==> |children| != 1
    ensures r.Failure? ==> r.error == ArityError(|children|)
    ensures r.Success? ==>
      && r.value.LogicalProject? && r.value.projects == p.projects
      && Children(r.value) == children
      && r.value.groupExpression.None? && Properties(r.value).None?
  {
    if |children| != 1 then Failure(ArityError(|children|))
    else MakeUnlinked(Some(p.projects), children[0])
  }

  /** `withGroupExpression(g)`: installs `g`, keeps projections and child, and
      carries the current properties over. */
  function WithGroupExpression<E, G, P, C>(p: Plan<E, G, P, C>, groupExpression: Option<G>)
    : (r: Plan<E, G, P, C>)
    requires p.LogicalProject?
    ensures r.LogicalProject? && r.projects == p.projects && r.child == p.child
    ensures r.groupExpression == groupExpression
    ensures Properties(r) == Properties(p)
  {
    LogicalProject(p.projects, groupExpression, p.logicalProperties, p.child)
  }

  /** `withLogicalProperties(props)`: installs `props`, which may be absent,
      clears the memo linkage, and keeps projections and child. */
  function WithLogicalProperties<E, G, P, C>(p: Plan<E, G, P, C>, logicalProperties: Option<P>)
    : (r: Plan<E, G, P, C>)
    requires p.LogicalProject?
    ensures r.LogicalProject? && r.projects == p.projects && r.child == p.child
    ensures r.groupExpression.None?
    ensures Properties(r) == logicalProperties
  {
    LogicalProject(p.projects, None, logicalProperties, p.child)
  }

  const Prefix: string := "LogicalProject ("

  /** `toString()`: the prefix, the projections rendered by `show` and joined
      with ", ", and a closing parenthesis. */
  function Describe<E, G, P, C>(p: Plan<E, G, P, C>, show: E -> string): string
    requires p.LogicalProject?
  {
    Prefix + Join(Map(show, p.projects), ", ") + ")"
  }

  /** The base cases of the description: no projections, and exactly one. */
  lemma DescribeEmptyAndSingle<E, G, P, C>(p: Plan<E, G, P, C>, show: E -> string)
    requires p.LogicalProject?
    ensures |p.projects| == 0 ==> Describe(p, show) == "LogicalProject ()"
    ensures |p.projects| == 1 ==> Describe(p, show) == "LogicalProject (" + show(p.projects[0]) + ")"
  {
    if |p.projects| == 1 {
      assert Map(show, p.projects) == [show(p.projects[0])];
    }
  }

  /** Adding a projection at the end adds ", " and its rendering just before
      the closing parenthesis. */
  lemma DescribeAppend<E, G, P, C>(p: Plan<E, G, P, C>, e: E, show: E -> string)
    requires p.LogicalProject? && |p.projects| > 0
    ensures Describe(p.(projects := p.projects + [e]), show)
            == Describe(p, show)[..|Describe(p, show)| - 1] + ", " + show(e) + ")"
  {
    var shown := Map(show, p.projects);
    assert Map(show, p.projects + [e]) == shown + [show(e)];
    JoinAppend(shown, ", ", show(e));
    assert Describe(p, show)[..|Describe(p, show)| - 1] == Prefix + Join(shown, ", ");
  }

  /** The description of a two-column project. */
  lemma DescribeExample(child: int)
    ensures Describe(Plan<string, int, int, int>.LogicalProject(["a", "b"], None, None, child), s => s)
            == "LogicalProject (a, b)"
  {
    assert Map((s: string) => s, ["a", "b"]) == ["a", "b"];
    assert Join(["a", "b"], ", ") == "a" + ", " + Join(["b"], ", ");
  }
}
