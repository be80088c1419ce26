/** The node contract seen by the rest of the optimizer: each operation
    chooses the implementation of the node's own kind, as a virtual call on
    the Java class does. */
module Plans {
  import opened Wrappers
  import opened JavaLang
  import opened PlanNodes
  import LogicalProjects
  import PhysicalLimits

  function Equals<E(==), G, P, C>(a: Plan<E, G, P, C>, b: Plan<E, G, P, C>): bool {
    match a
    case LogicalProject(_, _, _, _) => LogicalProjects.Equals(a, b)
    case PhysicalLimit(_, _, _, _, _) => PhysicalLimits.Equals(a, b)
  }

  function Hash<E, G, P, C>(p: Plan<E, G, P, C>, projectsHash: seq<E> -> int32,
                            pairHash: (int64, int64) -> int32): int32 {
    match p
    case LogicalProject(_, _, _, _) => LogicalProjects.Hash(p, projectsHash)
    case PhysicalLimit(_, _, _, _, _) => PhysicalLimits.Hash(p, pairHash)
  }

  function GetExpressions<E, G, P, C>(p: Plan<E, G, P, C>): seq<Expression<E>> {
    match p
    case LogicalProject(_, _, _, _) => LogicalProjects.GetExpressions(p)
    case PhysicalLimit(_, _, _, _, _) => PhysicalLimits.GetExpressions(p)
  }

  function WithChildren<E, G, P, C>(p: Plan<E, G, P, C>, children: seq<C>)
    : Result<Plan<E, G, P, C>, PlanError> {
    match p
    case LogicalProject(_, _, _, _) => LogicalProjects.WithChildren(p, children)
    case PhysicalLimit(_, _, _, _, _) => PhysicalLimits.WithChildren(p, children)
  }

  function WithGroupExpression<E, G, P, C>(p: Plan<E, G, P, C>, groupExpression: Option<G>)
    : Plan<E, G, P, C> {
    match p
    case LogicalProject(_, _, _, _) => LogicalProjects.WithGroupExpression(p, groupExpression)
    case PhysicalLimit(_, _, _, _, _) => PhysicalLimits.WithGroupExpression(p, groupExpression)
  }

  function WithLogicalProperties<E, G, P, C>(p: Plan<E, G, P, C>, logicalProperties: Option<P>)
    : Result<Plan<E, G, P, C>, PlanError> {
    match p
    case LogicalProject(_, _, _, _) => Success(LogicalProjects.WithLogicalProperties(p, logicalProperties))
    case PhysicalLimit(_, _, _, _, _) => PhysicalLimits.WithLogicalProperties(p, logicalProperties)
  }

  function Describe<E, G, P, C>(p: Plan<E, G, P, C>, show: E -> string): string {
    match p
    case LogicalProject(_, _, _, _) => LogicalProjects.Describe(p, show)
    case PhysicalLimit(_, _, _, _, _) => PhysicalLimits.Describe(p)
  }

  /** `accept(visitor, context)`: calls the one visitor entry of the node's
      kind, handing it the node itself and the context. */
  function Accept<E, G, P, C, X, R>(p: Plan<E, G, P, C>, visitor: Visitor<E, G, P, C, X, R>, context: X)
    : (r: R)
    ensures p.LogicalProject? ==> r == visitor.visitLogicalProject(p, context)
    ensures p.PhysicalLimit? ==> r == visitor.visitPhysicalLimit(p, context)
  {
    match p
    case LogicalProject(_, _, _, _) => visitor.visitLogicalProject(p, context)
    case PhysicalLimit(_, _, _, _, _) => visitor.visitPhysicalLimit(p, context)
  }
}
