/** Plan nodes of the Nereids optimizer, limited to the two unary operators
    `LogicalProject` and `PhysicalLimit`. Each Java class becomes one variant
    of a closed datatype; its methods live in the modules `LogicalProjects`
    and `PhysicalLimits`, and `Plans` dispatches on the variant.

    The collaborators stay opaque type parameters:
      E  a named expression (an entry of a projection list)
      G  a handle to a memo group expression
      P  a set of logical properties
      C  the child plan
    Nodes are values: every transformer builds a new node. */
module PlanNodes {
  import opened Wrappers
  import opened JavaLang

  /** The expressions a node owns, as seen by generic expression rewriting:
      the projections themselves, or the integer literals a limit exposes. */
  datatype Expression<E> = Named(named: E) | IntegerLiteral(value: int32)

  /** A unary plan node. `groupExpression` is the optional memo linkage and
      `child` the single input. A project may or may not carry cached
      logical properties; a physical limit always carries them. */
  datatype Plan<E, G, P, C> =
    | LogicalProject(projects: seq<E>, groupExpression: Option<G>,
                     logicalProperties: Option<P>, child: C)
    | PhysicalLimit(limit: int64, offset: int64, groupExpression: Option<G>,
                    properties: P, child: C)

  /** The operator-specific part of a node: what equality and hashing look at. */
  datatype Payload<E> = ProjectPayload(projects: seq<E>) | LimitPayload(limit: int64, offset: int64)

  /** The failures the nodes raise: a wrong number of children
      (`checkArgument`), absent properties handed to a physical limit
      (`Optional.get` on an empty value), and a null projection list
      (`requireNonNull`). */
  datatype PlanError = ArityError(given: nat) | MissingPropertiesError | NullProjectsError

  /** One entry per node kind, as in `PlanVisitor`; `X` is the context type
      and `R` the result type. */
  datatype Visitor<!E, !G, !P, !C, !X, R> = Visitor(
    visitLogicalProject: (Plan<E, G, P, C>, X) -> R,
    visitPhysicalLimit: (Plan<E, G, P, C>, X) -> R)

  function PayloadOf<E, G, P, C>(p: Plan<E, G, P, C>): Payload<E> {
    match p
    case LogicalProject(projects, _, _, _) => ProjectPayload(projects)
    case PhysicalLimit(limit, offset, _, _, _) => LimitPayload(limit, offset)
  }

  /** The logical properties a node currently carries, absent when a project
      has none cached. */
  function Properties<E, G, P, C>(p: Plan<E, G, P, C>): Option<P> {
    match p
    case LogicalProject(_, _, props, _) => props
    case PhysicalLimit(_, _, _, props, _) => Some(props)
  }

  /** `children()` of a unary node. */
  function Children<E, G, P, C>(p: Plan<E, G, P, C>): seq<C> {
    [p.child]
  }
}
