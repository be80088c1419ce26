/** Properties relating the node operations to each other: equality is
    payload equality, hashing and every derived view agree with it, the
    transformers never change a node's identity under equality, and dispatch
    consults exactly one visitor entry. */
module PlanProperties {
  import opened Wrappers
  import opened JavaLang
  import opened PlanNodes
  import opened Plans
  import LogicalProjects
  import PhysicalLimits

  /** Two nodes are equal exactly when they are of the same kind with the same
      payload, whatever their children, memo linkage and properties. */
  lemma EqualsIffSamePayload<E, G, P, C>(a: Plan<E, G, P, C>, b: Plan<E, G, P, C>)
    ensures Equals(a, b) <==> PayloadOf(a) == PayloadOf(b)
  {
  }

  /** Node equality is reflexive, symmetric and transitive. */
  lemma EqualsIsEquivalence<E, G, P, C>(a: Plan<E, G, P, C>, b: Plan<E, G, P, C>, c: Plan<E, G, P, C>)
    ensures Equals(a, a)
    ensures Equals(a, b) ==> Equals(b, a)
    ensures Equals(a, b) && Equals(b, c) ==> Equals(a, c)
  {
    EqualsIffSamePayload(a, a);
    EqualsIffSamePayload(a, b);
    EqualsIffSamePayload(b, a);
    EqualsIffSamePayload(b, c);
    EqualsIffSamePayload(a, c);
  }

  /** Equal nodes have equal hash codes. */
  lemma EqualsImpliesSameHash<E, G, P, C>(a: Plan<E, G, P, C>, b: Plan<E, G, P, C>,
                                         projectsHash: seq<E> -> int32, pairHash: (int64, int64) -> int32)
    requires Equals(a, b)
    ensures Hash(a, projectsHash, pairHash) == Hash(b, projectsHash, pairHash)
  {
  }

  /** Every transformer's result equals the node it came from, because none
      touches the payload. */
  lemma TransformersKeepEquality<E, G, P, C>(p: Plan<E, G, P, C>, groupExpression: Option<G>,
                                             logicalProperties: Option<P>, children: seq<C>)
    ensures Equals(WithGroupExpression(p, groupExpression), p)
    ensures WithChildren(p, children).Success? ==> Equals(WithChildren(p, children).value, p)
    ensures WithLogicalProperties(p, logicalProperties).Success? ==>
              Equals(WithLogicalProperties(p, logicalProperties).value, p)
  {
  }

  /** Linking a node into a memo group and unlinking it again gives back a node
      equal to the original, identical to it except possibly for the linkage. */
  lemma RelinkRoundTrip<E, G, P, C>(p: Plan<E, G, P, C>, g: G)
    ensures Equals(WithGroupExpression(WithGroupExpression(p, Some(g)), None), p)
    ensures p.groupExpression.None? ==> WithGroupExpression(WithGroupExpression(p, Some(g)), None) == p
  {
  }

  /** Replacing a node's child by itself gives a node equal to the original
      that has the same single child. */
  lemma WithOwnChildRestoresNode<E, G, P, C>(p: Plan<E, G, P, C>)
    ensures WithChildren(p, Children(p)).Success?
    ensures Equals(WithChildren(p, Children(p)).value, p)
    ensures WithChildren(p, Children(p)).value.child == p.child
  {
  }

  /** Equal projects produce the same output schema, whatever their inputs. */
  lemma EqualProjectsHaveSameOutput<E, G, P, C, S>(a: Plan<E, G, P, C>, b: Plan<E, G, P, C>,
                                                 toSlot: E -> S, inputA: C, inputB: C)
    requires a.LogicalProject? && Equals(a, b)
    ensures b.LogicalProject?
    ensures LogicalProjects.ComputeOutput(a, toSlot, inputA) == LogicalProjects.ComputeOutput(b, toSlot, inputB)
  {
  }

  /** Equal nodes expose the same expressions. */
  lemma EqualNodesHaveSameExpressions<E, G, P, C>(a: Plan<E, G, P, C>, b: Plan<E, G, P, C>)
    requires Equals(a, b)
    ensures GetExpressions(a) == GetExpressions(b)
  {
  }

  /** Equal nodes have the same description. */
  lemma EqualNodesHaveSameDescription<E, G, P, C>(a: Plan<E, G, P, C>, b: Plan<E, G, P, C>,
                                                  show: E -> string)
    requires Equals(a, b)
    ensures Describe(a, show) == Describe(b, show)
  {
  }

  /** Choosing an entry for the other node kind does not change what
      `Accept` returns: exactly one entry is consulted. */
  lemma AcceptConsultsOneEntry<E, G, P, C, X, R>(p: Plan<E, G, P, C>, visitor: Visitor<E, G, P, C, X, R>,
                                                 other: (Plan<E, G, P, C>, X) -> R, context: X)
    ensures p.LogicalProject? ==>
      Accept(p, visitor.(visitPhysicalLimit := other), context) == Accept(p, visitor, context)
    ensures p.PhysicalLimit? ==>
      Accept(p, visitor.(visitLogicalProject := other), context) == Accept(p, visitor, context)
  {
  }

  /** Two limits with the same offset and limit but different children, links
      and properties are equal; two projects listing the same columns in a
      different order are not, and a project never equals a limit. */
  lemma EqualityExamples(g: int, p1: int, p2: int)
    ensures Equals(Plan<string, int, int, int>.PhysicalLimit(20, 0, Some(g), p1, 1),
                   Plan<string, int, int, int>.PhysicalLimit(20, 0, None, p2, 2))
    ensures !Equals(Plan<string, int, int, int>.LogicalProject(["a", "b"], None, None, 1),
                    Plan<string, int, int, int>.LogicalProject(["b", "a"], None, None, 1))
    ensures !Equals(Plan<string, int, int, int>.LogicalProject(["a"], None, None, 1),
                    Plan<string, int, int, int>.PhysicalLimit(20, 0, None, p1, 1))
  {
    assert ["a", "b"][0] != ["b", "a"][0];
  }
}
