# Nereids plan nodes: LogicalProject and PhysicalLimit

A Dafny model of two plan nodes of the Nereids query optimizer in Apache
Doris. Plan nodes are immutable values. Each node carries an operator
payload, an optional link to a memo group expression, logical properties
and exactly one child.

- `LogicalProject` carries an ordered list of named expressions.
- `PhysicalLimit` carries a `(limit, offset)` pair of Java `long`s.

The two classes become the variants of one closed datatype,
`PlanNodes.Plan<E, G, P, C>`. Each class's methods live in its own module,
`LogicalProjects` and `PhysicalLimits`. The module `Plans` picks the
implementation by variant, as a Java virtual call does. The collaborators stay
opaque type parameters:

- `E` is a named expression.
- `G` is a memo group expression.
- `P` is a set of logical properties.
- `C` is the child plan.

The collaborators' own operations are function parameters:

- `toSlot` is `NamedExpression::toSlot`.
- `show` is the expression's `toString`.
- `projectsHash` and `pairHash` are the values of `Objects.hash`.

Java exceptions become `Result` values with a `PlanError`:

- `ArityError` stands for `Preconditions.checkArgument` failing in `withChildren`.
- `MissingPropertiesError` stands for `Optional.get` on an empty value in `PhysicalLimit.withLogicalProperties`.
- `NullProjectsError` stands for `Objects.requireNonNull` in the `LogicalProject` constructor. A null list is modelled as `None`.

Other modules:

- `JavaLang` models the Java integer behaviour the nodes use: the `int` and `long` ranges, the narrowing `(int)` cast, and `Long.toString`.
- `Lists` models `stream().map`, `List.equals` and `StringUtils.join`.
- `PlanProperties` states how the operations relate to each other.

Source methods without their own row in the table:

- `getLimit`, `getOffset` and `getProjects` are the datatype's fields.
- The five-argument `PhysicalLimit` constructor is the datatype constructor.
- The four-argument `PhysicalLimit` constructor is the same constructor with `None` as the group expression.
- `LogicalProjects.Describe` and `PhysicalLimits.Describe` model `toString`. Their rows are `LogicalProjects.DescribeEmptyAndSingle`, `LogicalProjects.DescribeAppend`, `LogicalProjects.DescribeExample`, `PhysicalLimits.DescribeDeterminesPayload` and `PhysicalLimits.DescribeExample`.
- `LogicalProjects.Hash` and `PhysicalLimits.Hash` model `hashCode`. Their rows are the `EqualsImpliesSameHash` lemmas.
- The `Plans` functions other than `Plans.Accept` only choose the class's implementation. The `PlanProperties` rows state what they do across both kinds.

Behaviour of the code worth knowing:

- Carrying properties over: both classes carry the current logical properties over in `withGroupExpression` (LogicalProject.java line 116, PhysicalLimit.java line 88).
- Limit description format: the limit description has a space after the opening parenthesis, `PhysicalLimit ( offset=...` (PhysicalLimit.java line 119).
- Range of limit and offset: `limit` and `offset` may be any `long`. Nothing checks their sign.

## Model

| member | source | states |
|---|---|---|
| JavaLang.NarrowToInt | fe/fe-core/src/main/java/org/apache/doris/nereids/trees/plans/physical/PhysicalLimit.java:81-82 | `(int) x` is an `int` congruent to `x` modulo 2^32. It equals `x` whenever `x` lies in the `int` range. |
| JavaLang.NarrowToIntIsUnique | fe/fe-core/src/main/java/org/apache/doris/nereids/trees/plans/physical/PhysicalLimit.java:81-82 | The narrowing is the only `int` congruent to the `long` modulo 2^32, so the two facts above define it. |
| JavaLang.NarrowToIntWrapsAround | fe/fe-core/src/main/java/org/apache/doris/nereids/trees/plans/physical/PhysicalLimit.java:81-82 | Values outside the range wrap around: 2^31 becomes -2^31, 2^32+10 becomes 10, and -1 stays -1. |
| JavaLang.NatToDecimal | fe/fe-core/src/main/java/org/apache/doris/nereids/trees/plans/physical/PhysicalLimit.java:119 | The decimal rendering of a magnitude is non-empty and all digits, with no leading zero. |
| JavaLang.DecimalRoundTrip | fe/fe-core/src/main/java/org/apache/doris/nereids/trees/plans/physical/PhysicalLimit.java:119 | Reading the rendered digits back gives the number. |
| JavaLang.LongToString | fe/fe-core/src/main/java/org/apache/doris/nereids/trees/plans/physical/PhysicalLimit.java:119 | `Long.toString` gives a minus sign exactly for negatives, followed by digits. |
| JavaLang.LongToStringRoundTrip | fe/fe-core/src/main/java/org/apache/doris/nereids/trees/plans/physical/PhysicalLimit.java:119 | Parsing `Long.toString(x)` gives back `x`. |
| JavaLang.LongToStringInjective | fe/fe-core/src/main/java/org/apache/doris/nereids/trees/plans/physical/PhysicalLimit.java:119 | Distinct `long`s render differently. |
| JavaLang.LongToStringHasNoComma | fe/fe-core/src/main/java/org/apache/doris/nereids/trees/plans/physical/PhysicalLimit.java:119 | A rendered `long` contains no comma, so the comma-separated fields of the limit description can be told apart. |
| Lists.Map | fe/fe-core/src/main/java/org/apache/doris/nereids/trees/plans/logical/LogicalProject.java:71-73 | Mapping keeps the length and order, and element i of the result is the function applied to element i. |
| Lists.ListEqualsIsSequenceEquality | fe/fe-core/src/main/java/org/apache/doris/nereids/trees/plans/logical/LogicalProject.java:100 | `List.equals` holds exactly when both lists have the same length and the same elements in the same order. |
| Lists.JoinAppend | fe/fe-core/src/main/java/org/apache/doris/nereids/trees/plans/logical/LogicalProject.java:78 | `StringUtils.join` read from the back: one more part appends the separator and that part. |
| Lists.JoinLength | fe/fe-core/src/main/java/org/apache/doris/nereids/trees/plans/logical/LogicalProject.java:78 | The length of the joined text is the total length of the parts plus one separator length between each pair of neighbours. It says nothing about the contents. |
| LogicalProjects.Make | fe/fe-core/src/main/java/org/apache/doris/nereids/trees/plans/logical/LogicalProject.java:54-58 | The constructor fails exactly on a null projection list. Otherwise it stores the list, the link, the properties and the child. |
| LogicalProjects.MakeUnlinked | fe/fe-core/src/main/java/org/apache/doris/nereids/trees/plans/logical/LogicalProject.java:45-47 | The two-argument constructor builds a node with no memo link and no properties. |
| LogicalProjects.ComputeOutput | fe/fe-core/src/main/java/org/apache/doris/nereids/trees/plans/logical/LogicalProject.java:69-74 | The output has one slot per projection, in order: slot i is `toSlot(projects[i])`. The input plan is ignored. |
| LogicalProjects.GetExpressions | fe/fe-core/src/main/java/org/apache/doris/nereids/trees/plans/logical/LogicalProject.java:86-89 | The expressions are exactly the projection list: same length, same elements, same order. |
| LogicalProjects.Equals | fe/fe-core/src/main/java/org/apache/doris/nereids/trees/plans/logical/LogicalProject.java:91-101 | A project equals another node exactly when that node is a project with the same projection list. Children, link and properties are not compared. |
| LogicalProjects.EqualsImpliesSameHash | fe/fe-core/src/main/java/org/apache/doris/nereids/trees/plans/logical/LogicalProject.java:103-106 | Equal projects have equal hash codes, since the hash reads only the projections. |
| LogicalProjects.WithChildren | fe/fe-core/src/main/java/org/apache/doris/nereids/trees/plans/logical/LogicalProject.java:108-112 | Fails with an arity error exactly when the number of children is not one. Otherwise it keeps the projections, takes the child, and has no link and no properties. |
| LogicalProjects.WithGroupExpression | fe/fe-core/src/main/java/org/apache/doris/nereids/trees/plans/logical/LogicalProject.java:114-117 | Installs the given link and keeps the projections, the child and the current properties. |
| LogicalProjects.WithLogicalProperties | fe/fe-core/src/main/java/org/apache/doris/nereids/trees/plans/logical/LogicalProject.java:119-122 | Installs the given properties, which may be absent, clears the link, and keeps the projections and the child. |
| LogicalProjects.DescribeEmptyAndSingle | fe/fe-core/src/main/java/org/apache/doris/nereids/trees/plans/logical/LogicalProject.java:76-79 | No projections are described as `LogicalProject ()`. One projection is described as the prefix, its rendering and `)`. Together with the next row this fixes the description for every list. |
| LogicalProjects.DescribeAppend | fe/fe-core/src/main/java/org/apache/doris/nereids/trees/plans/logical/LogicalProject.java:76-79 | One more projection adds ", " and its rendering just before the closing parenthesis of the description. |
| LogicalProjects.DescribeExample | fe/fe-core/src/main/java/org/apache/doris/nereids/trees/plans/logical/LogicalProject.java:76-79 | The projections a and b are described as `LogicalProject (a, b)`. |
| PhysicalLimits.GetExpressions | fe/fe-core/src/main/java/org/apache/doris/nereids/trees/plans/physical/PhysicalLimit.java:79-84 | Exactly two integer literals: the limit first, then the offset. Each is the 32-bit narrowing of its `long`, and equals it when it fits in an `int`. |
| PhysicalLimits.GetExpressionsExamples | fe/fe-core/src/main/java/org/apache/doris/nereids/trees/plans/physical/PhysicalLimit.java:79-84 | Limit 10 with offset 5 gives the literals 10 and 5. A limit of 2^32 gives the literal 0. |
| PhysicalLimits.Equals | fe/fe-core/src/main/java/org/apache/doris/nereids/trees/plans/physical/PhysicalLimit.java:96-106 | A limit equals another node exactly when that node is a limit with the same offset and the same limit. Children, link and properties are not compared. |
| PhysicalLimits.EqualsImpliesSameHash | fe/fe-core/src/main/java/org/apache/doris/nereids/trees/plans/physical/PhysicalLimit.java:108-111 | Equal limits have equal hash codes, since the hash reads only offset and limit. |
| PhysicalLimits.WithChildren | fe/fe-core/src/main/java/org/apache/doris/nereids/trees/plans/physical/PhysicalLimit.java:72-76 | Fails with an arity error exactly when the number of children is not one. Otherwise it keeps limit, offset and properties, takes the child, and has no link. |
| PhysicalLimits.WithGroupExpression | fe/fe-core/src/main/java/org/apache/doris/nereids/trees/plans/physical/PhysicalLimit.java:86-89 | Installs the given link and keeps limit, offset, properties and child. |
| PhysicalLimits.WithLogicalProperties | fe/fe-core/src/main/java/org/apache/doris/nereids/trees/plans/physical/PhysicalLimit.java:91-94 | Fails exactly when the properties are absent. Otherwise it installs them, clears the link, and keeps limit, offset and child. |
| PhysicalLimits.DescribeDeterminesPayload | fe/fe-core/src/main/java/org/apache/doris/nereids/trees/plans/physical/PhysicalLimit.java:118-120 | Two limits have the same description exactly when they are equal, so the description determines offset and limit. |
| PhysicalLimits.DescribeExample | fe/fe-core/src/main/java/org/apache/doris/nereids/trees/plans/physical/PhysicalLimit.java:118-120 | Limit 20 with offset 0 is described as `PhysicalLimit ( offset=0, limit=20)`. |
| Plans.Accept | fe/fe-core/src/main/java/org/apache/doris/nereids/trees/plans/logical/LogicalProject.java:81-84 | Dispatch calls the visitor entry of the node's own kind, with the node itself and the context. |
| PlanProperties.AcceptConsultsOneEntry | fe/fe-core/src/main/java/org/apache/doris/nereids/trees/plans/physical/PhysicalLimit.java:113-116 | Changing the visitor entry of the other kind does not change the result, so exactly one entry is consulted. |
| PlanProperties.EqualsIffSamePayload | fe/fe-core/src/main/java/org/apache/doris/nereids/trees/plans/logical/LogicalProject.java:91-101 | Across both kinds, two nodes are equal exactly when they have the same kind and payload. A project never equals a limit. |
| PlanProperties.EqualsIsEquivalence | fe/fe-core/src/main/java/org/apache/doris/nereids/trees/plans/physical/PhysicalLimit.java:96-106 | Node equality is reflexive, symmetric and transitive. |
| PlanProperties.EqualsImpliesSameHash | fe/fe-core/src/main/java/org/apache/doris/nereids/trees/plans/physical/PhysicalLimit.java:108-111 | Across both kinds, equal nodes have equal hash codes. |
| PlanProperties.TransformersKeepEquality | fe/fe-core/src/main/java/org/apache/doris/nereids/trees/plans/physical/PhysicalLimit.java:73-106 | Each result of `withChildren`, `withGroupExpression` and `withLogicalProperties` equals the node it came from. |
| PlanProperties.RelinkRoundTrip | fe/fe-core/src/main/java/org/apache/doris/nereids/trees/plans/physical/PhysicalLimit.java:86-89 | Linking a node to a group and then unlinking it gives a node equal to the original. If the original was unlinked, the result is the original itself. |
| PlanProperties.WithOwnChildRestoresNode | fe/fe-core/src/main/java/org/apache/doris/nereids/trees/plans/logical/LogicalProject.java:108-112 | Giving a node its own child back succeeds, keeps that child, and gives an equal node. |
| PlanProperties.EqualProjectsHaveSameOutput | fe/fe-core/src/main/java/org/apache/doris/nereids/trees/plans/logical/LogicalProject.java:69-74 | Equal projects derive the same output schema, whatever inputs they are given. |
| PlanProperties.EqualNodesHaveSameExpressions | fe/fe-core/src/main/java/org/apache/doris/nereids/trees/plans/physical/PhysicalLimit.java:79-84 | Equal nodes expose the same expressions. |
| PlanProperties.EqualNodesHaveSameDescription | fe/fe-core/src/main/java/org/apache/doris/nereids/trees/plans/logical/LogicalProject.java:76-79 | Equal nodes have the same description. |
| PlanProperties.EqualityExamples | fe/fe-core/src/main/java/org/apache/doris/nereids/trees/plans/physical/PhysicalLimit.java:96-106 | Limits with the same payload but different children, links and properties are equal. Projects listing the same columns in another order are not. A project is never equal to a limit. |

## Left out

- Base classes: `LogicalUnary`, `PhysicalUnary` and the abstract plan root are not part of this model. `child()` and the current logical properties are plain fields.
- Lazy derivation: the base classes compute logical properties lazily. That code is not visible, so the model does not derive properties.
- LogicalProjects.WithGroupExpression: the source passes `Optional.of` of the base class's current properties. When none were supplied, the base class derives a value, and that code is not visible. The model carries the absent value over unchanged.
- Limit output schema: `PhysicalLimit` inherits `computeOutput` from a base class that is not part of this model. No output schema is modelled for a limit.
- Null elements: `ImmutableList.copyOf` also rejects null elements in the projection list. Dafny values are never null, so this check is not modelled.
- Other null arguments: null children lists and a null `LogicalProperties` passed to the limit constructors are not modelled, for the same reason.
- LogicalProjects.Hash: the arithmetic of `Objects.hash` and of a list's hash is a parameter. Only the facts that the hash reads nothing but the projections, and that equal nodes hash alike, are stated.
- PhysicalLimits.Hash: the arithmetic of `Objects.hash` and `Long.hashCode` is a parameter. Only the argument order (offset, then limit) and agreement with equality are stated.
- Collaborator internals: `NamedExpression`, `Slot`, `IntegerLiteral`, `GroupExpression` and `LogicalProperties` are opaque. Their `toSlot` and `toString` are parameters.
- `PlanVisitor`: its entries for other node kinds are not modelled. Visitor entries are pure functions, so a visitor's side effects are not modelled.
- Java plumbing: generics, unchecked casts and the `this == o` shortcut in `equals` are library plumbing. The shortcut agrees with the payload comparison anyway.
- Out of scope: the memo, the rule engine, costing and concurrency are outside these two classes.
