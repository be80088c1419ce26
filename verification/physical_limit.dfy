/** `PhysicalLimit`: a physical node that skips `offset` rows of its single
    child and returns at most `limit` of the rest. Both numbers are Java
    `long`s. Every function here takes a limit node; `Plans` routes the other
    kind elsewhere. */
module PhysicalLimits {
  import opened Wrappers
  import opened JavaLang
  import opened PlanNodes

  /** `getExpressions()`: two integer literals, the limit first and the
      offset second, each the `(int)` narrowing of the `long` value. */
  function GetExpressions<E, G, P, C>(p: Plan<E, G, P, C>): (r: seq<Expression<E>>)
    requires p.PhysicalLimit?
    ensures |r| == 2 && r[0].IntegerLiteral? && r[1].IntegerLiteral?
    ensures (p.limit - r[0].value) % TWO_32 == 0 && (p.offset - r[1].value) % TWO_32 == 0
    ensures InInt32Range(p.limit) ==> r[0].value == p.limit
    ensures InInt32Range(p.offset) ==> r[1].value == p.offset
  {
    [IntegerLiteral(NarrowToInt(p.limit)), IntegerLiteral(NarrowToInt(p.offset))]
  }

  /** A limit of 10 rows after 5 exposes the literals 10 and 5, in that order;
      a limit of 2^32 rows is exposed as the literal 0. */
  lemma GetExpressionsExamples(props: int, child: int)
    ensures GetExpressions(Plan<string, int, int, int>.PhysicalLimit(10, 5, None, props, child))
            == [IntegerLiteral(10), IntegerLiteral(5)]
    ensures GetExpressions(Plan<string, int, int, int>.PhysicalLimit(0x1_0000_0000, 0, None, props, child))
            == [IntegerLiteral(0), IntegerLiteral(0)]
  {
  }

  /** `equals(o)`: only another limit can be equal, and only when both offset
      and limit match. */
  function Equals<E, G, P, C>(p: Plan<E, G, P, C>, o: Plan<E, G, P, C>): (r: bool)
    requires p.PhysicalLimit?
    ensures r <==> o.PhysicalLimit? && o.offset == p.offset && o.limit == p.limit
  {
    match o
    case PhysicalLimit(limit, offset, _, _, _) => p.offset == offset && p.limit == limit
    case LogicalProject(_, _, _, _) => false
  }

  /** `hashCode()`: `Objects.hash(offset, limit)`, whose value on the pair
      is the parameter `pairHash`; note the offset comes first. */
  function Hash<E, G, P, C>(p: Plan<E, G, P, C>, pairHash: (int64, int64) -> int32): int32
    requires p.PhysicalLimit?
  {
    pairHash(p.offset, p.limit)
  }

  /** Equal limits hash alike. */
  lemma EqualsImpliesSameHash<E, G, P, C>(p: Plan<E, G, P, C>, o: Plan<E, G, P, C>,
                                         pairHash: (int64, int64) -> int32)
    requires p.PhysicalLimit? && Equals(p, o)
    ensures o.PhysicalLimit? && Hash(p, pairHash) == Hash(o, pairHash)
  {
  }

  /** `withChildren(children)`: exactly one child is demanded; the new node
      keeps limit, offset and properties, and has no memo linkage. */
  function WithChildren<E, G, P, C>(p: Plan<E, G, P, C>, children: seq<C>)
    : (r: Result<Plan<E, G, P, C>, PlanError>)
    requires p.PhysicalLimit?
    ensures r.Failure? <==> |children| != 1
    ensures r.Failure? ==> r.error == ArityError(|children|)
    ensures r.Success? ==>
      && r.value.PhysicalLimit? && r.value.limit == p.limit && r.value.offset == p.offset
      && Children(r.value) == children
      && r.value.groupExpression.None? && Properties(r.value) == Properties(p)
  {
    if |children| != 1 then Failure(ArityError(|children|))
    else Success(PhysicalLimit(p.limit, p.offset, None, p.properties, children[0]))
  }

  /** `withGroupExpression(g)`: installs `g` and keeps limit, offset,
      properties and child. */
  function WithGroupExpression<E, G, P, C>(p: Plan<E, G, P, C>, groupExpression: Option<G>)
    : (r: Plan<E, G, P, C>)
    requires p.PhysicalLimit?
    ensures r.PhysicalLimit? && r.limit == p.limit && r.offset == p.offset && r.child == p.child
    ensures r.groupExpression == groupExpression
    ensures Properties(r) == Properties(p)
  {
    PhysicalLimit(p.limit, p.offset, groupExpression, p.properties, p.child)
  }

  /** `withLogicalProperties(props)`: fails when `props` is absent; otherwise
      installs it, clears the memo linkage, and keeps limit, offset and
      child. */
  function WithLogicalProperties<E, G, P, C>(p: Plan<E, G, P, C>, logicalProperties: Option<P>)
    : (r: Result<Plan<E, G, P, C>, PlanError>)
    requires p.PhysicalLimit?
    ensures r.Failure? <==> logicalProperties.None?
    ensures r.Failure? ==> r.error == MissingPropertiesError
    ensures r.Success? ==>
      && r.value.PhysicalLimit? && r.value.limit == p.limit && r.value.offset == p.offset
      && r.value.child == p.child
      && r.value.groupExpression.None? && Properties(r.value) == logicalProperties
  {
    match logicalProperties
    case None => Failure(MissingPropertiesError)
    case Some(props) => Success(PhysicalLimit(p.limit, p.offset, None, props, p.child))
  }

  const Prefix: string := "PhysicalLimit ( offset="
  const Middle: string := ", limit="

  /** `toString()`: offset and limit in decimal, in that order. */
  function Describe<E, G, P, C>(p: Plan<E, G, P, C>): string
    requires p.PhysicalLimit?
  {
    Prefix + LongToString(p.offset) + Middle + LongToString(p.limit) + ")"
  }

  /** In `x + sep + y` with a comma-free `x` and `sep` starting with a comma,
      the first comma sits right after `x`. */
  lemma FirstCommaFollows(x: string, sep: string, y: string)
    requires |sep| > 0 && sep[0] == ','
    requires forall i :: 0 <= i < |x| ==> x[i] != ','
    ensures (x + sep + y)[|x|] == ','
    ensures forall i :: 0 <= i < |x| ==> (x + sep + y)[i] != ','
  {
  }

  /** Splitting `x + sep + y` at the first comma: when neither `x` nor `x'`
      contains a comma and `sep` starts with one, both halves are determined. */
  lemma SplitAtFirstComma(x: string, y: string, x': string, y': string, sep: string)
    requires |sep| > 0 && sep[0] == ','
    requires forall i :: 0 <= i < |x| ==> x[i] != ','
    requires forall i :: 0 <= i < |x'| ==> x'[i] != ','
    requires x + sep + y == x' + sep + y'
    ensures x == x' && y == y'
  {
    var s := x + sep + y;
    FirstCommaFollows(x, sep, y);
    FirstCommaFollows(x', sep, y');
    assert |x| == |x'|;
    assert x == s[..|x|];
    assert x' == (x' + sep + y')[..|x'|];
    assert y == s[|x| + |sep|..];
    assert y' == (x' + sep + y')[|x'| + |sep|..];
  }

  /** The description determines offset and limit: two limits describe
      alike exactly when they are equal. */
  lemma DescribeDeterminesPayload<E, G, P, C>(p: Plan<E, G, P, C>, o: Plan<E, G, P, C>)
    requires p.PhysicalLimit? && o.PhysicalLimit?
    ensures Describe(p) == Describe(o) <==> Equals(p, o)
  {
    if Describe(p) == Describe(o) {
      var op, lp := LongToString(p.offset), LongToString(p.limit);
      var oo, lo := LongToString(o.offset), LongToString(o.limit);
      var rp := op + Middle + (lp + ")");
      var ro := oo + Middle + (lo + ")");
      assert Describe(p) == Prefix + rp;
      assert Describe(o) == Prefix + ro;
      assert rp == Describe(p)[|Prefix|..];
      assert ro == Describe(o)[|Prefix|..];
      LongToStringHasNoComma(p.offset);
      LongToStringHasNoComma(o.offset);
      SplitAtFirstComma(op, lp + ")", oo, lo + ")", Middle);
      assert lp == (lp + ")")[..|lp|];
      assert lo == (lo + ")")[..|lo|];
      LongToStringInjective(p.offset, o.offset);
      LongToStringInjective(p.limit, o.limit);
    }
  }

  /** The description of a limit of 20 rows with no offset. */
  lemma DescribeExample(props: int, child: int)
    ensures Describe(Plan<string, int, int, int>.PhysicalLimit(20, 0, None, props, child))
            == "PhysicalLimit ( offset=0, limit=20)"
  {
    assert NatToDecimal(20) == NatToDecimal(2) + ['0'];
  }
}
