/** The list utilities the plan nodes lean on: mapping over a list
    (`stream().map(...)`), element-wise list equality (`List.equals`) and
    joining strings with a separator (`StringUtils.join`). */
module Lists {

  /** Applies `f` to every element, keeping order. */
  function Map<A, B>(f: A -> B, s: seq<A>): (r: seq<B>)
    ensures |r| == |s|
    ensures forall i :: 0 <= i < |s| ==> r[i] == f(s[i])
  {
    if |s| == 0 then [] else [f(s[0])] + Map(f, s[1..])
  }

  /** `List.equals`: walks both lists together; true when they run out at the
      same time and every pair of elements is equal. */
  function ListEquals<T(==)>(a: seq<T>, b: seq<T>): bool {
    if |a| == 0 || |b| == 0 then |a| == |b|
    else a[0] == b[0] && ListEquals(a[1..], b[1..])
  }

  /** Element-wise list equality is exactly equality of the sequences: same
      length, same elements in the same order. */
  lemma {:induction false} ListEqualsIsSequenceEquality<T>(a: seq<T>, b: seq<T>)
    ensures ListEquals(a, b) <==> a == b
    decreases |a|
  {
    if |a| > 0 && |b| > 0 {
      ListEqualsIsSequenceEquality(a[1..], b[1..]);
      assert a == [a[0]] + a[1..];
      assert b == [b[0]] + b[1..];
    }
  }

  /** `StringUtils.join(parts, sep)`: the parts in order with `sep` between
      neighbours; the empty list gives the empty string. */
  function Join(parts: seq<string>, sep: string): string {
    if |parts| == 0 then ""
    else if |parts| == 1 then parts[0]
    else parts[0] + sep + Join(parts[1..], sep)
  }

  /** Joining can equally be read from the back: appending one more part adds
      the separator and that part at the end. */
  lemma {:induction false} JoinAppend(parts: seq<string>, sep: string, last: string)
    requires |parts| > 0
    ensures Join(parts + [last], sep) == Join(parts, sep) + sep + last
    decreases |parts|
  {
    if |parts| > 1 {
      assert (parts + [last])[1..] == parts[1..] + [last];
      JoinAppend(parts[1..], sep, last);
    } else {
      assert (parts + [last])[1..] == [last];
    }
  }

  /** Total length of a list of strings. */
  function TotalLength(parts: seq<string>): nat {
    if |parts| == 0 then 0 else |parts[0]| + TotalLength(parts[1..])
  }

  /** The length of the joined text: the parts' total length plus one
      separator length between each pair of neighbours. */
  lemma {:induction false} JoinLength(parts: seq<string>, sep: string)
    requires |parts| > 0
    ensures |Join(parts, sep)| == TotalLength(parts) + (|parts| - 1) * |sep|
    decreases |parts|
  {
    if |parts| > 1 {
      JoinLength(parts[1..], sep);
    }
  }
}
