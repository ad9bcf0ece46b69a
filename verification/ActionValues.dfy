/** The nested values of which actions are made, and the comparison the trajectory cache uses. */
module ActionValues {

  /** Dicts are compared by content, so a map models them; NaN is not a value here. */
  datatype Value =
    | Null
    | Bool(b: bool)
    | Int(n: int)
    | Float(x: real)
    | Str(s: string)
    | List(items: seq<Value>)
    | Tuple(elems: seq<Value>)
    | Dict(fields: map<string, Value>)

  /** `_values_match_exact`: the same type all the way down, then the same content. */
  predicate ValuesMatch(left: Value, right: Value) {
    match left
    case Dict(a) => right.Dict? && a.Keys == right.fields.Keys && forall k | k in a.Keys :: ValuesMatch(a[k], right.fields[k])
    case List(a) => right.List? && |a| == |right.items| && forall i | 0 <= i < |a| :: ValuesMatch(a[i], right.items[i])
    case Tuple(a) => right.Tuple? && |a| == |right.elems| && forall i | 0 <= i < |a| :: ValuesMatch(a[i], right.elems[i])
    case Null => right.Null?
    case Bool(b) => right.Bool? && b == right.b
    case Int(n) => right.Int? && n == right.n
    case Float(x) => right.Float? && x == right.x
    case Str(s) => right.Str? && s == right.s
  }

  /** Two values match exactly when they are the same value; so matching is an equivalence, and an
      integer never matches a boolean or a float. */
  lemma {:induction false} MatchIsEquality(left: Value, right: Value)
    ensures ValuesMatch(left, right) <==> left == right
    decreases left
  {
    match left
    case Dict(a) =>
      if right.Dict? && a.Keys == right.fields.Keys {
        forall k | k in a.Keys ensures ValuesMatch(a[k], right.fields[k]) <==> a[k] == right.fields[k] {
          MatchIsEquality(a[k], right.fields[k]);
        }
        assert (forall k | k in a.Keys :: a[k] == right.fields[k]) <==> a == right.fields;
      }
    case List(a) =>
      if right.List? && |a| == |right.items| {
        forall i | 0 <= i < |a| ensures ValuesMatch(a[i], right.items[i]) <==> a[i] == right.items[i] {
          MatchIsEquality(a[i], right.items[i]);
        }
        assert (forall i | 0 <= i < |a| :: a[i] == right.items[i]) <==> a == right.items;
      }
    case Tuple(a) =>
      if right.Tuple? && |a| == |right.elems| {
        forall i | 0 <= i < |a| ensures ValuesMatch(a[i], right.elems[i]) <==> a[i] == right.elems[i] {
          MatchIsEquality(a[i], right.elems[i]);
        }
        assert (forall i | 0 <= i < |a| :: a[i] == right.elems[i]) <==> a == right.elems;
      }
    case _ =>
  }
}
