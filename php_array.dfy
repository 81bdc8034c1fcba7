/**
 * The part of PHP's value model the strategy relies on: values, arrays with
 * string keys, `isset`, truthiness and the array union operator `+`.
 */
module PhpArray {

  /** A PHP value as it can appear in a configuration, an option or a payload.
      Floating-point numbers and objects are not modelled. */
  datatype Value =
    | Null
    | Bool(b: bool)
    | Int(i: int)
    | Str(s: string)
    | Arr(entries: map<string, Value>)

  /** A PHP array whose keys are strings. */
  type PhpMap = map<string, Value>

  /** `isset($a[$k])`: the key is present and its value is not null. */
  predicate IsSet(a: PhpMap, k: string) {
    k in a && a[k] != Null
  }

  /** PHP's conversion of a value to boolean (what `if ($v)` and `?:` test). */
  predicate Truthy(v: Value) {
    match v
    case Null => false
    case Bool(b) => b
    case Int(i) => i != 0
    case Str(s) => s != "" && s != "0"
    case Arr(m) => |m| != 0
  }

  /** `$left + $right`: every entry of the left operand is kept, and an entry of the
      right operand is added only when its key is not already on the left. */
  function Union(left: PhpMap, right: PhpMap): (r: PhpMap)
    ensures r.Keys == left.Keys + right.Keys
    ensures forall k :: k in left ==> r[k] == left[k]
    ensures forall k :: k in right && k !in left ==> r[k] == right[k]
  {
    right + left
  }

  /** An array whose keys are those of `a` plus `k` has one entry more than `a`
      when `k` is new to `a`, and as many entries otherwise. */
  lemma {:induction false} OneKeyMoreSize(a: PhpMap, b: PhpMap, k: string)
    requires b.Keys == a.Keys + {k}
    ensures |b| == if k in a then |a| else |a| + 1
  {
    assert |b| == |b.Keys| && |a| == |a.Keys|;
    if k in a {
      assert b.Keys == a.Keys;
    } else {
      assert a.Keys !! {k};
    }
  }
}
