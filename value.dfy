/**
 * The value model: every datum the store holds is a `Value`, a closed,
 * recursive tagged union. Arrays keep their order; objects map field names
 * to children, so two objects with the same fields are equal whatever order
 * the fields were inserted in.
 */
module Values {
  import opened Wrappers
  import Text

  const I64_MIN: int := -0x8000_0000_0000_0000
  const I64_MAX: int := 0x7FFF_FFFF_FFFF_FFFF

  /** Rust's `i64`. */
  type I64 = x: int | -0x8000_0000_0000_0000 <= x <= 0x7FFF_FFFF_FFFF_FFFF

  /** The 64 bits of an `f64`, kept as an opaque token. */
  type F64Bits = bv64

  datatype Value =
    | String(text: string)
    | Integer(num: I64)
    | Float(bits: F64Bits)
    | Boolean(flag: bool)
    | Array(elems: seq<Value>)
    | Object(fields: map<string, Value>)
    | Null

  /** `as_integer`: the payload of an Integer, and nothing for every other variant. */
  function AsInteger(v: Value): (r: Option<I64>)
    ensures r.Some? <==> v.Integer?
    ensures forall n: I64 :: r == Some(n) <==> v == Integer(n)
  {
    match v
    case Integer(n) => Some(n)
    case _ => None
  }

  /** `as_string`: the payload of a String, and nothing for every other variant. */
  function AsString(v: Value): (r: Option<string>)
    ensures r.Some? <==> v.String?
    ensures forall s: string :: r == Some(s) <==> v == String(s)
  {
    match v
    case String(s) => Some(s)
    case _ => None
  }

  /** `get_field`: a lookup in an Object; every other variant has no fields at all. */
  function GetField(v: Value, name: string): (r: Option<Value>)
    ensures !v.Object? ==> r == None
    ensures v.Object? ==> (r.Some? <==> name in v.fields)
    ensures v.Object? && name in v.fields ==> r == Some(v.fields[name])
  {
    match v
    case Object(fields) => if name in fields then Some(fields[name]) else None
    case _ => None
  }

  const TypeNames: set<string> := {"String", "Integer", "Float", "Boolean", "Array", "Object", "Null"}

  /** `type_name`: the name of the variant. */
  function TypeName(v: Value): (r: string)
    ensures r in TypeNames
  {
    match v
    case String(_) => "String"
    case Integer(_) => "Integer"
    case Float(_) => "Float"
    case Boolean(_) => "Boolean"
    case Array(_) => "Array"
    case Object(_) => "Object"
    case Null => "Null"
  }

  /** `a` and `b` carry the same tag. */
  predicate SameVariant(a: Value, b: Value)
  {
    || (a.String? && b.String?)
    || (a.Integer? && b.Integer?)
    || (a.Float? && b.Float?)
    || (a.Boolean? && b.Boolean?)
    || (a.Array? && b.Array?)
    || (a.Object? && b.Object?)
    || (a.Null? && b.Null?)
  }

  /** Two values get the same type name exactly when they have the same tag; values with different tags differ. */
  lemma TypeNameIdentifiesVariant(a: Value, b: Value)
    ensures TypeName(a) == TypeName(b) <==> SameVariant(a, b)
    ensures !SameVariant(a, b) ==> a != b
  {
  }

  /** Equality of arrays is position by position. */
  lemma ArrayEquality(a: seq<Value>, b: seq<Value>)
    ensures Array(a) == Array(b) <==> |a| == |b| && forall i :: 0 <= i < |a| ==> a[i] == b[i]
  {
    if |a| == |b| && forall i :: 0 <= i < |a| ==> a[i] == b[i] {
      assert a == b;
    }
  }

  /** Equality of objects: the same field names, with equal children under each. */
  lemma ObjectEquality(m: map<string, Value>, n: map<string, Value>)
    ensures Object(m) == Object(n) <==> m.Keys == n.Keys && forall k :: k in m ==> m[k] == n[k]
  {
    if m.Keys == n.Keys && forall k :: k in m ==> m[k] == n[k] {
      assert m == n;
    }
  }

  /** Building an object field by field: the order of two distinct fields does not matter. */
  lemma FieldOrderIrrelevant(m: map<string, Value>, k1: string, v1: Value, k2: string, v2: Value)
    requires k1 != k2
    ensures Object(m[k1 := v1][k2 := v2]) == Object(m[k2 := v2][k1 := v1])
  {
    ObjectEquality(m[k1 := v1][k2 := v2], m[k2 := v2][k1 := v1]);
  }

  /** The order in which a `HashMap` of fields yields its keys; the model takes it as given. */
  type KeyOrder = map<string, Value> -> seq<string>

  /** A `HashMap`'s iteration reaches every key of the map. */
  ghost predicate CompleteOrder(order: KeyOrder)
  {
    forall m: map<string, Value>, k: string :: k in m ==> k in order(m)
  }

  /** The text `f64::to_string` gives for a float; the model takes it as given. */
  type FloatText = F64Bits -> string

  /**
   * The keys of `m` in the order `order` lists them, each once. A `HashMap`
   * visits every key exactly once; an order that lists every key of `m`
   * yields every key of `m`.
   */
  function Visit(order: seq<string>, m: map<string, Value>): (r: seq<string>)
    ensures forall i :: 0 <= i < |r| ==> r[i] in m
    ensures forall i, j :: 0 <= i < j < |r| ==> r[i] != r[j]
    ensures forall k :: k in order && k in m ==> k in r
    ensures forall k :: k in r ==> k in order
    ensures (forall k :: k in m ==> k in order) ==> forall k :: k in m <==> k in r
  {
    if order == [] then []
    else
      var rest := Visit(order[..|order| - 1], m);
      var k := order[|order| - 1];
      assert order == order[..|order| - 1] + [k];
      if k in m && k !in rest then rest + [k] else rest
  }

  /**
   * `to_string`: scalars in their natural text, `[a, b]` for arrays and
   * `{k: v, ...}` for objects, with fields in the map's iteration order.
   */
  function ToString(v: Value, floatText: FloatText, order: KeyOrder): (r: string)
    requires CompleteOrder(order)
    ensures v.Integer? ==> Text.ParseDecimal(r) == Some(v.num as int)
    ensures v.Array? ==> |r| >= 2 && r[0] == '[' && r[|r| - 1] == ']'
    ensures v.Object? ==> |r| >= 2 && r[0] == '{' && r[|r| - 1] == '}'
  {
    match v
    case String(s) => s
    case Integer(n) => Text.Decimal(n)
    case Float(f) => floatText(f)
    case Boolean(b) => if b then "true" else "false"
    case Array(xs) =>
      "[" + Text.Join(seq(|xs|, i requires 0 <= i < |xs| => ToString(xs[i], floatText, order)), ", ") + "]"
    case Object(m) =>
      var ks := Visit(order(m), m);
      "{" + Text.Join(seq(|ks|, i requires 0 <= i < |ks| => ks[i] + ": " + ToString(m[ks[i]], floatText, order)), ", ") + "}"
    case Null => "null"
  }

  /**
   * Scalars: a String renders as its payload, an Integer as decimal text that
   * reads back as the same number, a Boolean as `true` or `false`, Null as `null`.
   */
  lemma ScalarRendering(v: Value, floatText: FloatText, order: KeyOrder)
    requires CompleteOrder(order)
    ensures v.String? ==> ToString(v, floatText, order) == v.text
    ensures v.Integer? ==> Text.ParseDecimal(ToString(v, floatText, order)) == Some(v.num as int)
    ensures v.Boolean? ==> ToString(v, floatText, order) == if v.flag then "true" else "false"
    ensures v.Null? ==> ToString(v, floatText, order) == "null"
  {
  }

  /** The empty array renders as `[]` and the empty object as `{}`. */
  lemma EmptyRendering(floatText: FloatText, order: KeyOrder)
    requires CompleteOrder(order)
    ensures ToString(Array([]), floatText, order) == "[]"
    ensures ToString(Object(map[]), floatText, order) == "{}"
  {
  }

  /** An array of one element renders as that element in brackets. */
  lemma SingletonArrayRendering(x: Value, floatText: FloatText, order: KeyOrder)
    requires CompleteOrder(order)
    ensures ToString(Array([x]), floatText, order) == "[" + ToString(x, floatText, order) + "]"
  {
    var parts := seq(1, i requires 0 <= i < 1 => ToString([x][i], floatText, order));
    assert parts == [ToString(x, floatText, order)];
  }

  /**
   * Appending an element to a non-empty array inserts `, ` and the element's
   * rendering just before the closing bracket.
   */
  lemma ArrayAppendRendering(xs: seq<Value>, x: Value, floatText: FloatText, order: KeyOrder)
    requires CompleteOrder(order) && |xs| > 0
    ensures var before := ToString(Array(xs), floatText, order);
            |before| >= 2 &&
            ToString(Array(xs + [x]), floatText, order) == before[..|before| - 1] + ", " + ToString(x, floatText, order) + "]"
  {
    var ys := xs + [x];
    var parts := seq(|xs|, i requires 0 <= i < |xs| => ToString(xs[i], floatText, order));
    var partsY := seq(|ys|, i requires 0 <= i < |ys| => ToString(ys[i], floatText, order));
    assert partsY == parts + [ToString(x, floatText, order)];
    Text.JoinAppend(parts, ToString(x, floatText, order), ", ");
    var before := ToString(Array(xs), floatText, order);
    assert before == "[" + Text.Join(parts, ", ") + "]";
    assert before[..|before| - 1] == "[" + Text.Join(parts, ", ");
  }

  /** A sequence without repetitions has as many elements as the set of them. */
  lemma {:induction false} DistinctLength(xs: seq<string>, keys: set<string>)
    requires forall i, j :: 0 <= i < j < |xs| ==> xs[i] != xs[j]
    requires forall k :: k in keys <==> k in xs
    ensures |xs| == |keys|
  {
    if xs != [] {
      var last := xs[|xs| - 1];
      var front := xs[..|xs| - 1];
      assert forall k :: k in keys - {last} <==> k in front by {
        forall k ensures k in keys - {last} <==> k in front {
          if k in xs && k != last {
            var i :| 0 <= i < |xs| && xs[i] == k;
            assert front[i] == k;
          }
        }
      }
      DistinctLength(front, keys - {last});
    }
  }

  /** `ks` lists every key of `m`, nothing else, and none twice. */
  ghost predicate KeyListing(ks: seq<string>, m: map<string, Value>)
  {
    (forall k :: k in ks <==> k in m) &&
    (forall i, j :: 0 <= i < j < |ks| ==> ks[i] != ks[j])
  }

  /** The `key: rendering` item for each key of `ks`, in that order. */
  function FieldItems(ks: seq<string>, m: map<string, Value>, floatText: FloatText, order: KeyOrder): (items: seq<string>)
    requires CompleteOrder(order) && forall i :: 0 <= i < |ks| ==> ks[i] in m
    ensures |items| == |ks|
    ensures forall i :: 0 <= i < |ks| ==> Text.StartsWith(items[i], ks[i] + ": ")
  {
    seq(|ks|, i requires 0 <= i < |ks| => ks[i] + ": " + ToString(m[ks[i]], floatText, order))
  }

  /**
   * An object renders as `{`, then one `key: rendering` item per field,
   * joined by `, `, then `}`: every field appears exactly once, in some
   * order that lists all of them.
   */
  lemma ObjectRendering(m: map<string, Value>, floatText: FloatText, order: KeyOrder)
    requires CompleteOrder(order)
    ensures exists ks :: KeyListing(ks, m) && |ks| == |m| &&
              ToString(Object(m), floatText, order) == "{" + Text.Join(FieldItems(ks, m, floatText, order), ", ") + "}"
  {
    var ks := Visit(order(m), m);
    DistinctLength(ks, m.Keys);
    assert KeyListing(ks, m);
    assert FieldItems(ks, m, floatText, order)
        == seq(|ks|, i requires 0 <= i < |ks| => ks[i] + ": " + ToString(m[ks[i]], floatText, order));
  }

  /** An object with one field renders as `{key: rendering}`, whatever the iteration order. */
  lemma SingletonObjectRendering(k: string, x: Value, floatText: FloatText, order: KeyOrder)
    requires CompleteOrder(order)
    ensures ToString(Object(map[k := x]), floatText, order) == "{" + k + ": " + ToString(x, floatText, order) + "}"
  {
    var m := map[k := x];
    var ks := Visit(order(m), m);
    DistinctLength(ks, m.Keys);
    assert ks == [k] by {
      assert k in ks && |ks| == 1;
    }
    var items := seq(|ks|, i requires 0 <= i < |ks| => ks[i] + ": " + ToString(m[ks[i]], floatText, order));
    assert items == [k + ": " + ToString(x, floatText, order)];
  }
}
