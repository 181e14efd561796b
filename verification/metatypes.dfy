/** The universe of C++ types that the list algebra manipulates as values, and
    the metavalues (std::integral_constant) it uses to carry constants. */
module MetaTypes {

  /** The outcome of instantiating a template: None when the compiler finds no
      valid expansion (the program is rejected), Some otherwise. */
  datatype Option<+T> = None | Some(value: T)

  /** The value type of an integral constant. bool and std::size_t have tags of
      their own; every other integral type is known by its name. IntegralType
      never names bool, nor the type that std::size_t aliases, so each C++
      value type has exactly one representation. */
  datatype ValueType = BoolType | SizeType | IntegralType(name: string)

  /** A type, seen as a value:
      - Atom: an opaque user type such as int or float;
      - Constant: the metavalue std::integral_constant<valueType, value>
        (a bool constant C++ can form holds 0 or 1; the datatype does not
        enforce it);
      - List: mp::list<items...>. */
  datatype Type =
    | Atom(name: string)
    | Constant(valueType: ValueType, value: int)
    | List(items: seq<Type>)

  /** The truth value of an integral constant converted to bool. */
  predicate Truthy(x: int) {
    x != 0
  }

  /** bool_mv<b> */
  function BoolMv(b: bool): (r: Type)
    ensures r.Constant? && r.valueType == BoolType
    ensures Truthy(r.value) <==> b
    ensures r.value == 0 || r.value == 1
  {
    Constant(BoolType, if b then 1 else 0)
  }

  /** size_mv<n> */
  function SizeMv(n: nat): Type {
    Constant(SizeType, n)
  }

  /** true_ and false_ */
  const True: Type := BoolMv(true)
  const False: Type := BoolMv(false)

  /** The implicit conversion of an integral value to the value type `target`,
      as happens when a constant is bound to a parameter of that type. A
      conversion to bool maps every nonzero value to true; conversions between
      other integral types are taken as value-preserving. */
  function ConvertTo(target: ValueType, x: int): int {
    if target == BoolType then (if Truthy(x) then 1 else 0) else x
  }

  /** Every element is a metavalue. */
  predicate AllMetavalues(l: seq<Type>) {
    forall i :: 0 <= i < |l| ==> l[i].Constant?
  }

  /** Every element is a metavalue whose value type is `vt`. */
  predicate SharesValueType(l: seq<Type>, vt: ValueType) {
    forall i :: 0 <= i < |l| ==> l[i].Constant? && l[i].valueType == vt
  }

  /** The stored constants of a list of metavalues, in order. */
  function Values(l: seq<Type>): (vs: seq<int>)
    requires AllMetavalues(l)
    ensures |vs| == |l|
    ensures forall i :: 0 <= i < |l| ==> vs[i] == l[i].value
  {
    seq(|l|, i requires 0 <= i < |l| => l[i].value)
  }
}
