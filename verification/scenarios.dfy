/** Worked instances of the list algebra on concrete lists. */
module Scenarios {
  import opened MetaTypes
  import opened Adapters
  import opened ListAlgebra
  import opened Queries

  const Int: Type := Atom("int")
  const Float: Type := Atom("float")

  /** In list<int, float, int>, int occurs twice and float is present, so the
      list is not a set. */
  lemma CountContainsSet()
    ensures Count([Int, Float, Int], Int) == 2
    ensures Contains([Int, Float, Int], [Float])
    ensures !IsASet([Int, Float, Int])
  {
    var l := [Int, Float, Int];
    assert l[..2] == [Int, Float];
    assert [Int, Float][..1] == [Int];
    assert [Int][..0] == [];
    assert Count([Int], Int) == 1;
    assert Count([Int, Float], Int) == 1;
    assert Count(l, Int) == Count([Int, Float], Int) + 1;
    assert Float in l;
    assert l[0] == l[2];
  }

  /** concat<list<A>, list<>, list<B, C>> is list<A, B, C>. */
  lemma ConcatThree(a: Type, b: Type, c: Type)
    ensures Concat([[a], [], [b, c]]) == [a, b, c]
  {
    var ls := [[a], [], [b, c]];
    assert ls[0] + ls[1] == [a];
    assert ls[2..] == [[b, c]];
    assert [ls[0] + ls[1]] + ls[2..] == [[a], [b, c]];
    ConcatSmall([a], [b, c]);
  }

  /** The ordinary doubling function on ints. */
  const Double: ValueFn := vs => if |vs| == 1 then Some(2 * vs[0]) else None

  /** Mapping the lifted doubling function over the int metavalues 3 and 4
      gives the int metavalues 6 and 8. */
  lemma MapLiftedDouble()
    ensures Map(Lift(IntegralType("int"), Double),
                [Constant(IntegralType("int"), 3), Constant(IntegralType("int"), 4)])
            == Some([Constant(IntegralType("int"), 6), Constant(IntegralType("int"), 8)])
  {
    var vt := IntegralType("int");
    var l := [Constant(vt, 3), Constant(vt, 4)];
    LiftMeaning(vt, Double, [l[0]]);
    LiftMeaning(vt, Double, [l[1]]);
    assert Values([l[0]]) == [3];
    assert Values([l[1]]) == [4];
    var m := Map(Lift(vt, Double), l);
    assert m.Some?;
    assert m.value[0] == Constant(vt, 6) && m.value[1] == Constant(vt, 8);
    assert m.value == [Constant(vt, 6), Constant(vt, 8)];
  }

  /** constexpr bool nz(int x) { return x; }: its int result converts to bool
      on return. */
  const NonZero: ValueFn := Unary(x => x)

  /** Lifting nz over the int metavalue 5 gives true_, so all_of with it holds
      of list<integral_constant<int, 5>>. */
  lemma LiftedNonzeroIsTrue()
    ensures Lift(BoolType, NonZero)([Constant(IntegralType("int"), 5)]) == Some(True)
    ensures AllOf([Constant(IntegralType("int"), 5)], Lift(BoolType, NonZero)) == Some(true)
  {
    var x := Constant(IntegralType("int"), 5);
    assert Values([x]) == [5];
    LiftMeaning(BoolType, NonZero, [x]);
    AllOfMeaning([x], Lift(BoolType, NonZero));
  }
}
