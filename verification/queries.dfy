/** The query layer: counting, membership, uniformity checks and the set
    test, each built by composing the list algebra and the adapters. */
module Queries {
  import opened MetaTypes
  import opened Adapters
  import opened ListAlgebra

  /** The positions of L that hold T: the reference meaning of count. */
  function Positions(l: seq<Type>, t: Type): set<int> {
    set i | 0 <= i < |l| && l[i] == t
  }

  /** No member occurs twice. */
  predicate NoDuplicates(l: seq<Type>) {
    forall i, j :: 0 <= i < j < |l| ==> l[i] != l[j]
  }

  /** count_v<L, T>: the fold (0 + ... + (is_same_v<Ts, T> ? 1 : 0)), which
      adds the members' contributions from the left. */
  function Count(l: seq<Type>, t: Type): (n: nat)
    ensures n <= |l|
    decreases |l|
  {
    if |l| == 0 then 0
    else Count(l[..|l| - 1], t) + (if l[|l| - 1] == t then 1 else 0)
  }

  /** count<L, T> as the size metafunction of two arguments, the first a
      list; any other arguments have no valid expansion. */
  const CountFn: MetaFn :=
    (args: seq<Type>) => if |args| == 2 && args[0].List? then Some(SizeMv(Count(args[0].items, args[1]))) else None

  /** Extending a list by one member extends its positions of T by that
      member's position exactly when it is T. */
  lemma PositionsSnoc(l: seq<Type>, t: Type)
    requires |l| > 0
    ensures Positions(l, t)
         == Positions(l[..|l| - 1], t) + (if l[|l| - 1] == t then {|l| - 1} else {})
  {
  }

  /** count is the number of positions holding T. */
  lemma {:induction false} CountIsPositions(l: seq<Type>, t: Type)
    ensures Count(l, t) == |Positions(l, t)|
    decreases |l|
  {
    if |l| > 0 {
      var n := |l| - 1;
      CountIsPositions(l[..n], t);
      PositionsSnoc(l, t);
      assert n !in Positions(l[..n], t);
    }
  }

  /** count as a metafunction agrees with count_v on any list and type. */
  lemma CountFnMeaning(l: seq<Type>, t: Type)
    ensures CountFn([List(l), t]) == Some(SizeMv(|Positions(l, t)|))
  {
    CountIsPositions(l, t);
  }

  /** contains_impl<L, T>::value: the fold (false || ... || is_same_v<Ts, T>). */
  function ContainsOne(l: seq<Type>, t: Type): (r: bool)
    ensures r <==> t in l
    decreases |l|
  {
    if |l| == 0 then false
    else
      assert l == l[..|l| - 1] + [l[|l| - 1]];
      ContainsOne(l[..|l| - 1], t) || l[|l| - 1] == t
  }

  /** contains_v<L, T...>: the fold (true && ... && contains_impl<L, T>::value)
      over the queried types, so vacuously true when none is queried. */
  function Contains(l: seq<Type>, ts: seq<Type>): (r: bool)
    ensures r <==> forall i :: 0 <= i < |ts| ==> ts[i] in l
    decreases |ts|
  {
    if |ts| == 0 then true
    else Contains(l, ts[..|ts| - 1]) && ContainsOne(l, ts[|ts| - 1])
  }

  /** A list contains T exactly when T occurs at a positive number of positions. */
  lemma ContainsIffCountPositive(l: seq<Type>, t: Type)
    ensures ContainsOne(l, t) <==> Count(l, t) > 0
    ensures Contains(l, [t]) <==> Count(l, t) > 0
  {
    CountIsPositions(l, t);
    if t in l {
      var i :| 0 <= i < |l| && l[i] == t;
      assert i in Positions(l, t);
    } else {
      assert Positions(l, t) == {};
    }
  }

  /** all_are_v<L, T>: length<L>::value == count<L, T>::value. */
  function AllAre(l: seq<Type>, t: Type): bool {
    LengthValue(l) == Count(l, t)
  }

  /** A list's count of T reaches its length exactly when every member is T. */
  lemma {:induction false} CountFull(l: seq<Type>, t: Type)
    ensures Count(l, t) == |l| <==> forall i :: 0 <= i < |l| ==> l[i] == t
    decreases |l|
  {
    if |l| > 0 {
      var n := |l| - 1;
      CountFull(l[..n], t);
      assert forall i :: 0 <= i < n ==> l[..n][i] == l[i];
    }
  }

  /** all_are holds exactly when every member of the list is T. */
  lemma AllAreIff(l: seq<Type>, t: Type)
    ensures AllAre(l, t) <==> forall i :: 0 <= i < |l| ==> l[i] == t
  {
    CountFull(l, t);
  }

  /** detail::value_equals<V>: true exactly when its one argument, converted to
      V's value type, equals V's value. */
  function ValueEquals(vt: ValueType, target: int): ValueFn {
    vs => if |vs| == 1 then Some(if ConvertTo(vt, vs[0]) == target then 1 else 0) else None
  }

  /** all_values_are_v<L, V>: all_are_v<map<lift<value_equals<V>>::type, L>, true_>.
      It has no valid expansion when some member of L is not a metavalue. */
  function AllValuesAre(l: seq<Type>, v: Type): Option<bool>
    requires v.Constant?
  {
    match Map(Lift(BoolType, ValueEquals(v.valueType, v.value)), l)
    case None => None
    case Some(m) => Some(AllAre(m, True))
  }

  /** Lifting value_equals<V> and applying it to one member yields the bool
      metavalue of the comparison, or fails when the member is not a metavalue. */
  lemma LiftedValueEquals(v: Type, x: Type)
    requires v.Constant?
    ensures Lift(BoolType, ValueEquals(v.valueType, v.value))([x]).Some? <==> x.Constant?
    ensures x.Constant? ==>
              Lift(BoolType, ValueEquals(v.valueType, v.value))([x]).value
              == BoolMv(ConvertTo(v.valueType, x.value) == v.value)
  {
    assert [x][0] == x;
    assert AllMetavalues([x]) <==> x.Constant?;
    if x.Constant? {
      assert Values([x]) == [x.value];
    }
  }

  /** all_values_are is defined exactly on lists of metavalues, and then holds
      exactly when every member's value, converted to V's value type, is V's
      value. */
  lemma AllValuesAreMeaning(l: seq<Type>, v: Type)
    requires v.Constant?
    ensures AllValuesAre(l, v).Some? <==> AllMetavalues(l)
    ensures AllValuesAre(l, v).Some? ==>
              (AllValuesAre(l, v).value
               <==> forall i :: 0 <= i < |l| ==> ConvertTo(v.valueType, l[i].value) == v.value)
  {
    var g := Lift(BoolType, ValueEquals(v.valueType, v.value));
    forall i | 0 <= i < |l|
      ensures g([l[i]]).Some? <==> l[i].Constant?
      ensures l[i].Constant? ==> g([l[i]]).value == BoolMv(ConvertTo(v.valueType, l[i].value) == v.value)
    {
      LiftedValueEquals(v, l[i]);
    }
    var m := Map(g, l);
    if m.Some? {
      AllAreIff(m.value, True);
      assert forall i :: 0 <= i < |l| ==>
               (m.value[i] == True <==> ConvertTo(v.valueType, l[i].value) == v.value);
    }
  }

  /** all_of_v<L, F>: all_values_are_v<map<F, L>, true_>. It has no valid
      expansion when F has none on some member or yields a non-metavalue. */
  function AllOf(l: seq<Type>, f: MetaFn): Option<bool> {
    match Map(f, l)
    case None => None
    case Some(m) => AllValuesAre(m, True)
  }

  /** all_of is defined exactly when F yields a metavalue on every member, and
      then holds exactly when every such metavalue converts to true. */
  lemma AllOfMeaning(l: seq<Type>, f: MetaFn)
    ensures AllOf(l, f).Some?
        <==> forall i :: 0 <= i < |l| ==> f([l[i]]).Some? && f([l[i]]).value.Constant?
    ensures AllOf(l, f).Some? ==>
              (AllOf(l, f).value <==> forall i :: 0 <= i < |l| ==> Truthy(f([l[i]]).value.value))
  {
    var m := Map(f, l);
    if m.Some? {
      AllValuesAreMeaning(m.value, True);
      assert forall i :: 0 <= i < |l| ==> m.value[i] == f([l[i]]).value;
    }
  }

  /** true_fn holds of every member; false_fn only of the empty list. */
  lemma AllOfConstantPredicates(l: seq<Type>)
    ensures AllOf(l, TrueFn) == Some(true)
    ensures AllOf(l, FalseFn) == Some(|l| == 0)
  {
    AllOfMeaning(l, TrueFn);
    AllOfMeaning(l, FalseFn);
    if |l| > 0 {
      assert !Truthy(FalseFn([l[0]]).value.value);
    }
  }

  /** map<bind<count, L>::type, L> has a valid expansion: the size metavalue of
      each member's count, position by position. */
  lemma MemberCounts(l: seq<Type>)
    ensures Map(Bind(CountFn, [List(l)]), l).Some?
    ensures |Map(Bind(CountFn, [List(l)]), l).value| == |l|
    ensures AllMetavalues(Map(Bind(CountFn, [List(l)]), l).value)
    ensures forall i :: 0 <= i < |l| ==>
              Map(Bind(CountFn, [List(l)]), l).value[i] == SizeMv(Count(l, l[i]))
  {
    forall i | 0 <= i < |l|
      ensures Bind(CountFn, [List(l)])([l[i]]) == Some(SizeMv(Count(l, l[i])))
    {
      assert [List(l)] + [l[i]] == [List(l), l[i]];
    }
  }

  /** is_a_set_v<L>: all_values_are_v<map<bind<count, L>::type, L>, size_mv<1>>.
      It holds exactly when no member of L occurs twice in L. */
  function IsASet(l: seq<Type>): (r: bool)
    ensures r <==> NoDuplicates(l)
  {
    MemberCounts(l);
    var counts := Map(Bind(CountFn, [List(l)]), l).value;
    AllValuesAreMeaning(counts, SizeMv(1));
    assert forall i :: 0 <= i < |l| ==> counts[i].value == Count(l, l[i]);
    CountsOneIffNoDuplicates(l);
    AllValuesAre(counts, SizeMv(1)).value
  }

  /** Every member occurs exactly once exactly when no member occurs twice. */
  lemma CountsOneIffNoDuplicates(l: seq<Type>)
    ensures (forall i :: 0 <= i < |l| ==> Count(l, l[i]) == 1) <==> NoDuplicates(l)
  {
    if NoDuplicates(l) {
      forall i | 0 <= i < |l|
        ensures Count(l, l[i]) == 1
      {
        CountIsPositions(l, l[i]);
        assert Positions(l, l[i]) == {i};
      }
    } else {
      var i, j :| 0 <= i < j < |l| && l[i] == l[j];
      CountIsPositions(l, l[i]);
      var p := Positions(l, l[i]);
      assert {i, j} <= p;
      assert p == {i, j} + (p - {i, j});
      assert |{i, j}| == 2;
      assert Count(l, l[i]) != 1;
    }
  }

  /** is_a_set holds exactly when every member is counted once, as its
      definition through count intends; in particular it holds of the empty
      list. */
  lemma IsASetCountsOnce(l: seq<Type>)
    ensures IsASet(l) <==> forall i :: 0 <= i < |l| ==> Count(l, l[i]) == 1
    ensures IsASet([])
  {
    CountsOneIffNoDuplicates(l);
  }
}
