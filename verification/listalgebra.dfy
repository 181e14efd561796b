/** The list algebra: length, concatenation, elementwise mapping and the
    decomposition of a list into its head, its tail and its elements. A list's
    members are given as a sequence of types. */
module ListAlgebra {
  import opened MetaTypes
  import opened Adapters
  import opened Interop

  /** length<L> = invoke<arg_count, L>: the size metavalue of the number of
      members of L. */
  function Length(l: seq<Type>): (r: Type)
    ensures r == SizeMv(|l|)
  {
    Invoke(ArgCount, l).value
  }

  /** length_v<L> */
  function LengthValue(l: seq<Type>): (n: nat)
    ensures n == |l|
  {
    Length(l).value
  }

  /** The members of all the lists, joined in argument order: the reference
      meaning of concat. */
  function Flatten(ls: seq<seq<Type>>): seq<Type> {
    if |ls| == 0 then [] else ls[0] + Flatten(ls[1..])
  }

  /** concat<L...> as the template specializations compute it: no list gives
      list<>, one list is returned unchanged, and otherwise the first five
      lists (when there are at least five, the more specialized rule) or the
      first two are joined into one and the rest follow. */
  function Concat(ls: seq<seq<Type>>): seq<Type>
    decreases |ls|
  {
    if |ls| == 0 then []
    else if |ls| == 1 then ls[0]
    else if |ls| >= 5 then Concat([ls[0] + ls[1] + ls[2] + ls[3] + ls[4]] + ls[5..])
    else Concat([ls[0] + ls[1]] + ls[2..])
  }

  /** concat without the five-at-a-time rule: the lists joined pairwise one
      by one. */
  function ConcatPairwise(ls: seq<seq<Type>>): seq<Type>
    decreases |ls|
  {
    if |ls| == 0 then []
    else if |ls| == 1 then ls[0]
    else ConcatPairwise([ls[0] + ls[1]] + ls[2..])
  }

  lemma {:induction false} FlattenAppend(a: seq<seq<Type>>, b: seq<seq<Type>>)
    ensures Flatten(a + b) == Flatten(a) + Flatten(b)
    decreases |a|
  {
    if |a| == 0 {
      assert a + b == b;
    } else {
      assert (a + b)[1..] == a[1..] + b;
      FlattenAppend(a[1..], b);
    }
  }

  /** Joining a prefix of the arguments into one list does not change the
      flattened result. */
  lemma JoinPrefix(ls: seq<seq<Type>>, k: nat)
    requires k <= |ls|
    ensures Flatten([Flatten(ls[..k])] + ls[k..]) == Flatten(ls)
  {
    assert ls == ls[..k] + ls[k..];
    FlattenAppend(ls[..k], ls[k..]);
    assert ([Flatten(ls[..k])] + ls[k..])[1..] == ls[k..];
  }

  lemma FlattenFive(ls: seq<seq<Type>>)
    requires |ls| == 5
    ensures Flatten(ls) == ls[0] + ls[1] + ls[2] + ls[3] + ls[4]
  {
    var t := ls[1..];
    assert t[1..] == ls[2..];
    assert ls[2..][1..] == ls[3..];
    assert ls[3..][1..] == ls[4..];
    assert ls[4..][1..] == [];
    calc {
      Flatten(ls);
      ls[0] + Flatten(ls[1..]);
      ls[0] + (ls[1] + Flatten(ls[2..]));
      ls[0] + (ls[1] + (ls[2] + Flatten(ls[3..])));
      ls[0] + (ls[1] + (ls[2] + (ls[3] + Flatten(ls[4..]))));
      ls[0] + (ls[1] + (ls[2] + (ls[3] + (ls[4] + Flatten(ls[4..][1..])))));
      ls[0] + ls[1] + ls[2] + ls[3] + ls[4];
    }
  }

  lemma FlattenTwo(ls: seq<seq<Type>>)
    requires |ls| == 2
    ensures Flatten(ls) == ls[0] + ls[1]
  {
    assert ls[1..][1..] == [];
    calc {
      Flatten(ls);
      ls[0] + Flatten(ls[1..]);
      ls[0] + (ls[1] + Flatten(ls[1..][1..]));
      ls[0] + ls[1];
    }
  }

  /** The batched concat joins its arguments in order. */
  lemma {:induction false} ConcatIsFlatten(ls: seq<seq<Type>>)
    ensures Concat(ls) == Flatten(ls)
    decreases |ls|
  {
    if |ls| == 0 {
    } else if |ls| == 1 {
      assert ls[1..] == [];
    } else if |ls| >= 5 {
      FlattenFive(ls[..5]);
      JoinPrefix(ls, 5);
      ConcatIsFlatten([ls[0] + ls[1] + ls[2] + ls[3] + ls[4]] + ls[5..]);
    } else {
      FlattenTwo(ls[..2]);
      JoinPrefix(ls, 2);
      ConcatIsFlatten([ls[0] + ls[1]] + ls[2..]);
    }
  }

  /** Pairwise joining also joins the arguments in order. */
  lemma {:induction false} ConcatPairwiseIsFlatten(ls: seq<seq<Type>>)
    ensures ConcatPairwise(ls) == Flatten(ls)
    decreases |ls|
  {
    if |ls| == 0 {
    } else if |ls| == 1 {
      assert ls[1..] == [];
    } else {
      FlattenTwo(ls[..2]);
      JoinPrefix(ls, 2);
      ConcatPairwiseIsFlatten([ls[0] + ls[1]] + ls[2..]);
    }
  }

  /** The five-at-a-time rule is a pure batching: it yields the same list as
      joining pairwise. */
  lemma BatchedConcatAgreesWithPairwise(ls: seq<seq<Type>>)
    ensures Concat(ls) == ConcatPairwise(ls)
  {
    ConcatIsFlatten(ls);
    ConcatPairwiseIsFlatten(ls);
  }

  /** concat of no lists is list<>, of one list is that list, of two lists is
      their members in order. */
  lemma ConcatSmall(a: seq<Type>, b: seq<Type>)
    ensures Concat([]) == []
    ensures Concat([a]) == a
    ensures Concat([a, b]) == a + b
  {
    assert [a + b] + [a, b][2..] == [a + b];
  }

  /** concat is associative: concatenating the results of two concats is one
      concat of all their arguments, and the empty list is an identity. */
  lemma ConcatAssociative(xs: seq<seq<Type>>, ys: seq<seq<Type>>, a: seq<Type>)
    ensures Concat([Concat(xs), Concat(ys)]) == Concat(xs + ys)
    ensures Concat([Concat([]), a]) == a && Concat([a, Concat([])]) == a
  {
    ConcatIsFlatten(xs);
    ConcatIsFlatten(ys);
    ConcatIsFlatten(xs + ys);
    FlattenAppend(xs, ys);
    ConcatSmall(Concat(xs), Concat(ys));
    ConcatSmall([], a);
    ConcatSmall(a, []);
  }

  /** The length of a concat is the sum of the lengths of its arguments. */
  lemma {:induction false} LengthOfConcat(ls: seq<seq<Type>>, a: seq<Type>, b: seq<Type>)
    ensures Length(Concat(ls)) == SizeMv(SumOfLengths(ls))
    ensures LengthValue(Concat([a, b])) == LengthValue(a) + LengthValue(b)
    ensures Length([]) == SizeMv(0)
  {
    ConcatIsFlatten(ls);
    FlattenLength(ls);
    ConcatSmall(a, b);
  }

  function SumOfLengths(ls: seq<seq<Type>>): nat {
    if |ls| == 0 then 0 else |ls[0]| + SumOfLengths(ls[1..])
  }

  lemma {:induction false} FlattenLength(ls: seq<seq<Type>>)
    ensures |Flatten(ls)| == SumOfLengths(ls)
    decreases |ls|
  {
    if |ls| > 0 {
      FlattenLength(ls[1..]);
    }
  }

  /** map<F, L>: F applied to each member of L on its own. It has a valid
      expansion exactly when every F<T> does, and then it has L's length and
      F<L[i]> at position i. */
  function Map(f: MetaFn, l: seq<Type>): (r: Option<seq<Type>>)
    ensures r.Some? <==> forall i :: 0 <= i < |l| ==> f([l[i]]).Some?
    ensures r.Some? ==> |r.value| == |l|
    ensures r.Some? ==> forall i :: 0 <= i < |l| ==> r.value[i] == f([l[i]]).value
    decreases |l|
  {
    if |l| == 0 then Some([])
    else
      match (f([l[0]]), Map(f, l[1..]))
      case (Some(x), Some(xs)) => Some([x] + xs)
      case _ => None
  }

  /** Invoking a bound metafunction on a list is invoking the original one on
      the concat of the fixed arguments and the list; binding twice concats
      all three. Invoking list<> rebuilds the list, and invoking a bound
      arg_count yields the length of that concat. */
  lemma InvokeBoundConcat(f: MetaFn, a: seq<Type>, b: seq<Type>, l: seq<Type>)
    ensures Invoke(Bind(f, a), l) == Invoke(f, Concat([a, l]))
    ensures Invoke(Bind(Bind(f, a), b), l) == Invoke(f, Concat([a, b, l]))
    ensures Invoke(Bind(ArgCount, a), l) == Some(Length(Concat([a, l])))
    ensures Invoke(ListOf, Concat([a, l])) == Some(List(a + l))
  {
    ConcatSmall(a, l);
    ConcatIsFlatten([a, b, l]);
    var ls := [a, b, l];
    assert ls[1..] == [b, l];
    assert ls[1..][1..] == [l];
    assert ls[1..][1..][1..] == [];
    calc {
      Flatten(ls);
      a + Flatten(ls[1..]);
      a + (b + Flatten(ls[1..][1..]));
      a + (b + (l + Flatten(ls[1..][1..][1..])));
      a + (b + l);
    }
    assert a + (b + l) == (a + b) + l;
  }

  /** Lifting a unary function and mapping it over the metavalues of a
      sequence is the same as applying the function to each constant, taking
      the result type's conversion, and converting back to a list. */
  lemma MapLiftOverSequence(resultType: ValueType, h: int -> int, s: IntegerSequence)
    ensures Map(Lift(resultType, Unary(h)), SequenceToList(s))
         == Some(SequenceToList(IntegerSequence(resultType,
              seq(|s.values|, i requires 0 <= i < |s.values| => ConvertTo(resultType, h(s.values[i]))))))
  {
    var l := SequenceToList(s);
    var out := seq(|s.values|, i requires 0 <= i < |s.values| => ConvertTo(resultType, h(s.values[i])));
    var expected := SequenceToList(IntegerSequence(resultType, out));
    forall i | 0 <= i < |l|
      ensures Lift(resultType, Unary(h))([l[i]]) == Some(expected[i])
    {
      assert l[i].value == Values(l)[i] == s.values[i];
      assert [l[i]][0] == l[i];
      assert Values([l[i]]) == [s.values[i]];
      assert expected[i].value == Values(expected)[i] == out[i];
    }
    var m := Map(Lift(resultType, Unary(h)), l);
    assert m.value == expected;
  }

  /** Mapping the identity metafunction gives the list back; mapping a
      constant function gives that constant at every position. */
  lemma MapIdAndConstant(l: seq<Type>, v: Type)
    ensures Map(Id, l) == Some(l)
    ensures Map(ConstantFn(v), l) == Some(seq(|l|, i => v))
  {
    var m := Map(Id, l);
    assert forall i :: 0 <= i < |l| ==> Id([l[i]]) == Some(l[i]);
    assert m.value == l;
    var c := Map(ConstantFn(v), l);
    assert forall i :: 0 <= i < |l| ==> ConstantFn(v)([l[i]]) == Some(v);
    assert c.value == seq(|l|, i => v);
  }

  lemma MapAppend(f: MetaFn, a: seq<Type>, b: seq<Type>)
    ensures Map(f, a + b).Some? <==> Map(f, a).Some? && Map(f, b).Some?
    ensures Map(f, a + b).Some? ==> Map(f, a + b).value == Map(f, a).value + Map(f, b).value
  {
    var ab := a + b;
    var mab := Map(f, ab);
    if mab.Some? {
      forall i | 0 <= i < |a| ensures f([a[i]]).Some? {
        assert ab[i] == a[i];
      }
      forall i | 0 <= i < |b| ensures f([b[i]]).Some? {
        assert ab[|a| + i] == b[i];
      }
      var r := Map(f, a).value + Map(f, b).value;
      forall i | 0 <= i < |ab| ensures mab.value[i] == r[i] {
        if i < |a| {
          assert ab[i] == a[i];
        } else {
          assert ab[i] == b[i - |a|];
        }
      }
      assert mab.value == r;
    }
  }

  /** Mapping distributes over concatenation. */
  lemma MapConcat(f: MetaFn, a: seq<Type>, b: seq<Type>)
    ensures Map(f, Concat([a, b])).Some? <==> Map(f, a).Some? && Map(f, b).Some?
    ensures Map(f, Concat([a, b])).Some? ==>
              Map(f, Concat([a, b])).value == Map(f, a).value + Map(f, b).value
  {
    ConcatSmall(a, b);
    MapAppend(f, a, b);
  }

  /** car<L>: the first member of a non-empty L. */
  function Car(l: seq<Type>): (r: Type)
    requires |l| > 0
    ensures r in l
  {
    l[0]
  }

  /** cdr<L>: a non-empty L without its first member, order kept. */
  function Cdr(l: seq<Type>): (r: seq<Type>)
    requires |l| > 0
    ensures |r| == |l| - 1
  {
    l[1..]
  }

  /** A non-empty list is its car followed by its cdr. */
  lemma CarCdr(l: seq<Type>)
    requires |l| > 0
    ensures [Car(l)] + Cdr(l) == l
    ensures Car(l) == l[0]
    ensures forall i :: 0 <= i < |Cdr(l)| ==> Cdr(l)[i] == l[i + 1]
  {
  }

  /** get<I, L>: the I-th member of L, defined only for I below L's length,
      reached by dropping the head I times. */
  function Get(i: nat, l: seq<Type>): (r: Type)
    requires i < |l|
    ensures r == l[i]
    decreases i
  {
    if i == 0 then Car(l) else Get(i - 1, Cdr(l))
  }
}
