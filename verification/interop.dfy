/** Conversion between std::integer_sequence and lists of metavalues. */
module Interop {
  import opened MetaTypes

  /** std::integer_sequence<valueType, values...>. Only this template is
      modelled: list_to_sequence always builds a std::integer_sequence. */
  datatype IntegerSequence = IntegerSequence(valueType: ValueType, values: seq<int>)

  /** The requirement list_to_sequence puts on its argument: every element is
      a metavalue, and all share the value type of the first. */
  predicate Homogeneous(l: seq<Type>) {
    |l| == 0 || (l[0].Constant? && SharesValueType(l, l[0].valueType))
  }

  /** sequence_to_list<S>: one metavalue per constant, in order, each with the
      sequence's value type. */
  function SequenceToList(s: IntegerSequence): (l: seq<Type>)
    ensures SharesValueType(l, s.valueType)
    ensures Homogeneous(l)
    ensures Values(l) == s.values
  {
    seq(|s.values|, i requires 0 <= i < |s.values| => Constant(s.valueType, s.values[i]))
  }

  /** list_to_sequence<L>: the constants of L in order, typed by the value
      type of L's first element. The empty list gives, by convention, an
      empty sequence of std::size_t. */
  function ListToSequence(l: seq<Type>): (s: IntegerSequence)
    requires Homogeneous(l)
    ensures |l| > 0 ==> SharesValueType(l, s.valueType)
    ensures |l| == 0 ==> s == IntegerSequence(SizeType, [])
    ensures s.values == Values(l)
  {
    if |l| == 0 then IntegerSequence(SizeType, [])
    else IntegerSequence(l[0].valueType, Values(l))
  }

  /** Converting a std::integer_sequence to a list and back gives it again,
      value type included, except that an empty sequence comes back typed
      std::size_t. */
  lemma SequenceRoundTrip(s: IntegerSequence)
    ensures ListToSequence(SequenceToList(s)).values == s.values
    ensures |s.values| > 0 || s.valueType == SizeType
            <==> ListToSequence(SequenceToList(s)) == s
  {
  }

  /** Converting a homogeneous list of metavalues to a sequence and back
      gives the list again. */
  lemma ListRoundTrip(l: seq<Type>)
    requires Homogeneous(l)
    ensures SequenceToList(ListToSequence(l)) == l
  {
    var back := SequenceToList(ListToSequence(l));
    assert |back| == |l|;
    forall i | 0 <= i < |l|
      ensures back[i] == l[i]
    {
      assert back[i].value == Values(back)[i];
    }
  }
}
