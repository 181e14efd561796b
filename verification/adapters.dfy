/** Metafunctions and the adapters that build them: lifting an ordinary
    constexpr function, constant functions, partial application and
    invocation on the members of a list. */
module Adapters {
  import opened MetaTypes

  /** A metafunction: a template over a parameter pack of types. None means the
      instantiation has no valid expansion for these arguments. */
  type MetaFn = seq<Type> -> Option<Type>

  /** An ordinary constexpr function on the stored constants of its
      arguments. None means it is not invocable with these arguments. */
  type ValueFn = seq<int> -> Option<int>

  /** list<T...> itself, as a template over any number of types. */
  const ListOf: MetaFn := args => Some(List(args))

  /** id<T>: the identity metafunction, of exactly one argument. */
  const Id: MetaFn := args => if |args| == 1 then Some(args[0]) else None

  /** lift<F>::type<T...>: the metavalue of type `resultType` (the declared
      return type of F) holding F(T::value...), converted to that type as F's
      return statement converts it. Every argument must be a metavalue and F
      must accept their values. */
  function Lift(resultType: ValueType, f: ValueFn): MetaFn {
    args =>
      if !AllMetavalues(args) then None
      else match f(Values(args))
        case None => None
        case Some(x) => Some(Constant(resultType, ConvertTo(resultType, x)))
  }

  /** constant_fn<V>::type<...>: ignores any number of arguments. */
  function ConstantFn(v: Type): MetaFn {
    args => Some(v)
  }

  /** true_fn<...> and false_fn<...> */
  const TrueFn: MetaFn := args => Some(True)
  const FalseFn: MetaFn := args => Some(False)

  /** bind<F, A...>::type<T...>: F<A..., T...>, the fixed arguments first.
      It is None exactly when F<A..., T...> has no expansion. In C++ that
      failure shows only once the bound struct's value is read. */
  function Bind(f: MetaFn, fixed: seq<Type>): MetaFn {
    args => f(fixed + args)
  }

  /** invoke<F, L>: F applied to the members of L as its argument pack. */
  function Invoke(f: MetaFn, l: seq<Type>): Option<Type> {
    f(l)
  }

  /** arg_count<T...>: the number of its arguments, as a size metavalue. */
  const ArgCount: MetaFn := args => Some(SizeMv(|args|))

  /** An ordinary function of one constant, total on its argument. */
  function Unary(h: int -> int): ValueFn {
    vs => if |vs| == 1 then Some(h(vs[0])) else None
  }

  /** Unfolds a lifted function on one argument pack. */
  lemma LiftMeaning(resultType: ValueType, f: ValueFn, args: seq<Type>)
    ensures Lift(resultType, f)(args).Some?
        <==> AllMetavalues(args) && f(Values(args)).Some?
    ensures Lift(resultType, f)(args).Some? ==>
              Lift(resultType, f)(args).value
              == Constant(resultType, ConvertTo(resultType, f(Values(args)).value))
  {
  }

  /** A function lifted with declared result type bool always yields one of
      the canonical metavalues: bool_mv of its result converted to bool, that
      is, true_ or false_. */
  lemma LiftToBool(f: ValueFn, args: seq<Type>)
    ensures Lift(BoolType, f)(args).Some? ==>
              Lift(BoolType, f)(args).value == BoolMv(Truthy(f(Values(args)).value))
    ensures Lift(BoolType, f)(args).Some? ==>
              Lift(BoolType, f)(args).value == True || Lift(BoolType, f)(args).value == False
  {
    if Lift(BoolType, f)(args).Some? {
      LiftMeaning(BoolType, f, args);
    }
  }

  /** Lifting an ordinary function that ignores its arguments agrees with
      constant_fn on every pack of metavalues. */
  lemma LiftOfConstantIsConstantFn(resultType: ValueType, c: int, args: seq<Type>)
    requires AllMetavalues(args)
    ensures Lift(resultType, vs => Some(c))(args)
            == ConstantFn(Constant(resultType, ConvertTo(resultType, c)))(args)
  {
  }

  /** true_fn and false_fn are constant_fn of true_ and false_. */
  lemma TrueFalseFnAreConstant(args: seq<Type>)
    ensures TrueFn(args) == ConstantFn(True)(args) == Some(BoolMv(true))
    ensures FalseFn(args) == ConstantFn(False)(args) == Some(BoolMv(false))
  {
  }

  /** Binding arguments in two steps is binding their concatenation. */
  lemma BindTwice(f: MetaFn, a: seq<Type>, b: seq<Type>, rest: seq<Type>)
    ensures Bind(Bind(f, a), b)(rest) == Bind(f, a + b)(rest)
  {
    assert a + (b + rest) == (a + b) + rest;
  }
}
