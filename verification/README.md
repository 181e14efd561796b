# mp: a compile-time list algebra over C++ types, modelled in Dafny

`mp.h` manipulates lists of C++ types entirely at compile time. This project
reads those templates as ordinary data and functions:

- a C++ type is a value of `MetaTypes.Type`: an opaque user type (`Atom`), a
  metavalue `std::integral_constant<vt, v>` (`Constant`), or an `mp::list`
  (`List`);
- a list's members are a `seq<Type>`;
- a metafunction (a template over a parameter pack) is a Dafny function
  `seq<Type> -> Option<Type>`, where `None` stands for "no valid expansion",
  that is, the program is rejected;
- an ordinary `constexpr` function handed to `lift` is a function
  `seq<int> -> Option<int>` together with its declared result type;
- `std::integer_sequence<vt, v...>` is `Interop.IntegerSequence(vt, [v...])`;
- a value type is `MetaTypes.ValueType`: `bool` and `std::size_t` have tags of
  their own, and `IntegralType(name)` never names either of them, so each C++
  value type has one representation.

The modules follow the layers of the header:

- `MetaTypes` (metatypes.dfy) holds the type universe, `bool_mv`, `size_mv`,
  `true_`/`false_` and the implicit integral conversion used by `value_equals`
  and by a lifted function's return.
- `Adapters` (adapters.dfy) holds `id`, `lift`, `constant_fn`,
  `true_fn`/`false_fn`, `bind`, `invoke` and `arg_count`.
- `Interop` (interop.dfy) holds `sequence_to_list` and `list_to_sequence`.
- `ListAlgebra` (listalgebra.dfy) holds `length`, `concat` (with the pairwise
  and five-at-a-time rules), `map`, `car`, `cdr` and `get`.
- `Queries` (queries.dfy) holds `count`, `contains`, `all_are`, `value_equals`,
  `all_values_are`, `all_of` and `is_a_set`.
- `Scenarios` (scenarios.dfy) holds worked instances on concrete lists.

Errors are modelled in two ways:

- `car`, `cdr` and `get` on a list that is too short, `list_to_sequence`
  on a mixed list, and `all_values_are` given a V without `value_type` (the
  `value_equals<V>` it instantiates needs one) are `requires` clauses. The
  header makes these the caller's obligation: a missing specialization, a
  `static_assert`, or a V that must be a metavalue.
- A metafunction that has no expansion for its arguments yields `None`. This
  covers a list member that is not a metavalue in `all_values_are`, and an
  `F` that fails on some member in `map` or `all_of`. `None` propagates.

The header's doc comments are loose about the following; the model follows
the code:

- `all_values_are` does not require the members to share V's value type.
  `value_equals<V>` takes a `V::value_type`, so each member's value is
  implicitly converted to that type before the comparison.
- A lifted function's result is converted to its declared return type, as
  its `return` statement converts it: a function declared to return bool
  that returns the int 5 yields `true_`.
- Likewise, `all_of` accepts any metavalue that converts to `true`, not only
  `true_`. For example, `integral_constant<int, 2>` counts as true.

## Model

| member | source | states |
|---|---|---|
| MetaTypes.BoolMv | mp.h:18-26 | `bool_mv<b>` is a metavalue of value type bool whose value converts to true exactly when b holds |
| Adapters.LiftToBool | mp.h:36-44 | `Adapters.Lift` models `lift`; a function lifted with declared result type bool yields `bool_mv` of its result converted to bool, so always `true_` or `false_` |
| Adapters.LiftOfConstantIsConstantFn | mp.h:36-51 | lifting a function that ignores its arguments agrees, on every pack of metavalues, with `constant_fn` of that constant converted to the result type |
| Adapters.TrueFalseFnAreConstant | mp.h:46-59 | `true_fn` and `false_fn` yield `true_` and `false_` for every argument pack, as `constant_fn<true_>` and `constant_fn<false_>` do |
| Adapters.BindTwice | mp.h:116-120 | `Adapters.Bind` models `bind`; binding A and then B is binding A followed by B, fixed arguments first and in order |
| ListAlgebra.Length | mp.h:126-128 | `length<L>`, computed by invoking `arg_count` on L's members, is `size_mv` of the member count |
| ListAlgebra.LengthValue | mp.h:130-132 | `length_v<L>` is the member count |
| Interop.SequenceToList | mp.h:63-75 | every member of the result is a metavalue of the sequence's value type, and their values are the sequence's constants in order |
| Interop.ListToSequence | mp.h:77-98 | the result holds the list's values in order, typed by the members' shared value type; an empty list gives an empty `size_t` sequence; mixed lists are excluded |
| Interop.SequenceRoundTrip | mp.h:66-92 | for a `std::integer_sequence` S, `list_to_sequence(sequence_to_list(S))` gives back S's values always, and S itself exactly when S is non-empty or typed `size_t` |
| Interop.ListRoundTrip | mp.h:66-92 | `sequence_to_list(list_to_sequence(L))` is L for every homogeneous list of metavalues |
| ListAlgebra.ConcatIsFlatten | mp.h:134-163 | `ListAlgebra.Concat`, the specialization-driven `concat`, joins its argument lists' members in argument order |
| ListAlgebra.ConcatPairwiseIsFlatten | mp.h:144-152 | joining lists two at a time, as the pairwise rule alone would, also joins them in order |
| ListAlgebra.BatchedConcatAgreesWithPairwise | mp.h:149-157 | the five-at-a-time rule yields the same list as repeated pairwise joining, for any number of lists |
| ListAlgebra.ConcatSmall | mp.h:139-152 | `concat<>` is `list<>`; `concat<L>` is L; `concat<A, B>` is A's members followed by B's |
| ListAlgebra.ConcatAssociative | mp.h:136-163 | concat of two concats is one concat of all their arguments; the empty list is a left and right identity |
| ListAlgebra.LengthOfConcat | mp.h:126-163 | the length of a concat is the sum of its arguments' lengths; `length<list<>>` is 0 |
| ListAlgebra.Map | mp.h:165-179 | `map<F, L>` has an expansion exactly when every `F<T>` does; it then has L's length, with `F<L[i]>` at position i |
| ListAlgebra.InvokeBoundConcat | mp.h:112-128 | with `Adapters.Invoke` modelling `invoke`, invoking `bind<F, A...>` on L is invoking F on `concat<A, L>`, and binding twice concats all three; invoking a bound `arg_count` gives the length of that concat; invoking `list` on a concat rebuilds the joined list |
| ListAlgebra.MapLiftOverSequence | mp.h:36-75 | mapping a lifted unary function over `sequence_to_list<S>` gives `sequence_to_list` of the function applied to each constant of S, converted to its result type |
| ListAlgebra.MapIdAndConstant | mp.h:14-51 | mapping `id` gives the list back; mapping `constant_fn<V>` gives V at every position |
| ListAlgebra.MapAppend | mp.h:170-173 | mapping the members of A followed by those of B is defined exactly when mapping each part is, and is the mapped parts in order |
| ListAlgebra.MapConcat | mp.h:167-173 | mapping a concat is defined exactly when mapping both parts is, and is the concat of the mapped parts |
| ListAlgebra.Car | mp.h:183-195 | `car<L>` is defined only on a non-empty list and is one of its members |
| ListAlgebra.Cdr | mp.h:183-199 | `cdr<L>` is defined only on a non-empty list and has one member fewer |
| ListAlgebra.CarCdr | mp.h:185-199 | a non-empty list is its `car` followed by its `cdr`; `car` is member 0 and `cdr` holds members 1.. in order |
| ListAlgebra.Get | mp.h:201-203 | `get<I, L>` is defined only for I below L's length, and is member I |
| Queries.Count | mp.h:205-219 | the count of T never exceeds the list's length |
| Queries.CountIsPositions | mp.h:210-213 | the count fold equals the number of positions holding T |
| Queries.CountFnMeaning | mp.h:217-219 | `count` as a two-argument metafunction on a list and a type is the size metavalue of that number of positions |
| Queries.ContainsOne | mp.h:227-233 | `contains_impl<L, T>` holds exactly when T is a member of L |
| Queries.Contains | mp.h:237-243 | `contains<L, T...>` holds exactly when every queried type is a member of L, so it is true when no type is queried |
| Queries.ContainsIffCountPositive | mp.h:210-239 | L contains T exactly when the count of T is positive |
| Queries.AllAreIff | mp.h:245-251 | `Queries.AllAre`, modelling `all_are<L, T>`, defined as length equal to count, holds exactly when every member is T |
| Queries.LiftedValueEquals | mp.h:253-264 | lifted `value_equals<V>` on one member yields the bool metavalue of "member's value, converted to V's type, equals V's value", and fails on a non-metavalue |
| Queries.AllValuesAreMeaning | mp.h:262-268 | `Queries.AllValuesAre`, modelling `all_values_are<L, V>`, is defined exactly on lists of metavalues, and then holds exactly when every member's converted value equals V's value |
| Queries.AllOfMeaning | mp.h:277-283 | `Queries.AllOf`, modelling `all_of<L, F>`, is defined exactly when F yields a metavalue on every member, and then holds exactly when each of them converts to true |
| Queries.AllOfConstantPredicates | mp.h:53-59 | `all_of` with `true_fn` always holds; with `false_fn` it holds only of the empty list |
| Queries.MemberCounts | mp.h:116-120 | mapping `bind<count, L>` over L always has an expansion: at position i, the size metavalue of the count of L[i] in L |
| Queries.IsASet | mp.h:285-291 | `is_a_set<L>`, defined through map, bind, count and `all_values_are`, holds exactly when L has no duplicate members |
| Queries.CountsOneIffNoDuplicates | mp.h:210-213 | every member occurring exactly once is the same as no two positions holding the same type |
| Queries.IsASetCountsOnce | mp.h:285-291 | `is_a_set<L>` holds exactly when every member of L is counted exactly once in L, and it holds of `list<>` |
| Scenarios.CountContainsSet | mp.h:210-291 | in `list<int, float, int>`, int is counted twice, float is contained, and the list is not a set |
| Scenarios.ConcatThree | mp.h:139-157 | `concat<list<A>, list<>, list<B, C>>` is `list<A, B, C>` |
| Scenarios.LiftedNonzeroIsTrue | mp.h:36-44 | lifting a bool function that returns its int argument maps `integral_constant<int, 5>` to `true_`, and `all_of` with it holds |
| Scenarios.MapLiftedDouble | mp.h:36-44 | mapping a lifted doubling function over the int metavalues 3 and 4 gives 6 and 8 |

## Left out

- Queries.Count: its own contract states only the bound by the length. Its exact meaning, the number of positions holding T, is stated by `Queries.CountIsPositions`.
- ListAlgebra.Car: its own contract states only that the result is a member. Being member 0 is stated by `ListAlgebra.CarCdr`.
- ListAlgebra.Cdr: its own contract states only the length. Its contents are stated by `ListAlgebra.CarCdr`.
- `mv_cast` (mp.h:33-34) is not modelled. It is the host language's `static_cast` between integral types, not logic of this header.
- `detail::to_bool_mv` (mp.h:272-273) is not modelled. It is defined but never used.
- Integer widths are not modelled. Sizes are unbounded naturals; the `size_t` bound on lengths and counts, and the `int` arithmetic of count's fold, never matter for lists of realistic size.
- Implicit conversion, inside `value_equals` and on a lifted function's return, is modelled only when the target is bool (nonzero means true). Conversions between other integral types are taken as value-preserving, which is where `mv_cast`-style wrap-around would apply.
- `bind<F, A...>::type<T...>` is a struct that derives from `F<A..., T...>`, so it is a distinct type from it. The model identifies the two. Adapters.BindTwice, ListAlgebra.InvokeBoundConcat and Queries.MemberCounts state type equalities that hold in C++ only up to this identification. For example, `bind<bind<F, A>::type, B>::type<T>` and `bind<F, A, B>::type<T>` are distinct types. Likewise, the members of `map<bind<count, L>::type, L>` are not `size_mv` themselves. The queries built on them (`is_a_set`) are unaffected, because they read only the inherited `value` and `value_type`. The identification also makes the model's `bind` fail eagerly. In C++, naming `bind<F, A...>::type<T...>` never fails. A missing `F<A..., T...>` surfaces only when the struct is completed, for example when a member's `value` is read. So `map`, `invoke`, `length` and `count` over bound members that are never read are defined in C++ but `None` in the model. For example, `map<bind<car>::type, list<list<>>>` is a valid one-member list in C++, while the model's map of it is `None`. `is_a_set` and `all_of` are unaffected, because they read every member's `value`.
- `sequence_to_list` accepts any sequence template `ST<IT, I...>`, but `list_to_sequence` always builds `std::integer_sequence`. The model represents only `std::integer_sequence`, so Interop.SequenceRoundTrip speaks of it alone. Another sequence template S comes back as a `std::integer_sequence` with S's value type and values, not as S.
- The header works over any list-like template `LT<...>`, and `get` goes through `std::tuple`. The model has a single list representation.
- `concat_impl<L>` with one argument returns L even when L is not a list. The model's arguments are always lists.
- The `bool_mv` wrappers `contains`, `all_are`, `all_values_are`, `all_of` and `is_a_set` are not modelled separately. Each is `bool_mv` of the corresponding `_v` constant, which is what the model defines.
- `length<L>` is modelled on the members of L, not on an `mp::list` type. The same holds for the other list operations.
- `count_v` (mp.h:221-223) is not modelled separately; it is the value of `count`.
- Compile-time instantiation depth is not modelled. It is the reason for batching concat five at a time, and it has no effect on the result.
- The ordinary function given to `lift` is modelled as a function on the arguments' values with a declared result type. Evaluation in a constant context and `decltype` deduction are taken as given.
