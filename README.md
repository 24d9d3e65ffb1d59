# TypeList: type-description lists of a runtime code generator

This project models `TypeList`, the ordered, read-only list of type
descriptions that the code generator queries for internal names and for
operand-stack sizes. A list has one of three backings, fixed when it is built:

- `ForLoadedType` wraps an array of loaded classes. It builds a new description
  around the class on every `get`.
- `Explicit` wraps a ready-made list of descriptions.
- `Empty` is the list with no elements.

All three answer `size`, `get`, `toInternalNames`, `getStackSize` and
`subList`. No list operation changes a list, so the model is one datatype `TypeList` with
three variants and pure functions over it (`Size`, `Get`, `SubList`).
`toInternalNames` and `Explicit.getStackSize` work by filling an array or
accumulating a counter in a loop. They are methods with loop invariants, proved
equal to the specification functions `Names` and `StackSum`. The exceptions
become a `Result` with two errors, `IndexOutOfBounds` and `IllegalArgument`,
so that callers can tell them apart.

Modules:

- `StackSizes` (stack_size.dfy): the size classes ZERO, SINGLE and DOUBLE and
  their slot counts 0, 1 and 2, as in section 2.6.2 of the Java Virtual
  Machine Specification.
- `LoadedTypes` (loaded_type.dfy): a loaded class, reduced to its binary name
  and its size class. Internal names are binary names with every `.` replaced
  by `/`, as in section 4.2.1 of the Java Virtual Machine Specification.
  Summing the sizes of a collection of classes is also here.
- `TypeDescriptions` (type_description.dfy): a description either wraps a
  loaded class or reports its own internal name and size class.
- `TypeLists` (type_list.dfy): the list, its operations and the loops.
- `TypeListProperties` (type_list_properties.dfy): laws that relate
  operations and variants.
- `TypeListScenarios` (type_list_scenarios.dfy): what `TypeListExplicitTest`
  checks, stated over the model.

The JDK's `AbstractList` is not part of this model. Both `ForLoadedType` and `Explicit`
take `subList` from it. Its range check is modelled after the JDK 6 to 8
implementation, in `SubListRangeCheck`:

- a negative start is an index error;
- an end past the size is an index error;
- otherwise, a start after the end is an argument error.

`Empty` instead reports every `from > to` as an argument error. All three
variants implement the same `TypeList` interface, yet an empty `Explicit` list
and `Empty` raise different exceptions for some rejected ranges. They accept
and reject exactly the same ranges. One example is `subList(5, 2)`: the empty
`Explicit` list raises an index error, while `Empty` raises an argument error.
They differ exactly when `from > to` and either `from < 0` or `to > 0`.
`EmptySubListAgreement` proves this.

The varargs constructor of `ForLoadedType` keeps the caller's array
(TypeList.java:47-49); only the `List` constructor copies it (:56-58). The
model builds every list from an immutable sequence and claims no copy.

## Model

| member | source | states |
|---|---|---|
| `StackSizes.Slots` | byte-buddy-dep/src/main/java/net/bytebuddy/instrumentation/type/TypeList.java:134 | a size class takes at most 2 slots; 0 slots exactly for ZERO, 2 exactly for DOUBLE |
| `LoadedTypes.ToInternalForm` | byte-buddy-dep/src/main/java/net/bytebuddy/instrumentation/type/TypeList.java:75 | the internal form keeps the binary name's length and its characters, except that each `.` becomes `/` |
| `LoadedTypes.InternalName` | byte-buddy-dep/src/main/java/net/bytebuddy/instrumentation/type/TypeList.java:75 | the internal name of a loaded class is as long as its binary name and contains no `.` |
| `LoadedTypes.SizeOfAll` | byte-buddy-dep/src/main/java/net/bytebuddy/instrumentation/type/TypeList.java:80-83 | the summed size of a collection of classes is at most twice its length, and it is 0 exactly when every class is ZERO |
| `TypeLists.Size` | byte-buddy-dep/src/main/java/net/bytebuddy/instrumentation/type/TypeList.java:65-68 | `size()` is the number of elements `get` hands out: the array length, the wrapped list's size, or 0 for `Empty` (also :115-118, :155-158) |
| `TypeLists.Get` | byte-buddy-dep/src/main/java/net/bytebuddy/instrumentation/type/TypeList.java:60-63 | `get(i)` succeeds exactly when `0 <= i < size()` and then yields element i; every other index is an index error, for every variant (also :110-113, :150-153) |
| `TypeLists.SubListRangeCheck` | byte-buddy-dep/src/main/java/net/bytebuddy/instrumentation/type/TypeList.java:85-88 | the inherited range check passes exactly when `0 <= from <= to <= size`; it reports an argument error exactly when `from >= 0`, `to <= size` and `from > to` |
| `TypeLists.SubList` | byte-buddy-dep/src/main/java/net/bytebuddy/instrumentation/type/TypeList.java:139-142 | a non-empty variant succeeds exactly on `0 <= from <= to <= size()` and returns an `Explicit` list of elements `from..to`; `Empty` succeeds only on (0, 0) and returns itself; the argument error appears exactly where each variant raises it (also :85-88, :171-179) |
| `TypeLists.Names` | byte-buddy-dep/src/main/java/net/bytebuddy/instrumentation/type/TypeList.java:15-20 | there is one internal name per element |
| `TypeLists.StackSum` | byte-buddy-dep/src/main/java/net/bytebuddy/instrumentation/type/TypeList.java:22-27 | the summed size of n descriptions is at most 2n |
| `TypeLists.LoadedInternalNames` | byte-buddy-dep/src/main/java/net/bytebuddy/instrumentation/type/TypeList.java:70-78 | the result is null exactly when there are no classes; otherwise it is a new array holding each class's internal name, in order |
| `TypeLists.ExplicitInternalNames` | byte-buddy-dep/src/main/java/net/bytebuddy/instrumentation/type/TypeList.java:120-128 | the result is null exactly when there are no descriptions; otherwise it is a new array holding each description's internal name, in order |
| `TypeLists.ToInternalNames` | byte-buddy-dep/src/main/java/net/bytebuddy/instrumentation/type/TypeList.java:15-20 | for every variant, the result is null exactly when `size() == 0`; otherwise it is a new array equal to `Names` (Empty: :160-163) |
| `TypeLists.ExplicitStackSize` | byte-buddy-dep/src/main/java/net/bytebuddy/instrumentation/type/TypeList.java:130-137 | the accumulated counter is the sum of every description's slots |
| `TypeLists.StackSumAppend` | byte-buddy-dep/src/main/java/net/bytebuddy/instrumentation/type/TypeList.java:22-27 | the stack size of two lists joined is the sum of their stack sizes |
| `TypeLists.LoadedStackSize` | byte-buddy-dep/src/main/java/net/bytebuddy/instrumentation/type/TypeList.java:80-83 | summing the sizes of a loaded-backed list's classes gives the same total as summing the descriptions it hands out |
| `TypeLists.GetStackSize` | byte-buddy-dep/src/main/java/net/bytebuddy/instrumentation/type/TypeList.java:22-27 | for every variant, `getStackSize()` is the sum of the slots of the elements (Empty: :165-168) |
| `TypeListProperties.NamesAt` | byte-buddy-dep/src/main/java/net/bytebuddy/instrumentation/type/TypeList.java:71-78 | name i is the internal name of `get(i)`; for a loaded-backed list, it is class i's binary name in internal form and contains no `.` |
| `TypeListProperties.StackSumPermutation` | byte-buddy-dep/src/main/java/net/bytebuddy/instrumentation/type/TypeList.java:22-27 | the stack size does not depend on the order of the elements |
| `TypeListProperties.SubListGet` | byte-buddy-dep/src/main/java/net/bytebuddy/instrumentation/type/TypeList.java:85-88 | a successful `subList(from, to)` has `to - from` elements; its `get(k)` is `get(from + k)`, and every other index is an index error |
| `TypeListProperties.SubListNames` | byte-buddy-dep/src/main/java/net/bytebuddy/instrumentation/type/TypeList.java:139-142 | the sub list's internal names are the matching slice of the list's names |
| `TypeListProperties.SubListStackSize` | byte-buddy-dep/src/main/java/net/bytebuddy/instrumentation/type/TypeList.java:139-142 | the stack size splits into the part before the range, the sub list and the part after it |
| `TypeListProperties.SubListOfSubList` | byte-buddy-dep/src/main/java/net/bytebuddy/instrumentation/type/TypeList.java:139-142 | a sub list of a sub list equals the sub list of the original at the shifted range |
| `TypeListProperties.ExplicitSubList` | byte-buddy-dep/src/main/java/net/bytebuddy/instrumentation/type/TypeList.java:139-142 | for every valid range, `subList` on an `Explicit` list is the `Explicit` list of that range of the wrapped sequence |
| `TypeListProperties.LoadedSubList` | byte-buddy-dep/src/main/java/net/bytebuddy/instrumentation/type/TypeList.java:85-88 | a sub list of a loaded-backed list is the `Explicit` list of the descriptions of the classes in that range |
| `TypeListProperties.LoadedAsExplicit` | byte-buddy-dep/src/main/java/net/bytebuddy/instrumentation/type/TypeList.java:60-63 | a loaded-backed list behaves like the `Explicit` list of its descriptions for `size`, `get`, names and `subList`; `get(i)` always denotes class i |
| `TypeListProperties.EmptyIsConstant` | byte-buddy-dep/src/main/java/net/bytebuddy/instrumentation/type/TypeList.java:150-168 | `Empty` has size 0, no names and stack size 0; every `get` is an index error; `subList(0, 0)` is the list itself |
| `TypeListProperties.EmptySubListAgreement` | byte-buddy-dep/src/main/java/net/bytebuddy/instrumentation/type/TypeList.java:171-179 | every list of size 0 accepts the same ranges as `Empty` and yields no elements; its error kind differs from `Empty`'s exactly when `from > to` and (`from < 0` or `to > 0`) |
| `TypeListScenarios.TwoElementExplicitList` | byte-buddy-dep/src/test/java/net/bytebuddy/instrumentation/type/TypeListExplicitTest.java:31-65 | for a SINGLE and a DOUBLE description: size 2, retrieval in order, `subList(0, 1)` is the `Explicit` list of the first, stack size 3 |
| `TypeListScenarios.ExplicitListTests` | byte-buddy-dep/src/test/java/net/bytebuddy/instrumentation/type/TypeListExplicitTest.java:45-65 | `toInternalNames()` of the descriptions named "foo" and "bar" is the array ["foo", "bar"]; an `Explicit` list of no descriptions answers null; `getStackSize()` of a SINGLE and a DOUBLE description is 3 |
| `TypeListScenarios.EmptyListScenario` | byte-buddy-dep/src/main/java/net/bytebuddy/instrumentation/type/TypeList.java:150-179 | `Empty`: `get(0)` is an index error; `subList(0, 0)` is itself; `subList(1, 0)` is an argument error; `subList(0, 1)` is an index error |

## Left out

- Annotation descriptions and annotation lists are not part of this model. Their behaviour rests on reflection, on member accessibility and on exceptions thrown by member accessors, and none of that code is part of this model.
- `RuntimeType.Verifier` is not part of this model: its own code is absent, and only mock-based tests of it exist.
- Delegation to default interface methods is not part of this model: it is class loading, bytecode generation and runtime invocation, not list behaviour.
- ASM's source is not part of this model. Its `Type.getInternalName` is modelled as the conversion from binary names to internal form in section 4.2.1 of the Java Virtual Machine Specification.
- The source of `StackSize` is not part of this model. For `StackSize.of(Class)`, each loaded class carries its size class as data, with no rule tying it to the class's name.
- `AbstractList` is not part of this model. This covers its sub-list view, `equals`/`hashCode`, iterators and exception messages. List equality is modelled as equality of `Elements`.
- `Explicit` may wrap any Java list. The model assumes that the wrapped list's `get` raises an index error out of range, as standard lists do.
- `ForLoadedType.get` raises `ArrayIndexOutOfBoundsException`, a subclass of `IndexOutOfBoundsException`. The model does not tell the subclass apart.
- Aliasing is not modelled: the varargs constructor (TypeList.java:47-49) and the `Explicit` constructor (:106-108) keep the caller's array or list, and `subList` returns a view over its list (:87, :141). A caller who later changes that array or list also changes `get`, `toInternalNames` and `getStackSize` of the type list and of its sub lists, and `size` of an `Explicit` list. Lists here are built from immutable sequences.
- The code of `TypeDescription.ForLoadedType` is not part of this model. The model assumes that its `getInternalName()` returns `Type.getInternalName` of the wrapped class and its `getStackSize()` returns `StackSize.of` of it. `NamesAt` (for loaded-backed lists) and `LoadedStackSize` rest on that assumption.
- Lazy materialisation is not modelled. A description built on access is a value, so "a new object on each `get`" shows only as value equality.
- TypeLists.GetStackSize: does not model the 32-bit wrap-around of Java's `int` result. Wrap-around needs a slot total of at least 2^31, so a list of at least 2^30 elements.
- TypeLists.ExplicitStackSize: does not model the 32-bit wrap-around of the `int` accumulator. Wrap-around needs a slot total of at least 2^31, so a list of at least 2^30 elements.
- TypeLists.Size: returns an unbounded natural number, not a 32-bit `int`. Sizes of Java lists and arrays fit in an `int`.
- TypeLists.Get: takes an unbounded integer index, not a 32-bit `int`.
- TypeLists.SubList: takes unbounded integer endpoints, not 32-bit `int`s.
