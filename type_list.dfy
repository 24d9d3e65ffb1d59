/** TypeList: an ordered, read-only list of type descriptions with three
    interchangeable backings (an array of loaded classes, an explicit list of
    descriptions, and the empty list), all answering the same queries. */
module TypeLists {
  import LoadedTypes
  import TD = TypeDescriptions

  /** The two exceptions a list operation can raise. */
  datatype Error = IndexOutOfBounds | IllegalArgument

  datatype Option<T> = None | Some(value: T)

  /** The outcome of an operation that can throw. */
  datatype Result<T> = Ok(value: T) | Err(error: Error)

  datatype TypeList =
    /** TypeList.ForLoadedType: the loaded classes, in order. */
    | ForLoadedType(types: seq<LoadedTypes.LoadedClass>)
    /** TypeList.Explicit: the wrapped descriptions, in order. */
    | Explicit(typeDescriptions: seq<TD.TypeDescription>)
    /** TypeList.Empty. */
    | Empty

  /** The descriptions get(0), ..., get(size() - 1) return. A loaded-backed list
      builds a new description around its class on every access; as values
      those are the descriptions below. */
  function Elements(l: TypeList): (es: seq<TD.TypeDescription>)
  {
    match l
    case ForLoadedType(types) => seq(|types|, i requires 0 <= i < |types| => TD.ForLoadedType(types[i]))
    case Explicit(descriptions) => descriptions
    case Empty => []
  }

  /** size() */
  function Size(l: TypeList): (n: nat)
    ensures n == |Elements(l)|
    ensures l.Empty? ==> n == 0
  {
    match l
    case ForLoadedType(types) => |types|
    case Explicit(descriptions) => |descriptions|
    case Empty => 0
  }

  /** get(index): the description at index, or IndexOutOfBoundsException. */
  function Get(l: TypeList, index: int): (r: Result<TD.TypeDescription>)
    ensures r.Ok? <==> 0 <= index < Size(l)
    ensures r.Ok? ==> r.value == Elements(l)[index]
    ensures r.Err? ==> r.error == IndexOutOfBounds
  {
    match l
    case ForLoadedType(types) =>
      if 0 <= index < |types| then Ok(TD.ForLoadedType(types[index])) else Err(IndexOutOfBounds)
    case Explicit(descriptions) =>
      if 0 <= index < |descriptions| then Ok(descriptions[index]) else Err(IndexOutOfBounds)
    case Empty =>
      Err(IndexOutOfBounds)
  }

  /** The range check AbstractList.subList performs before it builds its view:
      a negative start or an end past the size is an index error, checked
      first; a start after the end is an argument error. */
  function SubListRangeCheck(size: nat, from: int, to: int): (e: Option<Error>)
    ensures e.None? <==> 0 <= from <= to <= size
    ensures e == Some(IllegalArgument) <==> 0 <= from && to <= size && from > to
  {
    if from < 0 then Some(IndexOutOfBounds)
    else if to > size then Some(IndexOutOfBounds)
    else if from > to then Some(IllegalArgument)
    else None
  }

  /** subList(from, to). The loaded-backed and the explicit list wrap the
      requested range in a new Explicit list; the empty list returns itself
      for (0, 0), rejects from > to as an argument error and everything else
      as an index error. */
  function SubList(l: TypeList, from: int, to: int): (r: Result<TypeList>)
    ensures !l.Empty? ==> (r.Ok? <==> 0 <= from <= to <= Size(l))
    ensures l.Empty? ==> (r.Ok? <==> from == 0 && to == 0)
    ensures r.Ok? ==> 0 <= from <= to <= Size(l) && Elements(r.value) == Elements(l)[from..to]
    ensures r.Ok? ==> if l.Empty? then r.value == l else r.value.Explicit?
    ensures r.Err? ==> (r.error == IllegalArgument <==> from > to && (l.Empty? || (0 <= from && to <= Size(l))))
  {
    match l
    case Empty =>
      if from == to && to == 0 then Ok(l)
      else if from > to then Err(IllegalArgument)
      else Err(IndexOutOfBounds)
    case _ =>
      match SubListRangeCheck(Size(l), from, to)
      case Some(e) => Err(e)
      case None => Ok(Explicit(Elements(l)[from..to]))
  }

  /** The internal names of the elements, in order. */
  function Names(l: TypeList): (names: seq<string>)
    ensures |names| == Size(l)
  {
    var es := Elements(l);
    seq(|es|, i requires 0 <= i < |es| => TD.InternalName(es[i]))
  }

  /** The slots of the elements' sizes, summed. */
  function StackSum(ds: seq<TD.TypeDescription>): (n: nat)
    ensures n <= 2 * |ds|
  {
    if ds == [] then 0 else StackSum(ds[..|ds| - 1]) + TD.Weight(ds[|ds| - 1])
  }

  /** ForLoadedType.toInternalNames: fills a new array with the internal name of
      every class; an empty array is answered with null. */
  method LoadedInternalNames(types: seq<LoadedTypes.LoadedClass>) returns (internalNames: array?<string>)
    ensures internalNames == null <==> |types| == 0
    ensures internalNames != null ==> fresh(internalNames) && internalNames[..] == Names(ForLoadedType(types))
  {
    var names := new string[|types|];
    var i := 0;
    while i < |types|
      invariant 0 <= i <= |types|
      invariant forall k :: 0 <= k < i ==> names[k] == LoadedTypes.InternalName(types[k])
    {
      names[i] := LoadedTypes.InternalName(types[i]);
      i := i + 1;
    }
    internalNames := if names.Length == 0 then null else names;
  }

  /** Explicit.toInternalNames: fills a new array with the internal name of
      every description; an empty array is answered with null. */
  method ExplicitInternalNames(descriptions: seq<TD.TypeDescription>) returns (internalNames: array?<string>)
    ensures internalNames == null <==> |descriptions| == 0
    ensures internalNames != null ==> fresh(internalNames) && internalNames[..] == Names(Explicit(descriptions))
  {
    var names := new string[|descriptions|];
    var i := 0;
    while i < |descriptions|
      invariant 0 <= i <= |descriptions|
      invariant forall k :: 0 <= k < i ==> names[k] == TD.InternalName(descriptions[k])
    {
      names[i] := TD.InternalName(descriptions[i]);
      i := i + 1;
    }
    internalNames := if names.Length == 0 then null else names;
  }

  /** toInternalNames(): null exactly for an empty list, otherwise a new array
      holding the internal name of every element in list order. */
  method ToInternalNames(l: TypeList) returns (internalNames: array?<string>)
    ensures internalNames == null <==> Size(l) == 0
    ensures internalNames != null ==> fresh(internalNames) && internalNames[..] == Names(l)
  {
    match l
    case ForLoadedType(types) =>
      internalNames := LoadedInternalNames(types);
    case Explicit(descriptions) =>
      internalNames := ExplicitInternalNames(descriptions);
    case Empty =>
      internalNames := null;
  }

  /** Explicit.getStackSize: adds up the size of every description. */
  method ExplicitStackSize(descriptions: seq<TD.TypeDescription>) returns (stackSize: int)
    ensures stackSize == StackSum(descriptions)
  {
    stackSize := 0;
    var i := 0;
    while i < |descriptions|
      invariant 0 <= i <= |descriptions|
      invariant stackSize == StackSum(descriptions[..i])
    {
      assert descriptions[..i + 1][..i] == descriptions[..i];
      stackSize := stackSize + TD.Weight(descriptions[i]);
      i := i + 1;
    }
    assert descriptions[..i] == descriptions;
  }

  /** The stack size of two sequences joined is the sum of their stack sizes. */
  lemma {:induction false} StackSumAppend(a: seq<TD.TypeDescription>, b: seq<TD.TypeDescription>)
    ensures StackSum(a + b) == StackSum(a) + StackSum(b)
    decreases |b|
  {
    if b == [] {
      assert a + b == a;
    } else {
      var n := |b| - 1;
      assert (a + b)[..|a + b| - 1] == a + b[..n];
      StackSumAppend(a, b[..n]);
    }
  }

  /** StackSize.sizeOf over the classes of a loaded-backed list adds up the same
      slots as the descriptions that list hands out. */
  lemma {:induction false} LoadedStackSize(types: seq<LoadedTypes.LoadedClass>)
    ensures LoadedTypes.SizeOfAll(types) == StackSum(Elements(ForLoadedType(types)))
  {
    if types == [] {
    } else {
      var d := TD.ForLoadedType(types[0]);
      var es := Elements(ForLoadedType(types));
      var rest := Elements(ForLoadedType(types[1..]));
      assert es == [d] + rest;
      assert [d][..0] == [];
      StackSumAppend([d], rest);
      LoadedStackSize(types[1..]);
    }
  }

  /** getStackSize(): the slots of all elements together; the loaded-backed list
      asks StackSize.sizeOf about its classes, the explicit list adds up its
      descriptions, the empty list answers 0. */
  method GetStackSize(l: TypeList) returns (stackSize: int)
    ensures stackSize == StackSum(Elements(l))
  {
    match l
    case ForLoadedType(types) =>
      stackSize := LoadedTypes.SizeOfAll(types);
      LoadedStackSize(types);
    case Explicit(descriptions) =>
      stackSize := ExplicitStackSize(descriptions);
    case Empty =>
      stackSize := 0;
  }
}
