/** The behaviour TypeListExplicitTest pins down, stated over the model. */
module TypeListScenarios {
  import opened StackSizes
  import TD = TypeDescriptions
  import opened TypeLists

  /** Two descriptions of size SINGLE and DOUBLE: retrieval in order, the
      sub list (0, 1) and a stack size of 3. */
  lemma TwoElementExplicitList(first: TD.TypeDescription, second: TD.TypeDescription)
    requires TD.SizeClass(first) == Single && TD.SizeClass(second) == Double
    ensures Size(Explicit([first, second])) == 2
    ensures Get(Explicit([first, second]), 0) == Ok(first) && Get(Explicit([first, second]), 1) == Ok(second)
    ensures SubList(Explicit([first, second]), 0, 1) == Ok(Explicit([first]))
    ensures StackSum(Elements(Explicit([first, second]))) == 3
  {
    assert [first, second][..1] == [first];
    assert [first][..0] == [];
  }

  /** The empty list: get(0) is an index error, (0, 0) is the list itself and
      (1, 0) is an argument error. */
  lemma EmptyListScenario()
    ensures Get(Empty, 0) == Err(IndexOutOfBounds)
    ensures SubList(Empty, 0, 0) == Ok(Empty)
    ensures SubList(Empty, 1, 0) == Err(IllegalArgument)
    ensures SubList(Empty, 0, 1) == Err(IndexOutOfBounds)
  {
  }

  /** toInternalNames() of the descriptions named "foo" and "bar" returns them
      in order; an explicit list of no descriptions answers null; a SINGLE and
      a DOUBLE description take 3 slots. */
  method ExplicitListTests() returns (names: array?<string>, emptyNames: array?<string>, stackSize: int)
    ensures names != null && names[..] == ["foo", "bar"]
    ensures emptyNames == null
    ensures stackSize == 3
  {
    var first, second := TD.Symbolic("foo", Single), TD.Symbolic("bar", Double);
    names := ToInternalNames(Explicit([first, second]));
    emptyNames := ToInternalNames(Explicit([]));
    stackSize := GetStackSize(Explicit([first, second]));
    TwoElementExplicitList(first, second);
  }
}
