/** Properties of the type list that relate several operations or variants. */
module TypeListProperties {
  import LoadedTypes
  import TD = TypeDescriptions
  import opened TypeLists

  /** The i-th internal name is the internal name of get(i); for a loaded-backed
      list it is the i-th class's binary name in internal form. */
  lemma NamesAt(l: TypeList, i: int)
    requires 0 <= i < Size(l)
    ensures Get(l, i).Ok? && Names(l)[i] == TD.InternalName(Get(l, i).value)
    ensures l.ForLoadedType? ==> Names(l)[i] == LoadedTypes.ToInternalForm(l.types[i].binaryName)
    ensures l.ForLoadedType? ==> '.' !in Names(l)[i]
  {
  }

  /** The sum of the slots does not depend on the order of the elements. */
  lemma {:induction false} StackSumPermutation(a: seq<TD.TypeDescription>, b: seq<TD.TypeDescription>)
    requires multiset(a) == multiset(b)
    ensures StackSum(a) == StackSum(b)
    decreases |a|
  {
    if a == [] {
      assert |b| == |multiset(b)| == 0;
    } else {
      var n := |a| - 1;
      var x := a[n];
      assert a == a[..n] + [x];
      assert x in multiset(a);
      assert x in b;
      var j :| 0 <= j < |b| && b[j] == x;
      var left, right := b[..j], b[j + 1..];
      assert b == left + [x] + right;
      calc {
        multiset(a[..n]) + multiset{x};
        multiset(a);
        multiset(b);
        multiset(left) + multiset{x} + multiset(right);
        multiset(left + right) + multiset{x};
      }
      assert multiset(a[..n]) == multiset(a[..n]) + multiset{x} - multiset{x};
      assert multiset(left + right) == multiset(left + right) + multiset{x} - multiset{x};
      StackSumPermutation(a[..n], left + right);
      StackSumAppend(a[..n], [x]);
      StackSumAppend(left + [x], right);
      StackSumAppend(left, [x]);
      StackSumAppend(left, right);
    }
  }

  /** A successful subList holds get(from), ..., get(to - 1) and nothing else. */
  lemma SubListGet(l: TypeList, from: int, to: int, k: int)
    requires SubList(l, from, to).Ok?
    ensures Size(SubList(l, from, to).value) == to - from
    ensures 0 <= k < to - from ==> Get(SubList(l, from, to).value, k) == Get(l, from + k)
    ensures !(0 <= k < to - from) ==> Get(SubList(l, from, to).value, k) == Err(IndexOutOfBounds)
  {
  }

  /** The internal names of a sub list are the matching slice of the list's names. */
  lemma SubListNames(l: TypeList, from: int, to: int)
    requires SubList(l, from, to).Ok?
    ensures Names(SubList(l, from, to).value) == Names(l)[from..to]
  {
  }

  /** Cutting a list into the part before, the sub list and the part after
      splits its stack size the same way. */
  lemma {:induction false} SubListStackSize(l: TypeList, from: int, to: int)
    requires SubList(l, from, to).Ok?
    ensures StackSum(Elements(l))
         == StackSum(Elements(l)[..from]) + StackSum(Elements(SubList(l, from, to).value)) + StackSum(Elements(l)[to..])
  {
    var es := Elements(l);
    assert es == es[..from] + es[from..to] + es[to..];
    StackSumAppend(es[..from] + es[from..to], es[to..]);
    StackSumAppend(es[..from], es[from..to]);
  }

  /** A sub list of a sub list is the sub list of the original at the shifted range. */
  lemma SubListOfSubList(l: TypeList, from: int, to: int, from2: int, to2: int)
    requires SubList(l, from, to).Ok?
    requires SubList(SubList(l, from, to).value, from2, to2).Ok?
    ensures SubList(l, from + from2, from + to2) == SubList(SubList(l, from, to).value, from2, to2)
  {
    var s := SubList(l, from, to).value;
    if !l.Empty? {
      var es := Elements(l);
      assert Elements(s) == es[from..to];
      assert 0 <= from2 <= to2 <= to - from;
      var inner, outer := es[from..to][from2..to2], es[from + from2..from + to2];
      assert |inner| == |outer|;
      forall k | 0 <= k < |inner| ensures inner[k] == outer[k] {
        assert inner[k] == es[from + from2 + k];
      }
      assert inner == outer;
    }
  }

  /** An explicit list is closed under subList: the range of the wrapped
      sequence, wrapped again. */
  lemma ExplicitSubList(descriptions: seq<TD.TypeDescription>, from: int, to: int)
    requires 0 <= from <= to <= |descriptions|
    ensures SubList(Explicit(descriptions), from, to) == Ok(Explicit(descriptions[from..to]))
  {
  }

  /** A sub list of a loaded-backed list is the explicit list of the descriptions
      of the classes in that range. */
  lemma LoadedSubList(types: seq<LoadedTypes.LoadedClass>, from: int, to: int)
    requires 0 <= from <= to <= |types|
    ensures SubList(ForLoadedType(types), from, to) == Ok(Explicit(Elements(ForLoadedType(types[from..to]))))
  {
    assert Elements(ForLoadedType(types))[from..to] == Elements(ForLoadedType(types[from..to]));
  }

  /** A loaded-backed list answers every query like the explicit list of the
      descriptions it hands out: get(i) always denotes the i-th class, however
      often it is asked. */
  lemma LoadedAsExplicit(types: seq<LoadedTypes.LoadedClass>, i: int, from: int, to: int)
    ensures Size(ForLoadedType(types)) == Size(Explicit(Elements(ForLoadedType(types)))) == |types|
    ensures Get(ForLoadedType(types), i) == Get(Explicit(Elements(ForLoadedType(types))), i)
    ensures 0 <= i < |types| ==> Get(ForLoadedType(types), i) == Ok(TD.ForLoadedType(types[i]))
    ensures Names(ForLoadedType(types)) == Names(Explicit(Elements(ForLoadedType(types))))
    ensures SubList(ForLoadedType(types), from, to) == SubList(Explicit(Elements(ForLoadedType(types))), from, to)
  {
  }

  /** The empty list is a constant: no elements, no names, no slots, and every
      get is an index error. */
  lemma EmptyIsConstant(i: int)
    ensures Size(Empty) == 0 && Names(Empty) == [] && StackSum(Elements(Empty)) == 0
    ensures Get(Empty, i) == Err(IndexOutOfBounds)
    ensures SubList(Empty, 0, 0) == Ok(Empty)
  {
  }

  /** Every list of size 0 accepts and rejects the same sub ranges as Empty and
      yields no elements; the error kind differs only where Empty reports
      from > to while the range check of AbstractList first finds an
      endpoint out of range. */
  lemma EmptySubListAgreement(l: TypeList, from: int, to: int)
    requires Size(l) == 0
    ensures SubList(l, from, to).Ok? <==> SubList(Empty, from, to).Ok?
    ensures SubList(l, from, to).Ok? ==> Elements(SubList(l, from, to).value) == []
    ensures SubList(l, from, to).Err? ==>
      ((SubList(l, from, to).error != SubList(Empty, from, to).error) <==> (!l.Empty? && from > to && (from < 0 || to > 0)))
  {
  }
}
