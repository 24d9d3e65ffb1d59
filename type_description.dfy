/** Type descriptions: what the type list hands out. A description either wraps
    a loaded class or stands for a type that was never loaded. */
module TypeDescriptions {
  import opened StackSizes
  import LoadedTypes

  datatype TypeDescription =
    /** TypeDescription.ForLoadedType: built on demand around a loaded class. */
    | ForLoadedType(loaded: LoadedTypes.LoadedClass)
    /** Any other description (parsed from a descriptor, or a stand-in), which
        reports its internal name and size class itself. */
    | Symbolic(internalName: string, stackSize: StackSize)

  /** TypeDescription.getInternalName. */
  function InternalName(d: TypeDescription): (name: string)
  {
    match d
    case ForLoadedType(c) => LoadedTypes.InternalName(c)
    case Symbolic(name, _) => name
  }

  /** TypeDescription.getStackSize. */
  function SizeClass(d: TypeDescription): (s: StackSize)
  {
    match d
    case ForLoadedType(c) => c.stackSize
    case Symbolic(_, s) => s
  }

  /** TypeDescription.getStackSize().getSize(). */
  function Weight(d: TypeDescription): (n: nat)
  {
    Slots(SizeClass(d))
  }
}
