/** Handles on classes that are loaded in the running virtual machine
    (java.lang.Class), reduced to the two facts the type list reads from them. */
module LoadedTypes {
  import opened StackSizes

  /** A loaded class: its binary name as Class.getName reports it
      ("java.lang.String", "int", "[Ljava.lang.Object;") and the size class
      StackSize.of assigns to it. */
  datatype LoadedClass = LoadedClass(binaryName: string, stackSize: StackSize)

  /** Rewrites a binary name into internal form: every '.' becomes '/'
      (section 4.2.1 of the Java Virtual Machine Specification). */
  function ToInternalForm(name: string): (r: string)
    ensures |r| == |name|
    ensures forall i :: 0 <= i < |name| ==> r[i] == (if name[i] == '.' then '/' else name[i])
  {
    if name == [] then []
    else [if name[0] == '.' then '/' else name[0]] + ToInternalForm(name[1..])
  }

  /** Type.getInternalName(Class): the internal name of a loaded class. */
  function InternalName(c: LoadedClass): (r: string)
    ensures |r| == |c.binaryName|
    ensures '.' !in r
  {
    ToInternalForm(c.binaryName)
  }

  /** StackSize.sizeOf(Collection<Class>): the slots all the classes take together. */
  function SizeOfAll(types: seq<LoadedClass>): (n: nat)
    ensures n <= 2 * |types|
    ensures n == 0 <==> forall i :: 0 <= i < |types| ==> types[i].stackSize == Zero
  {
    if types == [] then 0 else Slots(types[0].stackSize) + SizeOfAll(types[1..])
  }
}
