/** The size a value occupies on the JVM operand stack: long and double take two
    slots, void takes none, every other type one (section 2.6.2 of the Java
    Virtual Machine Specification). */
module StackSizes {

  datatype StackSize = Zero | Single | Double

  /** StackSize.getSize: the number of operand-stack slots of this size class. */
  function Slots(s: StackSize): (n: nat)
    ensures n <= 2
    ensures n == 0 <==> s == Zero
    ensures n == 2 <==> s == Double
  {
    match s
    case Zero => 0
    case Single => 1
    case Double => 2
  }
}
