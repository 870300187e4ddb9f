/** Ownership modes of the virtual pointer and the policy for borrowing the real cursor. */
module Pointer {

  datatype PointerMode = Isolated | PhysicalFallback | Paused | UserTakeover

  datatype PointerPolicy = IsolatedOnly | IsolatedPreferred | PhysicalAllowed
}
