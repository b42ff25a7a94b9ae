/** The registers that the code generator works with: the scratch registers, and those given to values. */
module Machine {
  datatype Register = Zero | T0 | T1 | T2 | Allocated(id: nat)
}
