/** Small containers shared by the models. */
module Wrappers {

  datatype Option<+T> = None | Some(value: T)

  /** A stack that grows by one element at a time, as stack.c provides it. */
  datatype Stack<+T> = Empty | Push(top: T, below: Stack<T>)

  /** The answer of `stack_int_top` on an empty stack. */
  const FAILURE := -1

  function IntTop(s: Stack<int>): int {
    if s.Empty? then FAILURE else s.top
  }

  /** `stack_del_top`: deleting from an empty stack does nothing. */
  function Pop<T>(s: Stack<T>): Stack<T> {
    if s.Empty? then s else s.below
  }

  /** An unsigned char. */
  type Byte = b: int | 0 <= b < 256
}
