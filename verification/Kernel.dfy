/** What several parts of the kernel share. */
module Kernel {
  type byte = x: int | 0 <= x < 256

  const NR_TASKS := 64

  // task states
  const RUNNING := 0
  const INTERRUPTIBLE := 1
  const UNINTERRUPTIBLE := 2

  // error numbers
  const EAGAIN := 11
  const ENOMEM := 12
}
