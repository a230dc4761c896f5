/** Task handles, and the width of the tick counter. */
module Tasks {

  datatype Task = Task(id: int)

  /** xTickCount has 16 bits. */
  const TICKS_PER_EPOCH := 0x1_0000
}
