/** What several modules need. */
module Common {

  datatype Option<T> = None | Some(value: T)

  /** enum procstate of kernel/proc.h */
  datatype ProcState = UNUSED | USED | SLEEPING | RUNNABLE | RUNNING | ZOMBIE
}
