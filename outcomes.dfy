/** Small result wrappers shared by the modules of this project.
    `Option` stands for Rust's `Option`; `Outcome` separates a normal return
    from a panic, which the source uses for every usage fault. */
module Outcomes {

  datatype Option<+T> = None | Some(value: T)

  /** `Panic(f)` is a call that aborted with the panic message named by `f`. */
  datatype Outcome<+T, +F> = Ok(value: T) | Panic(fault: F)
}
