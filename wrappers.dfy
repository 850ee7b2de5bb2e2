/** Optional values and the outcome of running an external program. */
module Wrappers {

  datatype Option<+T> = None | Some(value: T)

  /** What `subprocess.run` gives back: the program's exit status, or an
      exception (the executable is missing, the run was interrupted, ...). */
  datatype ToolRun = Exited(code: int) | Raised
}
