/** The identity of a native process, shared by the study journal and the case sequence. */
module Processes {

  /** A process id alone is reused by the system; with its creation time and its source it is not. */
  datatype Owner = Owner(pid: nat, created: nat, source: string)
}
