/** Small result types shared by the whole model. */
module Wrappers {

  datatype Option<+T> = None | Some(value: T)

  /** The outcome of an entry point: it either went through, or it was
      rejected (a BgaUserException or a failed checkAction) with a reason. */
  datatype Outcome = Ok | Rejected(reason: string)
}
