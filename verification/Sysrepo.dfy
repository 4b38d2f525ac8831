/** What the callbacks see of sysrepo. */
module Sysrepo {

  /** `SR_ERR_OK` and the errors the callbacks return; `Iterator` is whatever
      `sr_get_changes_iter` failed with. */
  datatype Rc = Ok | InvalArg | OperationFailed | Unsupported | Iterator(code: nat)

  /** The notification events. */
  datatype Event = Verify | Enabled | Apply | Abort

  /** The operation of a change record. */
  datatype Oper = Created | Modified | Deleted | Moved
}
