/** Results of a MEX entry point or helper that may stop with mexErrMsgTxt.
    An `Err` carries the message text the source passes to mexErrMsgTxt. */
module MexErrors {

  datatype Result<+T> = Ok(value: T) | Err(msg: string)

  datatype Option<+T> = None | Some(value: T) {
    function GetOr(default: T): T {
      match this
      case Some(v) => v
      case None => default
    }
  }
}
