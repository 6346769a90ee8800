/** The optional-value datatype used throughout the model: a missing cell of
    the ledger (a null code, an unparseable date, a NaN quantile) is `None`. */
module Wrappers {

  datatype Option<+T> = None | Some(value: T) {

    /** The wrapped value, or `default` when there is none (pandas `fillna`). */
    function GetOr(default: T): T {
      match this
      case Some(v) => v
      case None => default
    }
  }
}
