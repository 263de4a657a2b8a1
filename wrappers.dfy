/**
 * A cell that may be missing: `None` stands for pandas' NaN, including the
 * NaN that `.dt.year` and `.dt.hour` give for NaT.
 */
module Wrappers {

  datatype Option<T> = None | Some(value: T) {

    /** The present value, or `default` when the cell is missing (pandas' `fillna`). */
    function GetOr(default: T): T {
      if Some? then value else default
    }
  }
}
