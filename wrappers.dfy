/** Optional values, for the nullable columns and form fields of the stock ledger. */
module Wrappers {

  datatype Option<+T> = None | Some(value: T)

}
