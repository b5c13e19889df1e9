/** What several components share: optional values, and text that no proof looks into. */
module Shared {

  datatype Option<T> = None | Some(value: T)

  type Text(==, !new)
}
