/** The absent-or-present value the store returns for lookups and keeps in its
    nullable columns (`undefined` / `null` in the TypeScript store). */
module Wrappers {

  datatype Option<+T> = None | Some(value: T)
}
