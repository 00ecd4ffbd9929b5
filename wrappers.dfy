/** The optional value used where the source gets `undefined` or `null`
    back from a lookup (`Array.prototype.find`, `querySelector`,
    `getAttribute`). */
module Wrappers {

  datatype Option<+T> = None | Some(value: T)

}
