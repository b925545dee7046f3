/** Definitions shared by all parts of the model. */
module Basics {

  datatype Option<+T> = None | Some(value: T)

  function SaturatingSub(a: nat, b: nat): nat { if b <= a then a - b else 0 }
}
