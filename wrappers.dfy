/** An optional value: stands for a JavaScript property that may be absent
    (`count?: number`) and for a lookup that may find nothing. */
module Wrappers {

  datatype Option<+T> = None | Some(value: T)
}
