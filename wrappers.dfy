/** Optional values: `None` stands for JavaScript's `undefined`, `null`, `false` or `NaN`
    wherever the bot code uses one of them to mean "nothing found". */
module Wrappers {

  datatype Option<+T> = None | Some(value: T)
}
