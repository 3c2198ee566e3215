/** An optional value: the matcher's "no such process" outcome and the log
    writer's "no target given" argument. */
module Wrappers {

  datatype Option<+T> = None | Some(value: T)
}
