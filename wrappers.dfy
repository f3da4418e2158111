/** An optional value: a field the code may leave unset, or a quantity that
    has no real value (a quotient by zero, which floating point would turn
    into an infinity or a NaN). */
module Wrappers {
  datatype Option<T> = None | Some(value: T)
}
