/**
  The ways a computation of the modelled programs stops abnormally.  Rust's
  `unimplemented!()`, an out-of-bounds index, a failed `debug_assert!` and an
  unsigned subtraction that underflows all abort the program; the model turns
  each into a value so that the operations stay total.
 */
module Panics {

  datatype Panic =
    | Unimplemented(site: string)   // `unimplemented!()` was reached
    | IndexOutOfBounds(site: string) // a slice or image index panicked
    | DebugAssertion(site: string)  // a `debug_assert!` failed
    | Underflow(site: string)       // unsigned subtraction below zero
    | Degenerate(site: string)      // a division by zero that f32 turns into NaN or infinity
}
