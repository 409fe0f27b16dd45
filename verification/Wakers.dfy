/** Wakers as the primitives of src/sync tell them apart. */
module Wakers {
  /** A waker together with the poll of the future it was registered by. */
  datatype Token = Token(fut: nat, poll: nat)
}
