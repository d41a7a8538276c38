/** A Node `Buffer`. */
module Octets {
  type byte = bv8
  type Bytes = seq<byte>
}
