/** Bytes as plain numbers. */
module Octets {

  type byte = n: nat | n < 256 witness 0

  type Bytes = seq<byte>
}
