module Octets {
  type Byte = b: nat | b < 0x100
}
