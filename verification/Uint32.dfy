/** The 32-bit unsigned numbers of the configuration (uint32_t in src/yaml_api/yaml_api.h). */
module Uint32 {
  const TWO_32 := 0x1_0000_0000

  type uint32 = n: nat | n < 0x1_0000_0000
}
