/** The limits of the safety policy that several parts share. */
module PolicyLimits {
  const MAX_MEMBER_COUNT := 10_000
  const MAX_SINGLE_MEMBER_BYTES := 2_147_483_648
  const MAX_TOTAL_UNCOMPRESSED_BYTES := 8_589_934_592
}
