/** Sizes of WireGuard packets, in bytes, a rate limit, and the unit of clock readings. */
module Constants {
  const HANDSHAKE_INIT_SZ: nat := 148
  const HANDSHAKE_RESP_SZ: nat := 92
  const COOKIE_REPLY_SZ: nat := 64
  const DATA_OVERHEAD_SZ: nat := 32

  /** Handshake messages let through between two resets of a tunnel's own limiter. */
  const PEER_HANDSHAKE_RATE_LIMIT: nat := 10

  /** Clock readings are in nanoseconds. */
  const SECOND: nat := 1_000_000_000
}
