/** Values that cross the proxy's sockets: raw bytes, peer addresses and socket handles. */
module Net {

  newtype byte = x: int | 0 <= x < 256

  /** One `recv` result: the bytes read from a socket in a single call. */
  type Chunk = seq<byte>

  /** A peer address as `accept` returns it: host and port. */
  datatype Addr = Addr(host: string, port: nat)

  /** An opaque handle for an accepted client socket. */
  datatype Socket = Socket(fd: nat)
}
