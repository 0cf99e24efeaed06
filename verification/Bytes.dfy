module Bytes {

  type Byte = b: int | 0 <= b < 256

  function Take(data: seq<Byte>, n: nat): seq<Byte> {
    if |data| <= n then data else data[..n]
  }
}
