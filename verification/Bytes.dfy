/** What the components that move bytes share. */
module Bytes {

  type byte = b: int | 0 <= b < 256

  function Min(a: int, b: int): int { if a < b then a else b }
}
