/** What several of the models share. */
module Common {
  type Byte = b: int | 0 <= b < 256
  type Bytes = seq<Byte>

  function Min(a: nat, b: nat): nat { if a < b then a else b }

  function Bit(b: bool): nat { if b then 1 else 0 }
}
