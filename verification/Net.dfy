// Machine-width values shared by the dataplane and allocator models.
module Net {
  type Byte = x: int | 0 <= x < 0x100
  type Word = x: int | 0 <= x < 0x1_0000
  type U32 = x: int | 0 <= x < 0x1_0000_0000

  // An IPv6 address as its 16 network-order bytes.
  type Address = a: seq<Byte> | |a| == 16 witness seq(16, i => 0)

  datatype Option<+T> = None | Some(value: T)
}
