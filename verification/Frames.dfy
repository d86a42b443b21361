/** Frames of the multiplexor protocol and the small types they are made of. */
module Frames {

  /** The number of values of the source's 32-bit unsigned integers. */
  const TWO_32: int := 0x1_0000_0000

  type U8 = x: int | 0 <= x < 0x100
  type U16 = x: int | 0 <= x < 0x1_0000
  type U32 = x: int | 0 <= x < TWO_32

  type Bytes = seq<U8>

  datatype Option<+T> = None | Some(value: T)

  datatype BindType = BindStream | BindDatagram

  datatype Payload =
    | Connect(rwnd: U32, targetPort: U16, targetHost: Bytes)
    | Acknowledge(count: U32)
    | Reset
    | Finish
    | Push(data: Bytes)
    | Bind(bindType: BindType, bindPort: U16, bindHost: Bytes)
    | Datagram(datagramPort: U16, datagramHost: Bytes, datagramData: Bytes)

  datatype Frame = Frame(id: U32, payload: Payload)
}
