/** The status every fallible driver function returns, and the C integer width
    its parameters have. */
module Status {
  type u32 = n: nat | n < 0x1_0000_0000

  /** The six categories the modelled drivers return; UNINITIALIZED and
      UNSUPPORTED are never produced by them. */
  datatype DriverStatus =
    | Ok
    | InvalidParam
    | NotInitialized
    | Timeout
    | HwFault
    | Busy
}
