/** Status codes, machine integer types and device objects, shared by the model. */
module Common {
  type u4 = x: int | 0 <= x < 0x10
  type u5 = x: int | 0 <= x < 0x20
  type u8 = x: int | 0 <= x < 0x100
  type u12 = x: int | 0 <= x < 0x1000
  type u16 = x: int | 0 <= x < 0x1_0000
  type u24 = x: int | 0 <= x < 0x100_0000
  type u32 = x: int | 0 <= x < 0x1_0000_0000
  type u64 = x: int | 0 <= x < 0x1_0000_0000_0000_0000

  /** The values of `dpcp::status` the model returns. */
  datatype Status =
    | Ok | ErrNoSupport | ErrNoMemory | ErrOutOfRange | ErrInvalidId | ErrInvalidParam
    | ErrCreate | ErrModify | ErrQuery | ErrUmem | ErrAllocUar | ErrNotApplied

  datatype Option<+T> = None | Some(value: T)

  /** What has become of the device object behind a host object: never made; there, with its handle
      held by the host; there, although the host has let go of the handle; or gone. */
  datatype DeviceObject = Unmade | Linked | Orphaned | Gone

  predicate Exists(d: DeviceObject) {
    d.Linked? || d.Orphaned?
  }

  /** obj::destroy: a handle is given back once, and forgotten whether the device accepts or not. */
  function AfterDestroy(d: DeviceObject, accepts: bool): DeviceObject {
    if !d.Linked? then d else if accepts then Gone else Orphaned
  }
}
