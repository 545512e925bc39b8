/**
  The four SetupAPI entry points the search uses, as an in-memory backend
  whose behaviour is fixed here: a finite list of device records, a switch
  that makes opening the device information set fail, counters of open and
  destroy calls, and a trace of every call in the order it was made.
 */
module SetupApi {
  import opened Wrappers
  import opened Utf16

  type Uint32 = x: int | 0 <= x < 0x1_0000_0000

  /** A pointer-sized unsigned value; 64-bit Windows is assumed. */
  type Uintptr = x: int | 0 <= x < 0x1_0000_0000_0000_0000

  /** The handle value that signals a failed open: all bits of a uintptr set. */
  const InvalidHandleValue: Uintptr := 0xFFFF_FFFF_FFFF_FFFF

  /** DIGCF_PRESENT: only devices present in the system. */
  const DigcfPresent: bv32 := 0x0000_0002

  /** DIGCF_ALLCLASSES: devices of every setup class. */
  const DigcfAllClasses: bv32 := 0x0000_0004

  /** The registry properties the search reads, with their SPDRP_ codes. */
  datatype Property = DeviceDesc | HardwareId | Mfg | Driver | PhysicalDeviceObjectName
  {
    function Code(): Uint32 {
      match this
      case DeviceDesc => 0x0
      case HardwareId => 0x1
      case Mfg => 0xB
      case Driver => 0x9
      case PhysicalDeviceObjectName => 0xE
    }
  }

  /**
    One device of the fake device tree. Each property holds the raw code units
    the OS would copy into the caller's buffer (terminators included, several
    strings for a multi-string value such as a hardware-ID list), or None when
    the device does not have that property.
   */
  datatype DeviceRecord = DeviceRecord(
    description: Option<seq<CodeUnit>>,
    hardwareId: Option<seq<CodeUnit>>,
    manufacturer: Option<seq<CodeUnit>>,
    driver: Option<seq<CodeUnit>>,
    physicalName: Option<seq<CodeUnit>>)
  {
    function Stored(p: Property): Option<seq<CodeUnit>> {
      match p
      case DeviceDesc => description
      case HardwareId => hardwareId
      case Mfg => manufacturer
      case Driver => driver
      case PhysicalDeviceObjectName => physicalName
    }
  }

  /**
    What a registry-property call with a buffer of `size` bytes copies out:
    the stored value when the device has it and it fits, nothing when the
    property is missing or the value is too large (the call then fails).
   */
  function Query(rec: DeviceRecord, p: Property, size: nat): (q: Option<seq<CodeUnit>>)
    ensures q.Some? ==> rec.Stored(p) == Some(q.value) && 2 * |q.value| <= size
    ensures q.None? ==> rec.Stored(p).None? || 2 * |rec.Stored(p).value| > size
  {
    match rec.Stored(p)
    case None => None
    case Some(v) => if 2 * |v| <= size then Some(v) else None
  }

  /** The SP_DEVINFO_DATA block an enumeration fills in, reduced to the entry it names. */
  datatype DevInfoData = DevInfoData(index: nat)

  /** One call into the backend, as recorded in its trace. */
  datatype Call =
    | ClassDevsCall(flags: bv32)
    | EnumCall(index: nat)
    | PropertyCall(index: nat, property: Property, bufferSize: nat)
    | DestroyCall

  class Backend {
    /** The device tree, in the order the OS enumerates it. */
    const devices: seq<DeviceRecord>
    /** When set, opening the device information set returns the invalid handle. */
    const openFails: bool
    /** The handle a successful open returns. */
    const handle: Uintptr

    var openCalls: nat
    var destroyCalls: nat
    /** Device information sets opened and not yet destroyed. */
    var live: nat
    var calls: seq<Call>

    ghost predicate Valid() {
      |devices| < 0x1_0000_0000 && handle != InvalidHandleValue
    }

    constructor (devices: seq<DeviceRecord>, openFails: bool, handle: Uintptr)
      requires |devices| < 0x1_0000_0000 && handle != InvalidHandleValue
      ensures Valid()
      ensures this.devices == devices && this.openFails == openFails && this.handle == handle
      ensures openCalls == 0 && destroyCalls == 0 && live == 0 && calls == []
    {
      this.devices := devices;
      this.openFails := openFails;
      this.handle := handle;
      openCalls, destroyCalls, live, calls := 0, 0, 0, [];
    }

    /** SetupDiGetClassDevsW with no class GUID, enumerator or window. */
    method GetClassDevs(flags: bv32) returns (h: Uintptr)
      modifies this`openCalls, this`live, this`calls
      ensures h == if openFails then InvalidHandleValue else handle
      ensures openCalls == old(openCalls) + 1
      ensures live == old(live) + if openFails then 0 else 1
      ensures calls == old(calls) + [ClassDevsCall(flags)]
    {
      openCalls := openCalls + 1;
      calls := calls + [ClassDevsCall(flags)];
      if openFails {
        h := InvalidHandleValue;
      } else {
        live := live + 1;
        h := handle;
      }
    }

    /** SetupDiEnumDeviceInfo: nonzero, and the entry, exactly when `index` names a device. */
    method EnumDeviceInfo(h: Uintptr, index: Uint32) returns (ret: Uintptr, data: DevInfoData)
      requires live > 0 && h == handle
      modifies this`calls
      ensures (ret != 0) == (index < |devices|)
      ensures ret != 0 ==> data == DevInfoData(index)
      ensures calls == old(calls) + [EnumCall(index)]
    {
      calls := calls + [EnumCall(index)];
      ret := if index < |devices| then 1 else 0;
      data := DevInfoData(index);
    }

    /**
      SetupDiGetDeviceRegistryPropertyW into `buffer`, of which the caller
      offers `size` bytes. On success the value is copied to the front of the
      buffer and the rest is left as it was; on failure nothing is written.
     */
    method GetDeviceRegistryProperty(h: Uintptr, data: DevInfoData, p: Property,
                                     buffer: array<CodeUnit>, size: Uintptr)
      returns (ret: Uintptr)
      requires live > 0 && h == handle && data.index < |devices|
      requires size <= 2 * buffer.Length
      modifies this`calls, buffer
      ensures var q := Query(devices[data.index], p, size);
        && (ret != 0) == q.Some?
        && (q.Some? ==> buffer[..] == q.value + old(buffer[|q.value|..]))
        && (q.None? ==> buffer[..] == old(buffer[..]))
      ensures calls == old(calls) + [PropertyCall(data.index, p, size)]
    {
      calls := calls + [PropertyCall(data.index, p, size)];
      var q := Query(devices[data.index], p, size);
      if q.None? {
        return 0;
      }
      var v := q.value;
      forall k | 0 <= k < |v| {
        buffer[k] := v[k];
      }
      assert buffer[..] == v + old(buffer[|v|..]);
      ret := 1;
    }

    /** SetupDiDestroyDeviceInfoList: releases one open device information set. */
    method DestroyDeviceInfoList(h: Uintptr) returns (ret: Uintptr)
      requires live > 0 && h == handle
      modifies this`destroyCalls, this`live, this`calls
      ensures destroyCalls == old(destroyCalls) + 1
      ensures live == old(live) - 1
      ensures calls == old(calls) + [DestroyCall]
    {
      destroyCalls := destroyCalls + 1;
      live := live - 1;
      calls := calls + [DestroyCall];
      ret := 1;
    }
  }
}
