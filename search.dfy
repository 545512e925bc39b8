/**
  The device search itself: getDeviceProperty and findAndDisplayDeviceInfo
  run against the SetupAPI backend, each proved against the reference
  definitions of SearchSpec.
 */
module DeviceSearch {
  import opened Wrappers
  import opened Utf16
  import opened SetupApi
  import opened SearchSpec

  /**
    Reads one registry property of an enumerated entry into a zero-filled
    buffer of 256 code units, offering the call its full 512 bytes. A failed
    call is an error; otherwise the result is the buffer up to its first NUL.
   */
  method GetDeviceProperty(api: Backend, deviceInfoSet: Uintptr, data: DevInfoData, p: Property)
    returns (r: Result<seq<CodeUnit>, PropertyFailure>)
    requires api.live > 0 && deviceInfoSet == api.handle && data.index < |api.devices|
    modifies api`calls
    ensures api.calls == old(api.calls) + [PropertyCall(data.index, p, BufferBytes)]
    ensures r == ReadProperty(api.devices[data.index], p)
  {
    var propertyBuffer := new CodeUnit[BufferUnits](_ => Nul);
    ghost var zeroed := propertyBuffer[..];
    var ret := api.GetDeviceRegistryProperty(deviceInfoSet, data, p, propertyBuffer, BufferUnits * 2);
    if ret == 0 {
      return Err(PropertyFailure(p.Code()));
    }
    ghost var v := Query(api.devices[data.index], p, BufferBytes).value;
    assert propertyBuffer[..] == v + zeroed[|v|..];
    UntilNulIgnoresZeroPadding(v, zeroed[|v|..]);
    r := Ok(UntilNul(propertyBuffer[..]));
  }

  /**
    Prints the entry found for `deviceName`: its description when that is not
    empty, then each of hardware ID, manufacturer, driver and physical name,
    read in that order, whose read succeeds.
   */
  method ReportDevice(api: Backend, deviceInfoSet: Uintptr, data: DevInfoData, deviceName: seq<CodeUnit>)
    returns (printed: seq<Line>)
    requires api.live > 0 && deviceInfoSet == api.handle && data.index < |api.devices|
    requires Matches(api.devices[data.index], deviceName)
    modifies api`calls
    ensures api.calls == old(api.calls) + ReportReads(data.index)
    ensures printed == Report(api.devices[data.index], deviceName)
  {
    var rec := api.devices[data.index];
    printed := [Found(deviceName)];
    // the description the caller read equals deviceName
    if deviceName != [] {
      printed := printed + [Reported(DeviceDesc, deviceName)];
    }
    assert printed == [Found(deviceName)] + DescriptionLine(deviceName);
    var hardwareId := GetDeviceProperty(api, deviceInfoSet, data, HardwareId);
    if hardwareId.Ok? {
      printed := printed + [Reported(HardwareId, hardwareId.value)];
    }
    assert printed == [Found(deviceName)] + DescriptionLine(deviceName) + FieldLine(rec, HardwareId);
    var manufacturer := GetDeviceProperty(api, deviceInfoSet, data, Mfg);
    if manufacturer.Ok? {
      printed := printed + [Reported(Mfg, manufacturer.value)];
    }
    assert printed == [Found(deviceName)] + DescriptionLine(deviceName) + FieldLine(rec, HardwareId)
                      + FieldLine(rec, Mfg);
    var driver := GetDeviceProperty(api, deviceInfoSet, data, Driver);
    if driver.Ok? {
      printed := printed + [Reported(Driver, driver.value)];
    }
    assert printed == [Found(deviceName)] + DescriptionLine(deviceName) + FieldLine(rec, HardwareId)
                      + FieldLine(rec, Mfg) + FieldLine(rec, Driver);
    var physicalName := GetDeviceProperty(api, deviceInfoSet, data, PhysicalDeviceObjectName);
    if physicalName.Ok? {
      printed := printed + [Reported(PhysicalDeviceObjectName, physicalName.value)];
    }
    ReportReadsInOrder(old(api.calls), data.index);
  }

  /**
    Opens the set of present devices of all classes, enumerates it from index
    0 until the enumeration fails, and stops at the first entry whose
    description reads back exactly as `deviceName`; for that entry it reads
    and reports the hardware ID, manufacturer, driver and physical name,
    leaving out each one whose read fails. A successful open is destroyed
    exactly once before returning. The result is (false, error) when the open
    fails, (true, no error) on a match and (false, no error) otherwise.
   */
  method FindAndDisplayDeviceInfo(api: Backend, deviceName: seq<CodeUnit>)
    returns (found: bool, err: Option<SearchError>, printed: seq<Line>)
    requires api.Valid()
    modifies api`openCalls, api`destroyCalls, api`live, api`calls
    ensures err == if api.openFails then Some(EnumerationUnavailable) else None
    ensures found <==> !api.openFails && FirstMatch(api.devices, deviceName).Some?
    ensures printed == Printed(api.devices, api.openFails, deviceName)
    ensures api.calls == old(api.calls) + SearchTrace(api.devices, api.openFails, deviceName)
    ensures api.openCalls == old(api.openCalls) + 1
    ensures api.destroyCalls == old(api.destroyCalls) + if api.openFails then 0 else 1
    ensures api.live == old(api.live)
  {
    printed := [];
    var deviceInfoSet := api.GetClassDevs(DigcfPresent | DigcfAllClasses);
    if deviceInfoSet == InvalidHandleValue {
      return false, Some(EnumerationUnavailable), printed;
    }

    var deviceIndex: Uint32 := 0;
    while true
      invariant deviceIndex <= |api.devices|
      invariant api.live == old(api.live) + 1
      invariant api.openCalls == old(api.openCalls) + 1 && api.destroyCalls == old(api.destroyCalls)
      invariant api.calls == old(api.calls) + [ClassDevsCall(SearchFlags)] + ScanPrefix(deviceIndex)
      invariant forall j :: 0 <= j < deviceIndex ==> !Matches(api.devices[j], deviceName)
      decreases |api.devices| - deviceIndex
    {
      var ret, deviceInfoData := api.EnumDeviceInfo(deviceInfoSet, deviceIndex);
      if ret == 0 {
        break;
      }

      var desc := GetDeviceProperty(api, deviceInfoSet, deviceInfoData, DeviceDesc);
      if desc.Err? || desc.value != deviceName {
        ScanPrefixStep(old(api.calls) + [ClassDevsCall(SearchFlags)], deviceIndex);
        deviceIndex := deviceIndex + 1;
        continue;
      }

      printed := ReportDevice(api, deviceInfoSet, deviceInfoData, deviceName);
      // the deferred release
      var _ := api.DestroyDeviceInfoList(deviceInfoSet);
      FoundAt(old(api.calls), api.devices, deviceName, deviceIndex);
      return true, None, printed;
    }

    printed := printed + [NotFound(deviceName)];
    // the deferred release
    var _ := api.DestroyDeviceInfoList(deviceInfoSet);
    FoundNone(old(api.calls), api.devices, deviceName);
    return false, None, printed;
  }
}
