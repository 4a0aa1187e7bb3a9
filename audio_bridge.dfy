/** AudioBridge's device lookups over the list of device descriptions:
    getDeviceInfo by id (or the default flag), getDevice by port and device
    name, and getInputDevice / getOutputDevice restricted to devices with
    input or output channels. The bridge implementation additionally turns
    the selected id back into a device through getDevice(id), which looks
    the id up again. */
module AudioBridges {
  import opened Wrappers
  import opened AudioDevices
  import EnumHelper

  /** The thrown exceptions: "device not found", "no such device", and the
      EnumException of a port id without a name. */
  datatype Failure = DeviceNotFound | NoSuchDevice | UnknownPort

  /** The index of the first description satisfying `p`. */
  function FirstWhere(devices: seq<DeviceInfo>, p: DeviceInfo -> bool): (r: Option<nat>)
    ensures r.None? <==> forall i :: 0 <= i < |devices| ==> !p(devices[i])
    ensures r.Some? ==> r.value < |devices| && p(devices[r.value])
    ensures r.Some? ==> forall i :: 0 <= i < r.value ==> !p(devices[i])
  {
    if devices == [] then None
    else if p(devices[0]) then Some(0)
    else match FirstWhere(devices[1..], p)
      case None => None
      case Some(i) => Some(i + 1)
  }

  /** The id test of the lookups: the id itself, or the default flag when
      DefaultDevice is asked for. */
  predicate Matches(info: DeviceInfo, deviceId: int) {
    info.deviceId == deviceId || (info.isDefault && deviceId == DefaultDevice)
  }

  /** getDeviceInfo(deviceId) */
  function GetDeviceInfo(devices: seq<DeviceInfo>, deviceId: int): (r: Result<DeviceInfo, Failure>)
    ensures r.Err? <==> forall i :: 0 <= i < |devices| ==> !Matches(devices[i], deviceId)
    ensures r.Err? ==> r.error == DeviceNotFound
    ensures r.Ok? ==> exists i :: (0 <= i < |devices| && devices[i] == r.value && Matches(r.value, deviceId)
                                   && forall j :: 0 <= j < i ==> !Matches(devices[j], deviceId))
  {
    match FirstWhere(devices, d => Matches(d, deviceId))
    case None => Err(DeviceNotFound)
    case Some(i) => Ok(devices[i])
  }

  /** getDevice(deviceId) of the bridge implementation: a new AudioDevice
      over the description getDeviceInfo finds. */
  function GetDevice(devices: seq<DeviceInfo>, deviceId: int): (r: Result<Device, Failure>)
    ensures r.Ok? <==> GetDeviceInfo(devices, deviceId).Ok?
    ensures r.Ok? ==> r.value == NewDevice(GetDeviceInfo(devices, deviceId).value)
    ensures r.Err? ==> r.error == DeviceNotFound
  {
    match GetDeviceInfo(devices, deviceId)
    case Err(e) => Err(e)
    case Ok(info) => Ok(NewDevice(info))
  }

  /** The id getInputDevice(deviceId) hands to getDevice: that of the first
      input-capable description that matches. */
  function InputDeviceId(devices: seq<DeviceInfo>, deviceId: int): (r: Result<int, Failure>)
    ensures r.Err? <==> forall i :: 0 <= i < |devices| ==> !(IsInput(devices[i]) && Matches(devices[i], deviceId))
    ensures r.Err? ==> r.error == DeviceNotFound
    ensures r.Ok? ==> exists i :: (0 <= i < |devices| && devices[i].deviceId == r.value
                                   && IsInput(devices[i]) && Matches(devices[i], deviceId)
                                   && forall j :: 0 <= j < i ==> !(IsInput(devices[j]) && Matches(devices[j], deviceId)))
  {
    match FirstWhere(devices, d => IsInput(d) && Matches(d, deviceId))
    case None => Err(DeviceNotFound)
    case Some(i) => Ok(devices[i].deviceId)
  }

  /** The id getOutputDevice(deviceId) hands to getDevice. */
  function OutputDeviceId(devices: seq<DeviceInfo>, deviceId: int): (r: Result<int, Failure>)
    ensures r.Err? <==> forall i :: 0 <= i < |devices| ==> !(IsOutput(devices[i]) && Matches(devices[i], deviceId))
    ensures r.Err? ==> r.error == DeviceNotFound
    ensures r.Ok? ==> exists i :: (0 <= i < |devices| && devices[i].deviceId == r.value
                                   && IsOutput(devices[i]) && Matches(devices[i], deviceId)
                                   && forall j :: 0 <= j < i ==> !(IsOutput(devices[j]) && Matches(devices[j], deviceId)))
  {
    match FirstWhere(devices, d => IsOutput(d) && Matches(d, deviceId))
    case None => Err(DeviceNotFound)
    case Some(i) => Ok(devices[i].deviceId)
  }

  /** getPortName(): the short name of the port id in the port-name table,
      or the EnumException. */
  function PortName(info: DeviceInfo, portNames: EnumHelper.NameMap): (r: Result<string, Failure>)
    ensures r.Err? <==> info.portId !in EnumHelper.KeysOf(portNames)
    ensures r.Ok? ==> EnumHelper.Find(portNames, info.portId) == Some(r.value)
  {
    match EnumHelper.Find(portNames, info.portId)
    case None => Err(UnknownPort)
    case Some(name) => Ok(name)
  }

  /** The port-name test of getDevice(portName, deviceName), whose port
      names all exist. */
  predicate NamedAs(info: DeviceInfo, portNames: EnumHelper.NameMap, portName: string, deviceName: string) {
    PortName(info, portNames) == Ok(portName) && info.name == deviceName
  }

  /** The id getDevice(portName, deviceName) hands to getDevice(id). The
      port name is asked first, so a description whose port has no name
      throws before any later one is looked at. */
  function NamedDeviceId(devices: seq<DeviceInfo>, portNames: EnumHelper.NameMap, portName: string, deviceName: string): (r: Result<int, Failure>)
    ensures r.Err? ==> r.error in {NoSuchDevice, UnknownPort}
  {
    if devices == [] then Err(NoSuchDevice)
    else match PortName(devices[0], portNames)
      case Err(e) => Err(e)
      case Ok(p) =>
        if p == portName && devices[0].name == deviceName then Ok(devices[0].deviceId)
        else NamedDeviceId(devices[1..], portNames, portName, deviceName)
  }

  /** No description before index i has the names, and every one of them
      has a port name. */
  predicate NoneNamedBefore(devices: seq<DeviceInfo>, portNames: EnumHelper.NameMap, portName: string, deviceName: string, i: nat)
    requires i <= |devices|
  {
    forall j :: 0 <= j < i ==>
      PortName(devices[j], portNames).Ok? && !NamedAs(devices[j], portNames, portName, deviceName)
  }

  /** What NamedDeviceId finds: the id of the first description with the
      names, every one before it having a port name. */
  lemma {:induction false} NamedDeviceIdFinds(devices: seq<DeviceInfo>, portNames: EnumHelper.NameMap, portName: string, deviceName: string)
    ensures var r := NamedDeviceId(devices, portNames, portName, deviceName);
      r.Ok? ==> exists i :: 0 <= i < |devices| && devices[i].deviceId == r.value
                            && NamedAs(devices[i], portNames, portName, deviceName)
                            && NoneNamedBefore(devices, portNames, portName, deviceName, i)
  {
    if devices != [] && PortName(devices[0], portNames).Ok? {
      if NamedAs(devices[0], portNames, portName, deviceName) {
        assert NoneNamedBefore(devices, portNames, portName, deviceName, 0);
      } else {
        var rest := devices[1..];
        NamedDeviceIdFinds(rest, portNames, portName, deviceName);
        var r := NamedDeviceId(rest, portNames, portName, deviceName);
        if r.Ok? {
          var i :| 0 <= i < |rest| && rest[i].deviceId == r.value
            && NamedAs(rest[i], portNames, portName, deviceName)
            && NoneNamedBefore(rest, portNames, portName, deviceName, i);
          assert devices[i + 1] == rest[i];
          assert NoneNamedBefore(devices, portNames, portName, deviceName, i + 1) by {
            assert forall j :: 1 <= j < i + 1 ==> devices[j] == rest[j - 1];
          }
        }
      }
    }
  }

  /** NamedDeviceId says "no such device" exactly when every description
      has a port name and none has the names. */
  lemma {:induction false} NamedDeviceIdMissing(devices: seq<DeviceInfo>, portNames: EnumHelper.NameMap, portName: string, deviceName: string)
    ensures NamedDeviceId(devices, portNames, portName, deviceName) == Err(NoSuchDevice) <==>
      NoneNamedBefore(devices, portNames, portName, deviceName, |devices|)
  {
    if devices != [] && PortName(devices[0], portNames).Ok? && !NamedAs(devices[0], portNames, portName, deviceName) {
      var rest := devices[1..];
      NamedDeviceIdMissing(rest, portNames, portName, deviceName);
      assert forall j :: 1 <= j < |devices| ==> devices[j] == rest[j - 1];
    }
  }

  /** getInputDevice(deviceId), getOutputDevice(deviceId) and
      getDevice(portName, deviceName) of the bridge implementation: the
      selected id goes through getDevice(id). */
  function GetInputDevice(devices: seq<DeviceInfo>, deviceId: int): (r: Result<Device, Failure>)
    ensures InputDeviceId(devices, deviceId).Err? ==> r == Err(DeviceNotFound)
    ensures InputDeviceId(devices, deviceId).Ok? ==> r == GetDevice(devices, InputDeviceId(devices, deviceId).value)
  {
    match InputDeviceId(devices, deviceId)
    case Err(e) => Err(e)
    case Ok(id) => GetDevice(devices, id)
  }

  function GetOutputDevice(devices: seq<DeviceInfo>, deviceId: int): (r: Result<Device, Failure>)
    ensures OutputDeviceId(devices, deviceId).Err? ==> r == Err(DeviceNotFound)
    ensures OutputDeviceId(devices, deviceId).Ok? ==> r == GetDevice(devices, OutputDeviceId(devices, deviceId).value)
  {
    match OutputDeviceId(devices, deviceId)
    case Err(e) => Err(e)
    case Ok(id) => GetDevice(devices, id)
  }

  function GetNamedDevice(devices: seq<DeviceInfo>, portNames: EnumHelper.NameMap, portName: string, deviceName: string): (r: Result<Device, Failure>)
    ensures NamedDeviceId(devices, portNames, portName, deviceName).Err? ==>
      r == Err(NamedDeviceId(devices, portNames, portName, deviceName).error)
    ensures NamedDeviceId(devices, portNames, portName, deviceName).Ok? ==>
      r == GetDevice(devices, NamedDeviceId(devices, portNames, portName, deviceName).value)
  {
    match NamedDeviceId(devices, portNames, portName, deviceName)
    case Err(e) => Err(e)
    case Ok(id) => GetDevice(devices, id)
  }

  /** The bridge's constructor numbers the devices with PortAudio's device
      indices: distinct, and none of them DefaultDevice. */
  predicate DistinctIds(devices: seq<DeviceInfo>) {
    (forall i, j :: 0 <= i < j < |devices| ==> devices[i].deviceId != devices[j].deviceId)
    && (forall i :: 0 <= i < |devices| ==> devices[i].deviceId != DefaultDevice)
  }

  /** With distinct ids, looking the id of a description up again finds
      that description. */
  lemma RelookupFindsSame(devices: seq<DeviceInfo>, i: nat)
    requires DistinctIds(devices) && i < |devices|
    ensures GetDeviceInfo(devices, devices[i].deviceId) == Ok(devices[i])
  {
    var id := devices[i].deviceId;
    var j :| 0 <= j < |devices| && devices[j] == GetDeviceInfo(devices, id).value && Matches(devices[j], id)
      && forall k :: 0 <= k < j ==> !Matches(devices[k], id);
    assert id != DefaultDevice;
    assert Matches(devices[j], id);
    assert devices[j].deviceId == id;
    assert j == i;
  }

  /** With distinct ids the input and output lookups of the bridge
      implementation yield a device over the description they selected,
      so only ever an input-capable or output-capable one. */
  lemma SelectedDevicesKeepCapability(devices: seq<DeviceInfo>, deviceId: int)
    requires DistinctIds(devices)
    ensures GetInputDevice(devices, deviceId).Ok? <==> InputDeviceId(devices, deviceId).Ok?
    ensures GetInputDevice(devices, deviceId).Ok? ==> IsInput(GetInputDevice(devices, deviceId).value.info)
    ensures GetOutputDevice(devices, deviceId).Ok? <==> OutputDeviceId(devices, deviceId).Ok?
    ensures GetOutputDevice(devices, deviceId).Ok? ==> IsOutput(GetOutputDevice(devices, deviceId).value.info)
  {
    if InputDeviceId(devices, deviceId).Ok? {
      var i :| 0 <= i < |devices| && devices[i].deviceId == InputDeviceId(devices, deviceId).value
        && IsInput(devices[i]) && Matches(devices[i], deviceId);
      RelookupFindsSame(devices, i);
    }
    if OutputDeviceId(devices, deviceId).Ok? {
      var i :| 0 <= i < |devices| && devices[i].deviceId == OutputDeviceId(devices, deviceId).value
        && IsOutput(devices[i]) && Matches(devices[i], deviceId);
      RelookupFindsSame(devices, i);
    }
  }

  /** With distinct ids the named lookup yields a device over a
      description with those names. */
  lemma NamedDeviceHasNames(devices: seq<DeviceInfo>, portNames: EnumHelper.NameMap, portName: string, deviceName: string)
    requires DistinctIds(devices)
    ensures GetNamedDevice(devices, portNames, portName, deviceName).Ok? ==>
      NamedAs(GetNamedDevice(devices, portNames, portName, deviceName).value.info, portNames, portName, deviceName)
  {
    var r := NamedDeviceId(devices, portNames, portName, deviceName);
    NamedDeviceIdFinds(devices, portNames, portName, deviceName);
    if r.Ok? {
      var i :| 0 <= i < |devices| && devices[i].deviceId == r.value
        && NamedAs(devices[i], portNames, portName, deviceName);
      RelookupFindsSame(devices, i);
    }
  }

  /** The default flag marks the default input and the default output
      device alike, so getOutputDevice(DefaultDevice) takes a duplex
      default input device listed before the default output device. */
  lemma DefaultOutputMayBeDefaultInput()
    ensures var input := DeviceInfo("in", 0, 0, 0, true, true, 2, 2, 44100, 0, []);
      var output := DeviceInfo("out", 0, 1, 1, true, true, 0, 2, 44100, 0, []);
      OutputDeviceId([input, output], DefaultDevice) == Ok(0)
  {
  }

  /** Without distinct ids the re-lookup can leave the input devices: the
      first description with id 5 has no inputs but is the one found. */
  lemma RelookupNeedsDistinctIds()
    ensures var outOnly := DeviceInfo("out", 0, 5, 5, true, false, 0, 2, 44100, 0, []);
      var inOnly := DeviceInfo("in", 0, 5, 5, true, false, 2, 0, 44100, 0, []);
      InputDeviceId([outOnly, inOnly], 5) == Ok(5)
      && GetInputDevice([outOnly, inOnly], 5) == Ok(NewDevice(outOnly))
      && !IsInput(outOnly)
  {
  }
}
