/** Start-up lookups of the monitor: pick the capture device by name, take
    its first IPv4 address, and find the hardware address of the network
    interface carrying that address. The device and interface lists are the
    operating system's answers, given here as sequences. */
module Discovery {
  import opened Results

  /** An IP address: its bytes (4 for IPv4, 16 for IPv6) and the text that
      net.IP.String renders for it. For an address that To4 accepts, that
      text is the dotted IPv4 form, the same text To4().String() gives. */
  datatype Ip = Ip(bytes: seq<bv8>, text: string)

  /** A capture device as pcap.FindAllDevs lists it. */
  datatype Device = Device(name: string, addresses: seq<Ip>)

  /** The zero value of a pcap.Interface: no name and no address. */
  const NoDevice := Device("", [])

  /** An address that net.Interface.Addrs returns: an *net.IPNet, or an
      address of any other dynamic type, which the lookup skips. */
  datatype InterfaceAddr = IPNet(ip: Ip) | OtherAddr

  /** A network interface as net.Interfaces lists it: its rendered hardware
      address, and the result of its Addrs call (None when that call
      returned an error). */
  datatype NetInterface = NetInterface(hardwareAddr: string, addrs: Option<seq<InterfaceAddr>>)

  /** The failures of the lookups, each of which ends the process. */
  datatype Failure =
    | DeviceHasNoIpv4          // the panic of findDeviceIpv4
    | InterfacesUnavailable    // net.Interfaces failed
    | AddrsUnavailable         // an interface's Addrs call failed
    | NoDeviceWithIp(ip: string)  // the error findMacAddrByIp returns

  /** The local host's identity, resolved once before capture starts. */
  datatype Identity = Identity(ipv4: string, mac: string)

  /** net.IP.To4 returns non-nil: a 4-byte address, or a 16-byte
      IPv4-mapped IPv6 address (ten zero bytes, then 0xff 0xff). */
  predicate IsIPv4(ip: Ip)
  {
    || |ip.bytes| == 4
    || (&& |ip.bytes| == 16
        && (forall k :: 0 <= k < 10 ==> ip.bytes[k] == 0)
        && ip.bytes[10] == 0xff && ip.bytes[11] == 0xff)
  }

  // ---------------------------------------------------------------------
  // Device selection: the last device with the requested name.

  /** The device's name is the requested one. */
  predicate IsNamed(device: Device, name: string)
  {
    device.name == name
  }

  ghost predicate IsLastNamed(devices: seq<Device>, name: string, k: int)
  {
    && 0 <= k < |devices|
    && IsNamed(devices[k], name)
    && forall j :: k < j < |devices| ==> !IsNamed(devices[j], name)
  }

  /** The device the selection loop leaves behind: the last one in list
      order whose name is `name`, or the zero device when none is. */
  function LastNamed(devices: seq<Device>, name: string): (d: Device)
    ensures (exists i :: 0 <= i < |devices| && IsNamed(devices[i], name))
            ==> exists k :: IsLastNamed(devices, name, k) && d == devices[k]
    ensures (forall i :: 0 <= i < |devices| ==> !IsNamed(devices[i], name)) ==> d == NoDevice
    decreases |devices|
  {
    if devices == [] then NoDevice
    else
      var n := |devices| - 1;
      if IsNamed(devices[n], name) then
        assert IsLastNamed(devices, name, n);
        devices[n]
      else
        var prefix := devices[..n];
        var d := LastNamed(prefix, name);
        LastNamedSurvivesMismatch(devices, prefix, name, d);
        d
  }

  /** Appending a device that does not match keeps the last match of the
      list, and keeps "no match". Stated on its own, apart from the body of
      LastNamed, to keep that body's proof small. */
  lemma LastNamedSurvivesMismatch(devices: seq<Device>, prefix: seq<Device>, name: string, d: Device)
    requires |devices| > 0 && !IsNamed(devices[|devices| - 1], name)
    requires prefix == devices[..|devices| - 1]
    requires (exists i :: 0 <= i < |prefix| && IsNamed(prefix[i], name))
             ==> exists k :: IsLastNamed(prefix, name, k) && d == prefix[k]
    ensures (exists i :: 0 <= i < |devices| && IsNamed(devices[i], name))
            ==> exists k :: IsLastNamed(devices, name, k) && d == devices[k]
    ensures (forall i :: 0 <= i < |devices| ==> !IsNamed(devices[i], name))
            ==> forall i :: 0 <= i < |prefix| ==> !IsNamed(prefix[i], name)
  {
  }

  /** The selection loop of main: every device with the requested name
      overwrites the one chosen so far. */
  method SelectDevice(devices: seq<Device>, name: string) returns (device: Device)
    ensures device == LastNamed(devices, name)
  {
    device := NoDevice;
    for i := 0 to |devices|
      invariant device == LastNamed(devices[..i], name)
    {
      if IsNamed(devices[i], name) {
        device := devices[i];
      }
      assert devices[..i + 1][..i] == devices[..i];
    }
    assert devices[..|devices|] == devices;
  }

  // ---------------------------------------------------------------------
  // findDeviceIpv4: the first IPv4 address of a device.

  ghost predicate IsFirstIpv4(addresses: seq<Ip>, k: int)
  {
    && 0 <= k < |addresses|
    && IsIPv4(addresses[k])
    && forall j :: 0 <= j < k ==> !IsIPv4(addresses[j])
  }

  /** The text of the first IPv4 address in list order; a failure exactly
      when no address is IPv4. */
  function FirstIpv4(addresses: seq<Ip>): (r: Result<string, Failure>)
    ensures r.Ok? <==> exists i :: 0 <= i < |addresses| && IsIPv4(addresses[i])
    ensures r.Ok? ==> exists k :: IsFirstIpv4(addresses, k) && r.value == addresses[k].text
    ensures r.Err? ==> r.error == DeviceHasNoIpv4
    decreases |addresses|
  {
    if addresses == [] then Err(DeviceHasNoIpv4)
    else if IsIPv4(addresses[0]) then
      assert IsFirstIpv4(addresses, 0);
      Ok(addresses[0].text)
    else
      var r := FirstIpv4(addresses[1..]);
      assert forall i :: 1 <= i < |addresses| ==> addresses[1..][i - 1] == addresses[i];
      assert r.Ok? ==> forall k :: IsFirstIpv4(addresses[1..], k) ==> IsFirstIpv4(addresses, k + 1);
      r
  }

  /** findDeviceIpv4: scan the device's addresses, return at the first one
      To4 accepts. */
  method FindDeviceIpv4(device: Device) returns (r: Result<string, Failure>)
    ensures r == FirstIpv4(device.addresses)
  {
    var addresses := device.addresses;
    var i := 0;
    while i < |addresses|
      invariant 0 <= i <= |addresses|
      invariant FirstIpv4(addresses[i..]) == FirstIpv4(addresses)
    {
      if IsIPv4(addresses[i]) {
        return Ok(addresses[i].text);
      }
      assert addresses[i..][1..] == addresses[i + 1..];
      i := i + 1;
    }
    return Err(DeviceHasNoIpv4);
  }

  // ---------------------------------------------------------------------
  // findMacAddrByIp: the hardware address of the first interface carrying
  // the given IP text.

  /** The type assertion to *net.IPNet succeeds and the address's text is `ip`. */
  predicate IsIPNetWithIp(addr: InterfaceAddr, ip: string)
  {
    addr.IPNet? && addr.ip.text == ip
  }

  predicate CarriesIp(addrs: seq<InterfaceAddr>, ip: string)
  {
    exists a :: a in addrs && IsIPNetWithIp(a, ip)
  }

  /** The first k interfaces were listed and none of them carries `ip`. */
  ghost predicate ScannedWithoutMatch(interfaces: seq<NetInterface>, ip: string, k: int)
  {
    && 0 <= k <= |interfaces|
    && forall j :: 0 <= j < k ==>
         interfaces[j].addrs.Some? && !CarriesIp(interfaces[j].addrs.value, ip)
  }

  /** The answer of findMacAddrByIp: scanning interfaces in order, the
      hardware address of the first one carrying `ip`; AddrsUnavailable when
      an interface's addresses cannot be listed before such a one is found;
      NoDeviceWithIp when every interface was scanned in vain. */
  function MacByIp(interfaces: seq<NetInterface>, ip: string): (r: Result<string, Failure>)
    ensures r.Ok? ==> exists k :: && ScannedWithoutMatch(interfaces, ip, k) && k < |interfaces|
                                  && interfaces[k].addrs.Some?
                                  && CarriesIp(interfaces[k].addrs.value, ip)
                                  && r.value == interfaces[k].hardwareAddr
    ensures r == Err(NoDeviceWithIp(ip)) <==> ScannedWithoutMatch(interfaces, ip, |interfaces|)
    ensures r.Err? && r.error != NoDeviceWithIp(ip) ==>
              && r.error == AddrsUnavailable
              && exists k :: ScannedWithoutMatch(interfaces, ip, k) && k < |interfaces|
                             && interfaces[k].addrs.None?
    ensures (forall j :: 0 <= j < |interfaces| ==> interfaces[j].addrs.Some?) ==>
              (r.Err? <==> forall j :: 0 <= j < |interfaces| ==> !CarriesIp(interfaces[j].addrs.value, ip))
    decreases |interfaces|
  {
    if interfaces == [] then Err(NoDeviceWithIp(ip))
    else
      match interfaces[0].addrs
      case None =>
        assert ScannedWithoutMatch(interfaces, ip, 0);
        Err(AddrsUnavailable)
      case Some(addrs) =>
        if CarriesIp(addrs, ip) then
          assert ScannedWithoutMatch(interfaces, ip, 0);
          Ok(interfaces[0].hardwareAddr)
        else
          var r := MacByIp(interfaces[1..], ip);
          assert forall i :: 1 <= i < |interfaces| ==> interfaces[1..][i - 1] == interfaces[i];
          assert forall k :: ScannedWithoutMatch(interfaces[1..], ip, k)
                             ==> ScannedWithoutMatch(interfaces, ip, k + 1);
          assert ScannedWithoutMatch(interfaces, ip, |interfaces|)
                 ==> ScannedWithoutMatch(interfaces[1..], ip, |interfaces| - 1);
          r
  }

  /** The inner loop of findMacAddrByIp: one interface's addresses in
      order, stopping at the first *net.IPNet whose text is `ip`. */
  method ScanAddrs(addrs: seq<InterfaceAddr>, ip: string) returns (found: bool)
    ensures found == CarriesIp(addrs, ip)
  {
    for j := 0 to |addrs|
      invariant forall m :: 0 <= m < j ==> !IsIPNetWithIp(addrs[m], ip)
    {
      if IsIPNetWithIp(addrs[j], ip) {
        assert addrs[j] in addrs;
        return true;
      }
    }
    return false;
  }

  /** findMacAddrByIp: list the interfaces (None when net.Interfaces
      failed), then scan them in order, addresses in order within each;
      return at the first *net.IPNet whose text is `ip`. */
  method FindMacAddrByIp(listing: Option<seq<NetInterface>>, ip: string) returns (r: Result<string, Failure>)
    ensures listing.None? ==> r == Err(InterfacesUnavailable)
    ensures listing.Some? ==> r == MacByIp(listing.value, ip)
  {
    if listing.None? {
      return Err(InterfacesUnavailable);
    }
    var interfaces := listing.value;
    var i := 0;
    while i < |interfaces|
      invariant 0 <= i <= |interfaces|
      invariant MacByIp(interfaces[i..], ip) == MacByIp(interfaces, ip)
    {
      assert interfaces[i..][0] == interfaces[i];
      assert interfaces[i..][1..] == interfaces[i + 1..];
      match interfaces[i].addrs {
        case None =>
          return Err(AddrsUnavailable);
        case Some(addrs) =>
          var found := ScanAddrs(addrs, ip);
          if found {
            return Ok(interfaces[i].hardwareAddr);
          }
      }
      i := i + 1;
    }
    return Err(NoDeviceWithIp(ip));
  }

  // ---------------------------------------------------------------------
  // Start-up of main: device, then its IPv4 address, then its MAC.

  /** The local identity main resolves before capturing, or the first
      failure on the way. `listing` is the answer of net.Interfaces, None
      when that call failed. */
  function LocalIdentity(devices: seq<Device>, name: string, listing: Option<seq<NetInterface>>)
    : (r: Result<Identity, Failure>)
    // An unknown name selects the zero device, which has no IPv4 address.
    ensures (forall i :: 0 <= i < |devices| ==> !IsNamed(devices[i], name)) ==> r == Err(DeviceHasNoIpv4)
    // The IPv4 lookup runs first; its failure is the result.
    ensures FirstIpv4(LastNamed(devices, name).addresses).Err? ==> r == Err(DeviceHasNoIpv4)
    // Past it, the MAC lookup decides: its failure is the result, its success completes the identity.
    ensures FirstIpv4(LastNamed(devices, name).addresses).Ok? ==>
              var ip := FirstIpv4(LastNamed(devices, name).addresses).value;
              && (listing.None? ==> r == Err(InterfacesUnavailable))
              && (listing.Some? && MacByIp(listing.value, ip).Ok? ==>
                    r == Ok(Identity(ip, MacByIp(listing.value, ip).value)))
              && (listing.Some? && MacByIp(listing.value, ip).Err? ==>
                    r == Err(MacByIp(listing.value, ip).error))
    // A success names the last device with the name, its first IPv4 address,
    // and the interface the MAC lookup finds for that address.
    ensures r.Ok? ==> exists k :: && IsLastNamed(devices, name, k)
                                  && FirstIpv4(devices[k].addresses) == Ok(r.value.ipv4)
    ensures r.Ok? ==> listing.Some? && MacByIp(listing.value, r.value.ipv4) == Ok(r.value.mac)
  {
    match FirstIpv4(LastNamed(devices, name).addresses)
    case Err(e) => Err(e)
    case Ok(ipv4) =>
      match listing
      case None => Err(InterfacesUnavailable)
      case Some(interfaces) =>
        match MacByIp(interfaces, ipv4)
        case Err(e) => Err(e)
        case Ok(mac) => Ok(Identity(ipv4, mac))
  }

  /** The start-up sequence of main, from the device list to the MAC. */
  method ResolveLocalIdentity(devices: seq<Device>, name: string, listing: Option<seq<NetInterface>>)
    returns (r: Result<Identity, Failure>)
    ensures r == LocalIdentity(devices, name, listing)
  {
    var device := SelectDevice(devices, name);
    var ipv4 := FindDeviceIpv4(device);
    if ipv4.Err? {
      return Err(ipv4.error);
    }
    var mac := FindMacAddrByIp(listing, ipv4.value);
    if mac.Err? {
      return Err(mac.error);
    }
    return Ok(Identity(ipv4.value, mac.value));
  }
}
