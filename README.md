# netband-monitor in Dafny

netband-monitor measures the throughput of one network interface. At
start-up it picks the capture device by name, takes that device's first IPv4
address, and finds the MAC address of the interface that carries that
address. It then captures frames. Every Ethernet frame whose destination MAC
equals the local MAC adds eight bits per captured byte to the downstream
counter. Every other Ethernet frame, broadcast and multicast included, adds
them to the upstream counter. Frames with no Ethernet layer are ignored. Once a
second a reporter goroutine prints both counters and resets them to zero.

The model has three modules:

- `Results` (`results.dfy`): `Option` and `Result`. They stand for Go's nil
  checks, error returns and panics.
- `Accounting` (`accounting.dfy`): the two counters as the class
  `TrafficCounters`, with methods for the capture-loop body (`Account`), the
  capture loop (`Capture`) and the reporter's read-and-reset (`Drain`).
  They are specified by pure functions on the counter pair: `Step` for one
  frame, `AccountAll` for a batch of frames, and `Run` for a schedule that
  interleaves captured frames with reporter ticks. Lemmas connect these to
  independent frame-by-frame sums (`DownstreamBits`, `UpstreamBits`,
  `EthernetBytes`).
- `Discovery` (`discovery.dfy`): the three start-up searches as loop methods.
  Each is proved equal to a recursive reference function. Each reference
  function's contract states the first-match or last-match result and the
  failure condition.

A frame is modelled by two values: the rendered destination MAC of its
Ethernet layer (absent when the frame has no Ethernet layer) and
`len(packet.Data())`. That length is the captured length, so the capture's
snapshot length of 1024 (netband-monitor.go:21) bounds it. The accounting adds
that captured length, as the code does, and not the length on the wire.

The code has no subnet (CIDR) mode and no per-subnet log files, so the model
has neither. It follows the code.

## Model

| member | source | states |
|---|---|---|
| `Accounting.Step` | netband-monitor.go:75-84 | A frame changes the total by exactly 8 × its length when it has an Ethernet layer, and by nothing when it has none. Neither counter decreases. A frame addressed to the local MAC leaves upstream unchanged. Any other Ethernet frame leaves downstream unchanged. |
| `Accounting.AccountAllSums` | netband-monitor.go:73-85 | After a batch of frames, each counter equals its old value plus the bits of exactly the frames of its own direction. |
| `Accounting.DirectionsPartitionEthernetBits` | netband-monitor.go:79-83 | For every list of frames, the downstream bits plus the upstream bits equal 8 × the bytes of its Ethernet frames. |
| `Accounting.AccountAllGrowth` | netband-monitor.go:79-83 | Between drains, down + up grows by exactly 8 × the Ethernet bytes captured, and neither counter decreases. |
| `Accounting.InboundFramesAccumulate` | netband-monitor.go:79-80 | N frames of S bytes, all addressed to the local MAC, raise downstream by exactly N × S × 8 and leave upstream unchanged. |
| `Accounting.AccountAllAppend` | netband-monitor.go:73-85 | Accounting two batches one after the other equals accounting their concatenation. |
| `Accounting.OneReportPerTick` | netband-monitor.go:121-127 | A schedule produces exactly one report per reporter tick. |
| `Accounting.NoLostUpdates` | netband-monitor.go:121-125 | Over any schedule of frames and atomic drains, the sum of all reports plus what remains in the counters equals the starting value plus 8 × every captured Ethernet byte. With each increment and each drain taken as one atomic step, no update is lost and none is counted twice. |
| `Accounting.RunCaptures` | netband-monitor.go:73-85 | Frames captured with no tick between them reach the next tick as one batch, as `AccountAll` gives it. |
| `Accounting.RunAppend` | netband-monitor.go:121-127 | Running a schedule in two parts gives the reports of the first part followed by those of the second. The second part starts from the counters the first part leaves. |
| `Accounting.ReportAfterPrefix` | netband-monitor.go:121-127 | After a prefix with n ticks, report n + k of the whole schedule is report k of the remainder. The remainder is run from the counters the prefix leaves. |
| `Accounting.IntervalReport` | netband-monitor.go:122-125 | In a schedule that starts with a tick, some frames and a second tick, the second tick reports those frames accounted from zero. |
| `Accounting.DrainReportsFramesSincePreviousDrain` | netband-monitor.go:122-125 | The report of any drain equals the downstream bits and upstream bits of exactly the frames captured since the previous drain. |
| `Accounting.DrainAfterDrainReportsZero` | netband-monitor.go:122-125 | A drain that follows another drain with no frame in between reports (0, 0). |
| `Accounting.TrafficCounters.constructor` | netband-monitor.go:17-18 | Both counters start at 0. |
| `Accounting.TrafficCounters.Account` | netband-monitor.go:75-84 | The new counters are `Step` of the old ones, so the properties of `Step` hold for the object. |
| `Accounting.TrafficCounters.Capture` | netband-monitor.go:72-85 | After the capture loop, the counters are the old ones with every frame accounted in order. |
| `Accounting.TrafficCounters.Drain` | netband-monitor.go:123-125 | Returns the values held just before the call and leaves both counters at 0. |
| `Accounting.TrafficCounters.RunSchedule` | netband-monitor.go:69-85 | Running the capture loop and the reporter along a schedule returns exactly the reports `Run` gives and leaves its residual in the counters, so `NoLostUpdates` and the drain lemmas hold for the object. |
| `Discovery.LastNamed` | netband-monitor.go:37-42 | The result is the last device in list order with the requested name. With no such device, it is the zero device (empty name, no addresses). |
| `Discovery.SelectDevice` | netband-monitor.go:37-42 | The selection loop, which has no break, returns `LastNamed` of the list. |
| `Discovery.FirstIpv4` | netband-monitor.go:88-95 | The result succeeds exactly when some address is IPv4. It is then the text of the first IPv4 address in list order. Otherwise it is the no-IPv4 failure. |
| `Discovery.FindDeviceIpv4` | netband-monitor.go:88-95 | The early-return loop returns `FirstIpv4` of the device's addresses. |
| `Discovery.MacByIp` | netband-monitor.go:98-119 | On success, the result is the hardware address of the first interface carrying the IP, and every earlier interface was listed without it. The not-found error occurs exactly when every interface was listed and none carries it. Any other failure is an address-listing failure at an interface reached before a match. When every listing succeeds, the lookup fails exactly when no interface carries the IP. |
| `Discovery.ScanAddrs` | netband-monitor.go:110-116 | The scan of one interface's addresses finds a match exactly when one of them is a `*net.IPNet` whose text is the IP. |
| `Discovery.FindMacAddrByIp` | netband-monitor.go:98-119 | A failed interface listing gives the interfaces-unavailable failure. Otherwise the loop over interfaces in order, with `ScanAddrs` over each one's addresses, returns `MacByIp` of the listing. |
| `Discovery.LocalIdentity` | netband-monitor.go:37-48 | When the selected device (the last with the name) has no IPv4 address, start-up fails with the no-IPv4 failure; an unknown name is such a case. Otherwise a failed interface listing gives the interfaces-unavailable failure, a failed MAC lookup gives that lookup's failure, and a successful one gives the identity made of the device's first IPv4 address and the MAC found for it. A success always names the last device with the name and the interface the MAC lookup finds. |
| `Discovery.ResolveLocalIdentity` | netband-monitor.go:30-49 | Start-up runs device selection, then the IPv4 lookup, then the MAC lookup, and returns `LocalIdentity`, including the first failure along the way. |

## Left out

- Packet capture and OS queries are not modelled as calls. This covers `pcap.FindAllDevs`, `pcap.OpenLive`, `SetBPFFilter`, the packet source, `net.Interfaces` and `i.Addrs`. Their results are inputs: device lists, the interface listing, frame sequences and event schedules. A failure of `FindAllDevs` (netband-monitor.go:31-34) ends the process before any modelled step runs, so it is not represented. Failures of `OpenLive` and `SetBPFFilter` (netband-monitor.go:56-66) end the process after the whole modelled start-up and before capture, so they are not represented either: the model's start-up result is what the process holds at that point. A failure of `net.Interfaces` (netband-monitor.go:99-102) and of an interface's `Addrs` (netband-monitor.go:105-108) happen inside the MAC lookup, and both are modelled as failures.
- Layer decoding and string rendering are taken as given. `packet.Layer` gives the optional destination MAC. `DstMAC.String()` and `HardwareAddr.String()` are given strings. `IP.String()` is the `text` field of an address. `IP.To4() != nil` is the predicate `IsIPv4`, which follows the Go library's rule.
- Concurrency is not modelled. `go monitor()` runs the reporter beside the capture loop, and the two share the counters with no lock, so there are two data races the model leaves out. First, an increment that lands between the read at line 123 and the reset at lines 124-125 is lost. Second, each `+=` at lines 80 and 82 is a read-modify-write: it can read a counter before a reset and store the sum after it, so the next report repeats bits already reported. The model takes each increment and each drain as one atomic step and covers every sequential schedule of them. Its no-lost-update and no-double-count results (`NoLostUpdates`, the drain lemmas) hold only under that assumption.
- Rate rendering is not modelled: the `float32(...)/1024` division, the `\r` terminal line and the one-second `time.Sleep`. These are floating point, I/O and timing. `Drain` returns the raw bit counts.
- Process aborts are not modelled as aborts. `panic` and `log.Fatal` become `Err` results that stop the remaining steps.
- Accounting.TrafficCounters.Account: the counters are unbounded naturals, not Go's `int`, which is 64 bits wide on 64-bit targets and 32 bits wide on 32-bit ones (386, 32-bit ARM). The `+=` at netband-monitor.go:80 and :82 wraps after 2^63 bits on a 64-bit build, but after 2^31 bits (256 MiB captured between two drains) on a 32-bit build, and the model does not capture that wrap. Wrap-around is out of reach only for a 64-bit build whose reporter keeps running once a second: a reporter blocked in its write to standard output (line 123) stops the resets at lines 124-125 while capture goes on, so the counters can grow without bound.
