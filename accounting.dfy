/** Traffic accounting of the monitor: two package-level counters of bits,
    one for traffic addressed to the local MAC (downstream) and one for every
    other Ethernet frame (upstream), fed by the capture loop and read and
    reset once per tick by the reporter. */
module Accounting {
  import opened Results

  /** One captured frame as the capture loop sees it: the rendered
      destination MAC of its Ethernet layer (None when the frame has no
      Ethernet layer) and the length of its data in bytes. */
  datatype Frame = Frame(dstMac: Option<string>, dataLen: nat)

  /** The two counters, in bits. */
  datatype Totals = Totals(down: nat, up: nat)

  /** Both counters start at zero and a drain returns them to zero. */
  const Zero := Totals(0, 0)

  function Bits(t: Totals): nat
  {
    t.down + t.up
  }

  /** Bits one frame contributes: eight per byte of an Ethernet frame. */
  function FrameBits(f: Frame): nat
  {
    if f.dstMac.Some? then 8 * f.dataLen else 0
  }

  /** The body of the capture loop, as a step on the counter pair:
      a frame with no Ethernet layer is ignored, a frame addressed to the
      local MAC is downstream and every other Ethernet frame (broadcast and
      multicast included) is upstream. */
  function Step(t: Totals, f: Frame, localMac: string): (r: Totals)
    ensures Bits(r) == Bits(t) + FrameBits(f)
    ensures r.down >= t.down && r.up >= t.up
    ensures f.dstMac.None? ==> r == t
    ensures f.dstMac == Some(localMac) ==> r.up == t.up
    ensures f.dstMac.Some? && f.dstMac != Some(localMac) ==> r.down == t.down
  {
    match f.dstMac
    case None => t
    case Some(dst) =>
      if dst == localMac then Totals(t.down + f.dataLen * 8, t.up)
      else Totals(t.down, t.up + f.dataLen * 8)
  }

  /** The counters after the capture loop has accounted `frames` in order. */
  function AccountAll(t: Totals, frames: seq<Frame>, localMac: string): Totals
    decreases |frames|
  {
    if frames == [] then t
    else AccountAll(Step(t, frames[0], localMac), frames[1..], localMac)
  }

  /** Reference sums, frame by frame: the bits of the frames addressed to
      the local MAC, of the other Ethernet frames, and the bytes of all
      Ethernet frames. */
  function DownstreamBits(frames: seq<Frame>, localMac: string): nat
    decreases |frames|
  {
    if frames == [] then 0
    else (if frames[0].dstMac == Some(localMac) then 8 * frames[0].dataLen else 0)
         + DownstreamBits(frames[1..], localMac)
  }

  function UpstreamBits(frames: seq<Frame>, localMac: string): nat
    decreases |frames|
  {
    if frames == [] then 0
    else (if frames[0].dstMac.Some? && frames[0].dstMac != Some(localMac) then 8 * frames[0].dataLen else 0)
         + UpstreamBits(frames[1..], localMac)
  }

  function EthernetBytes(frames: seq<Frame>): nat
    decreases |frames|
  {
    if frames == [] then 0
    else (if frames[0].dstMac.Some? then frames[0].dataLen else 0) + EthernetBytes(frames[1..])
  }

  /** Accounting a sequence of frames adds to each counter exactly the bits
      of the frames of its direction. */
  lemma {:induction false} AccountAllSums(t: Totals, frames: seq<Frame>, localMac: string)
    ensures AccountAll(t, frames, localMac).down == t.down + DownstreamBits(frames, localMac)
    ensures AccountAll(t, frames, localMac).up == t.up + UpstreamBits(frames, localMac)
    decreases |frames|
  {
    if frames != [] {
      AccountAllSums(Step(t, frames[0], localMac), frames[1..], localMac);
    }
  }

  /** Over a list of frames, the downstream bits plus the upstream bits are
      eight times the bytes of its Ethernet frames. */
  lemma {:induction false} DirectionsPartitionEthernetBits(frames: seq<Frame>, localMac: string)
    ensures DownstreamBits(frames, localMac) + UpstreamBits(frames, localMac) == 8 * EthernetBytes(frames)
    decreases |frames|
  {
    if frames != [] {
      DirectionsPartitionEthernetBits(frames[1..], localMac);
    }
  }

  /** Between drains, the two counters together grow by exactly eight bits
      per Ethernet byte, and neither of them decreases. */
  lemma AccountAllGrowth(t: Totals, frames: seq<Frame>, localMac: string)
    ensures Bits(AccountAll(t, frames, localMac)) == Bits(t) + 8 * EthernetBytes(frames)
    ensures AccountAll(t, frames, localMac).down >= t.down
    ensures AccountAll(t, frames, localMac).up >= t.up
  {
    AccountAllSums(t, frames, localMac);
    DirectionsPartitionEthernetBits(frames, localMac);
  }

  /** N inbound frames of S bytes each raise the downstream counter by
      exactly N * S * 8 bits and leave the upstream counter alone. */
  lemma {:induction false} InboundFramesAccumulate(t: Totals, frames: seq<Frame>, localMac: string, size: nat)
    requires forall i :: 0 <= i < |frames| ==> frames[i] == Frame(Some(localMac), size)
    ensures AccountAll(t, frames, localMac) == Totals(t.down + |frames| * size * 8, t.up)
    decreases |frames|
  {
    if frames != [] {
      InboundFramesAccumulate(Step(t, frames[0], localMac), frames[1..], localMac, size);
      assert size * 8 + (|frames| - 1) * size * 8 == |frames| * size * 8;
    }
  }

  /** Accounting two batches one after the other is accounting their
      concatenation. */
  lemma {:induction false} AccountAllAppend(t: Totals, a: seq<Frame>, b: seq<Frame>, localMac: string)
    ensures AccountAll(t, a + b, localMac) == AccountAll(AccountAll(t, a, localMac), b, localMac)
    decreases |a|
  {
    if a == [] {
      assert a + b == b;
    } else {
      assert (a + b)[0] == a[0];
      assert (a + b)[1..] == a[1..] + b;
      AccountAllAppend(Step(t, a[0], localMac), a[1..], b, localMac);
    }
  }

  /** A schedule of the two goroutines, with each drain taken as one atomic
      step: a captured frame or a reporter tick. */
  datatype Event = Captured(frame: Frame) | Tick

  /** What the reporter printed, tick by tick, and the counters at the end. */
  datatype Trace = Trace(reports: seq<Totals>, residual: Totals)

  function Run(t: Totals, events: seq<Event>, localMac: string): Trace
    decreases |events|
  {
    if events == [] then Trace([], t)
    else match events[0]
      case Captured(f) => Run(Step(t, f, localMac), events[1..], localMac)
      case Tick =>
        var rest := Run(Zero, events[1..], localMac);
        Trace([t] + rest.reports, rest.residual)
  }

  /** The frames a schedule captures, in order. */
  function CapturedFrames(events: seq<Event>): seq<Frame>
    decreases |events|
  {
    if events == [] then []
    else if events[0].Captured? then [events[0].frame] + CapturedFrames(events[1..])
    else CapturedFrames(events[1..])
  }

  /** A run of captures with no tick between them. */
  function Captures(frames: seq<Frame>): seq<Event>
    decreases |frames|
  {
    if frames == [] then [] else [Captured(frames[0])] + Captures(frames[1..])
  }

  function Ticks(events: seq<Event>): nat
    decreases |events|
  {
    if events == [] then 0
    else (if events[0].Tick? then 1 else 0) + Ticks(events[1..])
  }

  function SumBits(reports: seq<Totals>): nat
    decreases |reports|
  {
    if reports == [] then 0 else Bits(reports[0]) + SumBits(reports[1..])
  }

  /** The reporter prints once per tick. */
  lemma {:induction false} OneReportPerTick(t: Totals, events: seq<Event>, localMac: string)
    ensures |Run(t, events, localMac).reports| == Ticks(events)
    decreases |events|
  {
    if events != [] {
      match events[0]
      case Captured(f) => OneReportPerTick(Step(t, f, localMac), events[1..], localMac);
      case Tick => OneReportPerTick(Zero, events[1..], localMac);
    }
  }

  /** No update is lost and none is counted twice: what all the drains
      report, plus what is still in the counters, is what the counters held
      at the start plus eight bits per captured Ethernet byte. */
  lemma {:induction false} NoLostUpdates(t: Totals, events: seq<Event>, localMac: string)
    ensures SumBits(Run(t, events, localMac).reports) + Bits(Run(t, events, localMac).residual)
            == Bits(t) + 8 * EthernetBytes(CapturedFrames(events))
    decreases |events|
  {
    if events != [] {
      match events[0]
      case Captured(f) =>
        NoLostUpdates(Step(t, f, localMac), events[1..], localMac);
        assert CapturedFrames(events) == [f] + CapturedFrames(events[1..]);
        assert ([f] + CapturedFrames(events[1..]))[1..] == CapturedFrames(events[1..]);
      case Tick =>
        NoLostUpdates(Zero, events[1..], localMac);
        var rest := Run(Zero, events[1..], localMac);
        assert ([t] + rest.reports)[1..] == rest.reports;
    }
  }

  /** Captures with no tick in between reach the next tick as one batch. */
  lemma {:induction false} RunCaptures(t: Totals, frames: seq<Frame>, rest: seq<Event>, localMac: string)
    ensures Run(t, Captures(frames) + rest, localMac) == Run(AccountAll(t, frames, localMac), rest, localMac)
    decreases |frames|
  {
    if frames == [] {
      assert Captures(frames) + rest == rest;
    } else {
      var evs := Captures(frames) + rest;
      assert evs[0] == Captured(frames[0]);
      assert evs[1..] == Captures(frames[1..]) + rest;
      RunCaptures(Step(t, frames[0], localMac), frames[1..], rest, localMac);
    }
  }

  /** Running a schedule in two parts: the second part starts from the
      counters the first part leaves. */
  lemma {:induction false} RunAppend(t: Totals, first: seq<Event>, second: seq<Event>, localMac: string)
    ensures var head := Run(t, first, localMac);
      var tail := Run(head.residual, second, localMac);
      Run(t, first + second, localMac) == Trace(head.reports + tail.reports, tail.residual)
    decreases |first|
  {
    if first == [] {
      assert first + second == second;
    } else {
      assert (first + second)[0] == first[0];
      assert (first + second)[1..] == first[1..] + second;
      match first[0]
      case Captured(f) =>
        RunAppend(Step(t, f, localMac), first[1..], second, localMac);
      case Tick =>
        RunAppend(Zero, first[1..], second, localMac);
        var head := Run(Zero, first[1..], localMac);
        var tail := Run(head.residual, second, localMac);
        assert [t] + (head.reports + tail.reports) == ([t] + head.reports) + tail.reports;
    }
  }

  /** A reporting interval: a tick, the frames captured until the next
      tick, that tick, and whatever follows. */
  function Interval(frames: seq<Frame>, after: seq<Event>): seq<Event>
  {
    [Tick] + Captures(frames) + [Tick] + after
  }

  /** The second report of a schedule that starts with an interval. */
  lemma IntervalReport(t: Totals, frames: seq<Frame>, after: seq<Event>, localMac: string)
    ensures var trace := Run(t, Interval(frames, after), localMac);
      |trace.reports| > 1 && trace.reports[1] == AccountAll(Zero, frames, localMac)
  {
    var interval := Interval(frames, after);
    assert interval[0] == Tick;
    assert interval[1..] == Captures(frames) + ([Tick] + after);
    RunCaptures(Zero, frames, [Tick] + after, localMac);
    var last := [Tick] + after;
    assert last[0] == Tick && last[1..] == after;
  }

  /** After a prefix with n ticks, the reports of a schedule continue with
      those of the remainder, run from where the prefix left the counters. */
  lemma ReportAfterPrefix(t: Totals, before: seq<Event>, rest: seq<Event>, k: nat, localMac: string)
    requires k < |Run(Run(t, before, localMac).residual, rest, localMac).reports|
    ensures var trace := Run(t, before + rest, localMac);
      |trace.reports| > Ticks(before) + k &&
      trace.reports[Ticks(before) + k] == Run(Run(t, before, localMac).residual, rest, localMac).reports[k]
  {
    RunAppend(t, before, rest, localMac);
    OneReportPerTick(t, before, localMac);
  }

  /** The value a drain reports is exactly what was added since the
      previous drain: the downstream and upstream bits of the frames
      captured between the two ticks. */
  lemma DrainReportsFramesSincePreviousDrain(
    t: Totals, before: seq<Event>, frames: seq<Frame>, after: seq<Event>, localMac: string)
    ensures var trace := Run(t, before + Interval(frames, after), localMac);
      && |trace.reports| > Ticks(before) + 1
      && trace.reports[Ticks(before) + 1].down == DownstreamBits(frames, localMac)
      && trace.reports[Ticks(before) + 1].up == UpstreamBits(frames, localMac)
  {
    IntervalReport(Run(t, before, localMac).residual, frames, after, localMac);
    ReportAfterPrefix(t, before, Interval(frames, after), 1, localMac);
    AccountAllSums(Zero, frames, localMac);
  }

  /** Two drains with no frame captured between them: the second reports
      zero for both directions. */
  lemma DrainAfterDrainReportsZero(t: Totals, before: seq<Event>, after: seq<Event>, localMac: string)
    ensures var trace := Run(t, before + [Tick, Tick] + after, localMac);
      |trace.reports| > Ticks(before) + 1 && trace.reports[Ticks(before) + 1] == Zero
  {
    DrainReportsFramesSincePreviousDrain(t, before, [], after, localMac);
    assert Interval([], after) == [Tick, Tick] + after;
    assert before + [Tick, Tick] + after == before + ([Tick, Tick] + after);
    var report := Run(t, before + [Tick, Tick] + after, localMac).reports[Ticks(before) + 1];
    assert report == Totals(report.down, report.up);
  }

  /** The two package-level counters, in bits, shared by the capture loop
      and the reporter. */
  class TrafficCounters {
    var downStream: nat
    var upStream: nat

    /** Both counters are declared with the value 0. */
    constructor ()
      ensures Current() == Zero
    {
      downStream, upStream := 0, 0;
    }

    function Current(): Totals
      reads this
    {
      Totals(downStream, upStream)
    }

    /** One pass of the capture loop's body. */
    method Account(frame: Frame, localMac: string)
      modifies this
      ensures Current() == Step(old(Current()), frame, localMac)
    {
      match frame.dstMac {
        case None =>
        case Some(dst) =>
          if dst == localMac {
            downStream := downStream + frame.dataLen * 8;
          } else {
            upStream := upStream + frame.dataLen * 8;
          }
      }
    }

    /** The capture loop over the frames the packet source delivers. */
    method Capture(frames: seq<Frame>, localMac: string)
      modifies this
      ensures Current() == AccountAll(old(Current()), frames, localMac)
    {
      for i := 0 to |frames|
        invariant Current() == AccountAll(old(Current()), frames[..i], localMac)
      {
        Account(frames[i], localMac);
        AccountAllAppend(old(Current()), frames[..i], [frames[i]], localMac);
        assert frames[..i] + [frames[i]] == frames[..i + 1];
      }
      assert frames[..|frames|] == frames;
    }

    /** One tick of the reporter: read both counters, then reset them. */
    method Drain() returns (snapshot: Totals)
      modifies this
      ensures snapshot == old(Current())
      ensures Current() == Zero
    {
      snapshot := Totals(downStream, upStream);
      downStream := 0;
      upStream := 0;
    }

    /** The capture loop and the reporter interleaved along a schedule,
        each drain atomic. */
    method RunSchedule(events: seq<Event>, localMac: string) returns (reports: seq<Totals>)
      modifies this
      ensures reports == Run(old(Current()), events, localMac).reports
      ensures Current() == Run(old(Current()), events, localMac).residual
    {
      reports := [];
      for i := 0 to |events|
        invariant Run(old(Current()), events, localMac)
                  == Trace(reports + Run(Current(), events[i..], localMac).reports,
                           Run(Current(), events[i..], localMac).residual)
      {
        assert events[i..][0] == events[i];
        assert events[i..][1..] == events[i + 1..];
        match events[i] {
          case Captured(f) =>
            Account(f, localMac);
          case Tick =>
            var snapshot := Drain();
            assert reports + ([snapshot] + Run(Zero, events[i + 1..], localMac).reports)
                   == (reports + [snapshot]) + Run(Zero, events[i + 1..], localMac).reports;
            reports := reports + [snapshot];
        }
      }
      assert events[|events|..] == [];
      assert reports + [] == reports;
    }
  }
}
