/**
  The metrics engine (Sources/Calculator.swift): it owns the frame window,
  appends every frame the display link delivers, and on a throttled subset
  of frames samples CPU, memory, frames per second and thermal state into a
  report.

  The Mach and `ProcessInfo` queries are replaced by their results, passed
  in as an `OsSample`; the display link is a small stand-in class that only
  records whether it has been activated.
 */
module Calculation {
  import opened Wrappers
  import opened FrameList
  import R = Report

  /** `TH_USAGE_SCALE` from the Mach headers: `cpu_usage` is in thousandths. */
  const TH_USAGE_SCALE: int := 1000
  /** `TH_FLAGS_IDLE` from the Mach headers: the thread is idle. */
  const TH_FLAGS_IDLE: bv32 := 0x2

  /** The fields of `thread_basic_info` that the scan reads. */
  datatype ThreadBasicInfo = ThreadBasicInfo(cpuUsage: int, flags: bv32)

  predicate Idle(info: ThreadBasicInfo) {
    info.flags & TH_FLAGS_IDLE != 0
  }

  /** The percentage one thread adds to the total: nothing if it is idle. */
  function Share(info: ThreadBasicInfo): (r: real)
    ensures Idle(info) ==> r == 0.0
    ensures 0 <= info.cpuUsage <= TH_USAGE_SCALE ==> 0.0 <= r <= 100.0
  {
    if Idle(info) then 0.0 else info.cpuUsage as real / TH_USAGE_SCALE as real * 100.0
  }

  /**
    What the OS answers for one metering tick.  `threads` is `None` when
    `task_threads` fails or returns no list; otherwise it holds, per thread in
    enumeration order, `None` if `thread_info` fails for that thread.
    `footprint` is `None` when `task_info` fails.
   */
  datatype OsSample = OsSample(
    threads: Option<seq<Option<ThreadBasicInfo>>>,
    footprint: Option<R.UInt64>,
    physicalMemory: R.UInt64,
    thermal: R.OsThermalState)

  /**
    The CPU percentage of a thread list: the shares of the threads scanned
    before the first failed `thread_info`.
   */
  function CpuSum(infos: seq<Option<ThreadBasicInfo>>): (r: real)
    ensures (forall i :: 0 <= i < |infos| && infos[i].Some? ==> Idle(infos[i].value)) ==> r == 0.0
  {
    if infos == [] || infos[0].None? then 0.0 else Share(infos[0].value) + CpuSum(infos[1..])
  }

  /** The result of `cpuUsage()` for a whole enumeration answer. */
  function CpuTotal(threads: Option<seq<Option<ThreadBasicInfo>>>): real {
    if threads.None? then 0.0 else CpuSum(threads.value)
  }

  /** The number of threads that are scanned (before the first failure) and not idle. */
  function BusyThreads(infos: seq<Option<ThreadBasicInfo>>): (n: nat)
    ensures n <= |infos|
  {
    if infos == [] || infos[0].None? then 0
    else (if Idle(infos[0].value) then 0 else 1) + BusyThreads(infos[1..])
  }

  /**
    The scan stops at the first failed `thread_info`: threads after it do
    not count, and the partial sum of the threads before it is the result.
   */
  lemma {:induction false} CpuSumStopsAtFailure(infos: seq<Option<ThreadBasicInfo>>, k: nat)
    requires k < |infos| && infos[k].None?
    requires forall j :: 0 <= j < k ==> infos[j].Some?
    ensures CpuSum(infos) == CpuSum(infos[..k])
  {
    if k > 0 {
      CpuSumStopsAtFailure(infos[1..], k - 1);
      assert infos[1..][..k - 1] == infos[..k][1..];
    }
  }

  /** An idle thread adds nothing, wherever it stands in the scanned part of the list. */
  lemma {:induction false} CpuSumSkipsIdle(
    before: seq<Option<ThreadBasicInfo>>, info: ThreadBasicInfo, after: seq<Option<ThreadBasicInfo>>)
    requires Idle(info)
    requires forall j :: 0 <= j < |before| ==> before[j].Some?
    ensures CpuSum(before + [Some(info)] + after) == CpuSum(before + after)
  {
    if before == [] {
      assert before + [Some(info)] + after == [Some(info)] + after;
      assert ([Some(info)] + after)[1..] == after;
      assert before + after == after;
    } else {
      CpuSumSkipsIdle(before[1..], info, after);
      assert (before + [Some(info)] + after)[1..] == before[1..] + [Some(info)] + after;
      assert (before + after)[1..] == before[1..] + after;
    }
  }

  /**
    With every `cpu_usage` in `0..TH_USAGE_SCALE`, the total is between 0
    and 100 per busy thread: it exceeds 100 only with more than one busy
    thread.
   */
  lemma {:induction false} CpuSumBounds(infos: seq<Option<ThreadBasicInfo>>)
    requires forall j :: 0 <= j < |infos| && infos[j].Some? ==>
      0 <= infos[j].value.cpuUsage <= TH_USAGE_SCALE
    ensures 0.0 <= CpuSum(infos) <= 100.0 * BusyThreads(infos) as real
  {
    if infos != [] && infos[0].Some? {
      CpuSumBounds(infos[1..]);
    }
  }

  /**
    `cpuUsage()`: the loop over the enumerated threads, adding the share of
    each thread whose idle flag is clear and breaking at the first failed
    `thread_info`.  The thread list is released on every path; `deallocated`
    records that `vm_deallocate` was reached.
   */
  method CpuUsage(threads: Option<seq<Option<ThreadBasicInfo>>>) returns (total: real, ghost deallocated: bool)
    ensures total == CpuTotal(threads)
    ensures deallocated
  {
    total := 0.0;
    if threads.Some? {
      var list := threads.value;
      for index := 0 to |list|
        invariant CpuSum(list) == total + CpuSum(list[index..])
      {
        assert list[index..][1..] == list[index + 1..];
        if list[index].None? {
          break;
        }
        var info := list[index].value;
        if info.flags & TH_FLAGS_IDLE == 0 {
          total := total + info.cpuUsage as real / TH_USAGE_SCALE as real * 100.0;
        }
      }
    }
    deallocated := true;
  }

  /**
    `memoryUsage()`: `used` is the physical footprint when `task_info`
    succeeds and falls back to 0 otherwise; `total` is the physical memory
    whatever the query returned.
   */
  method MemoryUsage(footprint: Option<R.UInt64>, physicalMemory: R.UInt64) returns (usage: R.MemoryUsage)
    ensures usage.total == physicalMemory
    ensures footprint.Some? ==> usage.used == footprint.value
    ensures footprint.None? ==> usage.used == 0
  {
    var used: R.UInt64 := 0;
    if footprint.Some? {
      used := footprint.value;
    }
    usage := R.MemoryUsage(used, physicalMemory);
  }

  /** The external display link: silent until activated, silent again once replaced. */
  class DisplayLink {
    var active: bool

    constructor ()
      ensures !active
    {
      active := false;
    }

    method Activate()
      modifies this
      ensures active
    {
      active := true;
    }
  }

  class Calculator {
    /** The throttle interval of the metering stage; its timing is not modelled. */
    const meteringTime: nat
    const linkedFrameList: LinkedFramesList
    var displayLink: DisplayLink
    /** How often `resume()` and `pause()` have been called. */
    ghost var resumeCalls: nat
    ghost var pauseCalls: nat

    ghost predicate Valid()
      reads this, linkedFrameList
    {
      linkedFrameList.Valid()
    }

    constructor (meteringTime: nat)
      ensures Valid() && this.meteringTime == meteringTime
      ensures fresh(linkedFrameList) && fresh(displayLink) && !displayLink.active
      ensures linkedFrameList.appended == [] && linkedFrameList.count == 0
      ensures resumeCalls == 0 && pauseCalls == 0
    {
      this.meteringTime := meteringTime;
      linkedFrameList := new LinkedFramesList();
      displayLink := new DisplayLink();
      resumeCalls, pauseCalls := 0, 0;
    }

    /** `resume()`: activates the current display link; the frame window is untouched. */
    method Resume()
      requires Valid()
      modifies this, displayLink
      ensures Valid() && displayLink == old(displayLink) && displayLink.active
      ensures unchanged(linkedFrameList)
      ensures resumeCalls == old(resumeCalls) + 1 && pauseCalls == old(pauseCalls)
    {
      displayLink.Activate();
      resumeCalls := resumeCalls + 1;
    }

    /**
      `pause()`: replaces the display link by a fresh, inactive one and
      rebinds the subscriptions to it.  The frame list is a `let` and is not
      recreated: frames recorded before the pause stay until a later append
      evicts them.
     */
    method Pause()
      requires Valid()
      modifies this
      ensures Valid() && fresh(displayLink) && !displayLink.active
      ensures unchanged(linkedFrameList)
      ensures pauseCalls == old(pauseCalls) + 1 && resumeCalls == old(resumeCalls)
    {
      displayLink := new DisplayLink();
      pauseCalls := pauseCalls + 1;
    }

    /** The frame sink: every frame the active display link delivers is appended. */
    method ReceiveFrame(timestamp: real)
      requires Valid() && displayLink.active
      modifies linkedFrameList
      ensures Valid()
      ensures linkedFrameList.appended == old(linkedFrameList.appended) + [timestamp]
      ensures linkedFrameList.frames == Evict(old(linkedFrameList.frames) + [timestamp], timestamp)
    {
      linkedFrameList.Append(timestamp);
    }

    /** `fps()`: the number of frames in the window. */
    function Fps(): (n: int)
      reads this, linkedFrameList
      requires Valid()
      ensures n == |linkedFrameList.frames| && n >= 0
    {
      linkedFrameList.count
    }

    /**
      `collectMetrics()`: the report holds the four sampler outputs at the
      time of collection.
     */
    method CollectMetrics(sample: OsSample) returns (report: R.PerformanceReport)
      requires Valid()
      ensures report.cpuUsage == CpuTotal(sample.threads)
      ensures report.memoryUsage.total == sample.physicalMemory
      ensures report.memoryUsage.used == if sample.footprint.Some? then sample.footprint.value else 0
      ensures report.fps == |linkedFrameList.frames|
      ensures report.thermalState == R.FromOs(sample.thermal)
    {
      var cpu, _ := CpuUsage(sample.threads);
      var memory := MemoryUsage(sample.footprint, sample.physicalMemory);
      report := R.PerformanceReport(cpu, memory, Fps(), R.FromOs(sample.thermal));
    }
  }

  /**
    Frames recorded before `pause()` still count after the next `resume()`:
    one frame, a pause and a resume, and the next report has `fps == 1`.
   */
  method PauseKeepsFrames(sample: OsSample) returns (report: R.PerformanceReport)
    ensures report.fps == 1
  {
    var calculator := new Calculator(500_000_000);
    calculator.Resume();
    calculator.ReceiveFrame(10.0);
    calculator.Pause();
    calculator.Resume();
    report := calculator.CollectMetrics(sample);
  }
}
