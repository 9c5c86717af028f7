# PerformanceMonitor in Dafny

This project is a model of the sequential core of PerformanceMonitor, a SwiftUI overlay. The overlay shows CPU usage, memory usage, frames per second and the thermal state of the running app. The model covers these parts:

- **`FrameList`** (`frame_list.dfy`) is the sliding one-second frame window, `LinkedFramesList`.
  - It is a class whose chain of frame nodes is modelled as a sequence of timestamps, oldest first, with a separate `count`.
  - `Append` adds the frame at the tail. `RemoveFrameNodes` then runs the eviction loop: it drops the head while the head is more than one second older than the new frame.
  - The ghost field `appended` keeps every timestamp ever appended. The class invariant says that:
    - the retained frames are `Window(appended)`, where `Window` is a specification function that folds eviction over the history;
    - `count` is their number.
  - `WindowIsRecent` proves that, for non-decreasing timestamps, `Window` is exactly the set of timestamps within one second of the newest one.
- **`Calculation`** (`calculator.dfy`) is the metrics engine, `Calculator`.
  - The Mach and `ProcessInfo` queries are replaced by their answers, an `OsSample`:
    - per thread, an optional `thread_basic_info`;
    - an optional `phys_footprint`;
    - the physical memory;
    - the OS thermal level.
  - `CpuUsage` is the accumulation loop. It adds the share of each thread that is not idle and breaks at the first failed `thread_info`.
  - `MemoryUsage` falls back to `used = 0`.
  - `Fps` is the window count.
  - `Resume` activates the display link. `Pause` replaces the display link but keeps the frame list.
  - `CollectMetrics` assembles a `PerformanceReport`.
- **`Monitor`** (`monitor.dfy`) is the lifecycle controller, `PerformanceMonitor`.
  - It is an active/paused state machine that starts paused and forwards only real transitions to the calculator.
  - The sink lets a delivered report into the `ReportObservable` cell only while the monitor is active.
  - Each method is proved against the pure transition function `Step`. The lemmas about `Step` and its fold `Run` state the lifecycle properties over arbitrary event sequences.
- **`Observable`** (`observable.dfy`) is `ReportObservable`, the last-report cell.
- **`Report`** (`report.dfy`) holds `PerformanceReport`, `MemoryUsage` and `ThermalState`. It includes the total mapping from the OS thermal level, with its `@unknown default`, and the raw values.
- **`Sizes`** (`sizes.dfy`) covers these parts of `SizeClass`:
  - the hand-built `allCases` list, which leaves out `toolbar(.expanded)`;
  - `next()`/`previous()` navigation over that list;
  - `scale`.
- **`Gauges`** (`gauges.dfy`) covers the arithmetic behind the gauge colours:
  - `clamp`;
  - the integer and floating `remap`;
  - the index-clamping `stop`;
  - the fps colour selection;
  - the `ThermalState.float` and `symbol` tables.

Some arithmetic is modelled explicitly:

- Swift's integer division truncates toward zero. It is modelled as `Gauges.TruncDiv` rather than with Dafny's Euclidean `/`.
- `Int(_:)` of a floating value rounds toward zero. It is modelled as `Gauges.TruncToInt`.
- Timestamps and the CPU percentage are exact reals.

**Pausing does not reset the frame window.** `linkedFrameList` is a `let` (Sources/Calculator.swift:10), and `pause()` only replaces and rebinds the display link (Sources/Calculator.swift:34-37). So frames recorded before a pause still count after the next `resume()` until a later append evicts them. `Calculation.PauseKeepsFrames` shows this.

## Model

| member | source | states |
|---|---|---|
| FrameList.LinkedFramesList.constructor | Sources/LinkedFrameList.swift:13-15 | A new list has no head, no tail and `count == 0`, and nothing has been appended. |
| FrameList.LinkedFramesList.Append | Sources/LinkedFrameList.swift:17-30 | The class invariant holds: the frames are the window of everything appended, and `count` is their number. The list is the old frames with the timestamp added at the tail and then evicted. The new timestamp is the last retained frame, so the list is never empty. `count` grows by at most one, and the retained frames are a contiguous suffix of the old frames followed by the new one. For non-decreasing input, `count` is the number of appended timestamps at most one second older than the new one. |
| FrameList.LinkedFramesList.RemoveFrameNodes | Sources/LinkedFrameList.swift:32-45 | The loop leaves exactly `Evict` of the frames: it drops stale heads and stops at the first head within the horizon. `count` still equals the length, so it never goes negative. |
| FrameList.Evict | Sources/LinkedFrameList.swift:32-45 | The eviction loop as a function: drop the head while it is stale against the new timestamp. `FrameList.EvictDropsStalePrefix` states what it keeps. |
| FrameList.Window | Sources/LinkedFrameList.swift:17-45 | The frames retained after a history of appends; `FrameList.WindowSuffix`, `FrameList.WindowSplit` and `FrameList.WindowIsRecent` state what it holds. |
| FrameList.EvictDropsStalePrefix | Sources/LinkedFrameList.swift:32-45 | Eviction removes only from the head. What it removes is all stale, what is left is a suffix, and the new head, if any, is within the horizon. |
| FrameList.EvictKeepsFreshTail | Sources/LinkedFrameList.swift:32-45 | A tail frame within the horizon of `t` survives eviction and stays the tail. |
| FrameList.WindowStep | Sources/LinkedFrameList.swift:17-30 | Each append is a tail insertion followed by eviction with the new timestamp. |
| FrameList.AppendWindow | Sources/LinkedFrameList.swift:17-30 | One append gives the window of the extended history. That window ends with the new timestamp, grows by at most one frame, is a suffix of the old window followed by the new frame, and for sorted input holds exactly the recent timestamps. |
| FrameList.WindowSuffix | Sources/LinkedFrameList.swift:19-28 | The window is a contiguous suffix of the appended timestamps, in append order. After any append it ends with the newest timestamp, because `t - t = 0` does not exceed one second. |
| FrameList.WindowSplit | Sources/LinkedFrameList.swift:32-44 | For non-decreasing timestamps, every evicted frame is stale with respect to the newest timestamp and every retained frame is within one second of it. |
| FrameList.WindowIsRecent | Sources/LinkedFrameList.swift:17-45 | For non-decreasing timestamps, the window equals the appended timestamps `x` with `t - x <= 1.0`, where `t` is the newest; so their number is the count. |
| FrameList.ExampleWindow | Sources/LinkedFrameList.swift:17-45 | Appending 0.0, 0.3, …, 1.5 leaves 0.6, 0.9, 1.2 and 1.5. |
| FrameList.OutOfOrderKeepsExtra | Sources/LinkedFrameList.swift:33-36 | With the out-of-order input 1.0, 0.0, 2.0, eviction stops at the fresh head 1.0 and keeps the stale 0.0 behind it. There are then three frames where only two are within a second. |
| FrameList.BoundaryKept | Sources/LinkedFrameList.swift:34 | A head exactly one second older than the new timestamp is kept, because the guard is a strict `>`. |
| Calculation.Share | Sources/Calculator.swift:74-77 | An idle thread's share is 0, and a thread whose `cpu_usage` is within `0...TH_USAGE_SCALE` adds between 0 and 100 percent. |
| Calculation.CpuSum | Sources/Calculator.swift:62-79 | The total that the loop computes is 0 when every thread with an answer is idle. `Calculation.CpuSumStopsAtFailure` and `Calculation.CpuSumSkipsIdle` state the rest of its behaviour. |
| Calculation.CpuTotal | Sources/Calculator.swift:62-79 | The CPU total as a function of the enumeration's result, with 0 when it fails; `Calculation.CpuUsage` is proved against it. |
| Calculation.CpuSumStopsAtFailure | Sources/Calculator.swift:71-73 | The threads after the first failed `thread_info` do not count; the result is the sum over the threads before it. |
| Calculation.CpuSumSkipsIdle | Sources/Calculator.swift:75-77 | A thread with the `TH_FLAGS_IDLE` bit set adds nothing, wherever it stands in the scanned part of the list. |
| Calculation.CpuSumBounds | Sources/Calculator.swift:74-77 | With every `cpu_usage` within `0...TH_USAGE_SCALE`, the total is between 0 and 100 per busy scanned thread. |
| Calculation.CpuUsage | Sources/Calculator.swift:53-82 | The loop's result is the sum of the shares `cpu_usage / 1000 * 100` of the non-idle threads before the first failure. It is 0 when the enumeration fails or returns no list. The deallocation is reached on every path. |
| Calculation.MemoryUsage | Sources/Calculator.swift:92-106 | `used` is the footprint when `task_info` succeeds and 0 otherwise. `total` is the physical memory whatever the query returned. |
| Calculation.Calculator.constructor | Sources/Calculator.swift:15-19 | A new calculator owns a fresh, empty frame list and a fresh, inactive display link. |
| Calculation.Calculator.Resume | Sources/Calculator.swift:31-33 | The same display link becomes active, and the frame list is untouched. |
| Calculation.Calculator.Pause | Sources/Calculator.swift:34-37 | The display link is replaced by a fresh, inactive one, and the frame list is untouched. |
| Calculation.Calculator.ReceiveFrame | Sources/Calculator.swift:20-23 | Every frame from the display link is appended to the window and evicted against. |
| Calculation.Calculator.Fps | Sources/Calculator.swift:86-88 | `fps()` is exactly the number of retained frames, the list's `count`. |
| Calculation.Calculator.CollectMetrics | Sources/Calculator.swift:42-49 | The report's fields are the four sampler outputs at collection time: the CPU total, memory with its fallback, the window count, and the mapped thermal state. |
| Calculation.PauseKeepsFrames | Sources/Calculator.swift:34-37 | A frame recorded before a pause still counts after the next resume: the report has `fps == 1`. |
| Observable.ReportObservable.constructor | Sources/ReportObservable.swift:5 | The cell starts empty. |
| Observable.ReportObservable.Assign | Sources/ReportObservable.swift:6-8 | After `assign(r)` the cell holds `r`, whatever it held before. |
| Monitor.PerformanceMonitor.constructor | Sources/PerformanceMonitor.swift:10-28 | A new monitor is paused, holds no report, has forwarded nothing and has posted nothing. |
| Monitor.PerformanceMonitor.Resume | Sources/PerformanceMonitor.swift:38-42 | `resume()` is `Step` on `Resume`. From `paused` it sets `active` and forwards one resume, which activates the display link. From `active` it changes nothing. |
| Monitor.PerformanceMonitor.Pause | Sources/PerformanceMonitor.swift:43-47 | `pause()` is `Step` on `Pause`. From `active` it sets `paused`, forwards one pause and leaves the calculator with a fresh display link. From `paused` it changes nothing and keeps the same display link. The display link is inactive afterwards. |
| Monitor.PerformanceMonitor.Deliver | Sources/PerformanceMonitor.swift:24-27 | The sink is `Step` on `Deliver`: it assigns the report only while active. |
| Monitor.PerformanceMonitor.TogglePresentation | Sources/PerformanceMonitor.swift:35-37 | It posts exactly one notification named `PerformanceMonitorPresentationToggle` and leaves the state unchanged. |
| Monitor.Step | Sources/PerformanceMonitor.swift:24-47 | The transition function of the lifecycle that each method is proved against; the lemmas below state its properties. |
| Monitor.TransitionsIdempotent | Sources/PerformanceMonitor.swift:38-47 | Two resumes are one resume, and two pauses are one pause. |
| Monitor.TransitionsForwardOnce | Sources/PerformanceMonitor.swift:38-47 | Every real transition forwards exactly one call to the calculator, and a redundant one forwards none. Pausing a fresh monitor changes nothing. |
| Monitor.DeliveryGate | Sources/PerformanceMonitor.swift:24-27 | A report is stored if and only if the monitor is active when it arrives. A dropped report does not come back after a later resume. |
| Monitor.LastDeliveryWins | Sources/ReportObservable.swift:5-8 | Of two reports delivered while active, the cell keeps the second. |
| Monitor.OnlyTransitionsChangeState | Sources/PerformanceMonitor.swift:35-47 | Delivery and toggling change neither the state nor the forwarded calls. Toggling only adds a post. |
| Monitor.NoReportBeforeResume | Sources/PerformanceMonitor.swift:10-27 | Along any event sequence without a resume, a paused monitor stays paused and stores no report. |
| Monitor.CallsAlternate | Sources/PerformanceMonitor.swift:38-47 | Forwarded resumes and pauses strictly alternate, beginning with a resume, along any event sequence. |
| Monitor.FreshMonitorAlternates | Sources/PerformanceMonitor.swift:6-10 | From the initial paused state, the numbers of forwarded resumes and pauses differ by exactly 1 when the monitor is active and are equal when it is paused. |
| Monitor.GateScenario | Sources/PerformanceMonitor.swift:24-47 | A report before resume is dropped, one while active is kept, and one after pause leaves the kept one in place. |
| Report.FromOs | Sources/PerformanceReport.swift:19-27 | The mapping is total, and it gives `unknown` exactly for the levels outside the four known ones. |
| Report.FromOsInjectiveOnKnown | Sources/PerformanceReport.swift:20-24 | No known level maps to `unknown`, and distinct known levels map to distinct states. |
| Report.RawValueRoundTrip | Sources/PerformanceReport.swift:13-18 | Every state is recovered from its raw value, so the five raw values are distinct. |
| Report.FromRawValue | Sources/PerformanceReport.swift:13-18 | A decoded state has the given raw value, and no state has a raw value that fails to decode. |
| Report.ThermalState.RawValue | Sources/PerformanceReport.swift:13-18 | The five `String` raw values; `Report.RawValueRoundTrip` proves them distinct and decodable. |
| Report.AllCasesComplete | Sources/PerformanceReport.swift:13-18 | `allCases` lists every thermal state once. |
| Sizes.AsToolbars | Sources/SizeClass.swift:6 | Mapping `.toolbar` over a list wraps each element in place. |
| Sizes.FirstIndex | Sources/SizeClass.swift:9 | `firstIndex(of:)` is none exactly when the element is absent; otherwise it is the first position that holds it. |
| Sizes.AllCasesListed | Sources/SizeClass.swift:5-7 | `allCases` is exactly `[toolbar(compact), toolbar(regular), compact, regular]`, and `toolbar(expanded)` is not in it. |
| Sizes.NavigationByCase | Sources/SizeClass.swift:8-19 | The index arithmetic of `next()` and `previous()` agrees with an explicit neighbour table for every case, including the unlisted `toolbar(expanded)`. |
| Sizes.NavigationEnds | Sources/SizeClass.swift:8-19 | `next()` of `regular` and `previous()` of `toolbar(compact)` are none. Both are none for `toolbar(expanded)`, because `firstIndex` fails. |
| Sizes.NextWalksAllCases | Sources/SizeClass.swift:5-13 | Repeated `next()` from `toolbar(compact)` visits the four cases in list order and then yields none. |
| Sizes.PreviousWalksAllCases | Sources/SizeClass.swift:14-19 | Repeated `previous()` from `regular` visits the four cases in reverse order and then yields none. |
| Sizes.NextPreviousInverse | Sources/SizeClass.swift:8-19 | The results of `next()` and `previous()` are in `allCases`, and `next(x) == y` exactly when `previous(y) == x`. |
| Sizes.ScaleShrinksOnlyToolbars | Sources/SizeClass.swift:31-42 | Every scale is square and in `(0, 1]`. It is below 1 exactly for the cases in `ToolbarSizeClass.allCases`: it is 0.5 for `toolbar(compact)` and 0.75 for `toolbar(regular)`. |
| Sizes.AllCases | Sources/SizeClass.swift:5-7 | `allCases` contains every listed toolbar case, `compact` and `regular`; `Sizes.AllCasesListed` gives the exact list. |
| Sizes.Next | Sources/SizeClass.swift:8-13 | `next()` yields a case only for a listed case, and the case it yields is listed; an unlisted case has no next. `Sizes.NavigationByCase` and `Sizes.NextPreviousInverse` give the neighbour of every case. |
| Sizes.Previous | Sources/SizeClass.swift:14-19 | `previous()` yields a case only for a listed case, and the case it yields is listed; an unlisted case has no previous. |
| Sizes.Scale | Sources/SizeClass.swift:31-42 | Every scale is square, positive and at most 1. |
| Gauges.Reversed | Sources/Gauges.swift:94 | `reversed()` keeps the length and puts element `i` at position `n - 1 - i`. |
| Gauges.ReversedPalette | Sources/Gauges.swift:91-94 | The fps gauge picks from pink, orange, yellow, green and blue, in that order. |
| Gauges.Clamp | Sources/Gauges.swift:215-217 | `clamp` is `min(value, cap)`: not above either argument, and equal to one of them. |
| Gauges.TruncDiv | Sources/Gauges.swift:203 | Swift's `/` on integers, which rounds the quotient toward zero. Its properties are those of `Gauges.TruncDivRemainder` and `Gauges.TruncDivNonNegative`. |
| Gauges.TruncDivRemainder | Sources/Gauges.swift:203 | Swift's division leaves a remainder with the dividend's sign that is smaller than the divisor in magnitude. |
| Gauges.TruncDivNonNegative | Sources/Gauges.swift:203 | On non-negative operands, Swift's and Dafny's divisions agree. |
| Gauges.Remap | Sources/Gauges.swift:195-204 | The linear remap takes the lower bound to the lower bound and the upper bound to the upper bound, and keeps values in the source range inside the destination range. |
| Gauges.RemapAsWritten | Sources/Gauges.swift:195-204 | The remap as written takes the source's lower bound to the destination's lower bound. When both lower bounds are equal, as at every call site, it agrees with the linear remap. |
| Gauges.RemapAsWrittenMissesUpperBound | Sources/Gauges.swift:200-203 | With source `1...3` and destination `0...4`, the remap as written takes 3 to 3, not 4. |
| Gauges.RemapMonotone | Sources/Gauges.swift:195-204 | Under the linear remap, a larger value never remaps lower. |
| Gauges.RemapAsWrittenNotMonotone | Sources/Gauges.swift:200-203 | With source `10...20` and destination `0...4`, the remap as written takes 10 to 0, 20 to -6 and 0 to 6, so it is not monotone when the lower bounds differ. |
| Gauges.StopIndex | Sources/Gauges.swift:182-183 | The index comes from the remap as written and is in `[0, count-1]` whatever the remap yields. When the lower bound is 0 and the value is within bounds, it is the value under the linear remap. |
| Gauges.Stop | Sources/Gauges.swift:177-185 | For non-empty items, `stop` always returns one of them. |
| Gauges.StopIndexMonotone | Sources/Gauges.swift:177-185 | With a lower bound of 0, as at the call site, a larger value never selects an earlier item. |
| Gauges.StopIndexAsWrittenNotMonotone | Sources/Gauges.swift:182-183 | With bounds `10...20` and five items, value 0 selects index 4 and value 10 selects index 0, so `stop` is not monotone when the lower bound is not 0. |
| Gauges.FpsColour | Sources/Gauges.swift:90-94 | The fps colour is one of the palette's colours; `Gauges.FpsColourRange` says which. |
| Gauges.FpsColourRange | Sources/Gauges.swift:90-94 | With `maxFPS > 0`, an fps at or above the maximum is blue, an fps of 0 or below is pink, and more frames never move the colour away from blue. |
| Gauges.ThermalFloat | Sources/Gauges.swift:156-164 | Only `unknown` has a negative value; every known state lies in `0...3`. |
| Gauges.Symbol | Sources/Gauges.swift:165-173 | Every state has a non-empty symbol name; `Gauges.SymbolInjective` says they are distinct. |
| Gauges.ThermalFloatInBounds | Sources/Gauges.swift:156-164 | The known states take the distinct values 0 to 3, and only `unknown` is below the bounds `0...3`. |
| Gauges.SymbolInjective | Sources/Gauges.swift:165-173 | Each thermal state has its own symbol name. |
| Gauges.TruncToInt | Sources/Gauges.swift:192 | `Int(_:)` rounds toward zero. |
| Gauges.RemapReal | Sources/Gauges.swift:205-214 | The linear floating remap takes the endpoints to the endpoints and keeps the source range inside the destination range. |
| Gauges.RemapRealAsWritten | Sources/Gauges.swift:205-214 | When the lower bounds are equal, the floating remap as written agrees with the linear one. |
| Gauges.RemapRealAsWrittenMissesUpperBound | Sources/Gauges.swift:210-213 | With source `1...3` and destination `0...4`, the floating remap as written takes 3 to 3, not 4. |
| Gauges.StopRealIndex | Sources/Gauges.swift:186-194 | The floating `stop` index is always in `[0, count-1]`. |
| Gauges.ThermalColour | Sources/Gauges.swift:108-112 | The thermal colour is one of the thermal palette's colours; `Gauges.ThermalColourTable` gives the colour of each state. |
| Gauges.ThermalColourTable | Sources/Gauges.swift:108-112 | The thermal colours are nominal blue, fair green, serious orange and critical pink. `unknown` (-1) is clamped onto index 0, which is blue. |

## Left out

- Combine scheduling is not modelled because it is a timing library. This covers the metering throttle, the second throttle on delivery, `receive(on:)` and the main queue. A report reaching the sink is the event `Deliver`; which reports reach it, and when, is not modelled.
- The `DisplayLink` package is not part of this model. It is replaced by a stand-in class that only records activation.
- The Mach and `ProcessInfo` calls are not modelled. They are replaced by their results in `OsSample`:
  - `task_threads`, `thread_info`, `vm_deallocate` and `task_info`;
  - `physicalMemory` and `thermalState`;
  - the pointer rebinding.

  `TH_USAGE_SCALE = 1000` and `TH_FLAGS_IDLE = 0x2` are the values of the Mach headers.
- Calculation.CpuUsage: the deallocation is a ghost flag, not a call; the size of the released list is not modelled.
- Floating-point rounding is not modelled, because `Double` is modelled as exact reals. This covers the CPU percentage and the timestamp subtraction. The floating `stop` is modelled only for the thermal gauge, whose values are whole numbers.
- The CPU and RAM gauge colours (Sources/Gauges.swift:53-89) are SwiftUI view code and are left out with it. When the total memory is 0, the RAM gauge's bounds are `0...0`, the floating `remap` yields NaN, and `Int(stop)` (Sources/Gauges.swift:192) traps on NaN, so the RAM gauge crashes. The model does not capture this crash.
- Gauges.StopIndexMonotone: it is proved only for a lower bound of 0, which the one integer call site has (Sources/Gauges.swift:92). With another lower bound the remap as written makes `stop` non-monotone; `Gauges.StopIndexAsWrittenNotMonotone` shows this.
- Gauges.RemapMonotone: it is proved of the linear remap `Gauges.Remap`. The remap as written is monotone only where it agrees with the linear one, such as where the lower bounds are equal; `Gauges.RemapAsWrittenNotMonotone` shows a case where it is not.
- Gauges.Remap: it does not model 64-bit overflow of the product, which traps in Swift. Only small values occur at the call sites.
- Gauges.FpsColour requires `maxFPS > 0`. With `maxFPS == 0` (Sources/Gauges.swift:139) the bounds are `0...0`, and the division in `remap` traps.
- The gauges' `maxFPS` platform query is not modelled; it is a parameter of `FpsColour`.
- The unused `now` property (Sources/Calculator.swift:39-41) reads the clock and is left out.
- The report's `uuid` (Sources/PerformanceReport.swift:5) is random and is left out.
- The `shared` singleton (Sources/PerformanceMonitor.swift:11) is left out; monitors are constructed explicitly.
- `NotificationCenter` is left out: posting is recorded in the ghost list `posted`, and subscription is not modelled.
- `ReportObservable`'s change notifications to observers belong to SwiftUI and are left out. The monitor's `lazy` creation of the cell is modelled as creation in the constructor, since the cell is never replaced.
- The frame nodes' `next` and weak `previous` links are modelled as the order of a sequence. So the head/tail pointer updates and the unlinking of evicted nodes are represented only by that order.
- The SwiftUI views, the formatter, the view modifiers, the drag and shake gestures, the scene-phase hooks, the previews and the package manifest are left out.
- `MemoryUsage` carries `used` and `total` as given. As in the source, `used <= total` is not enforced.

## Findings

| source | as written | input that shows it | evidently intended | confidence | as-written member | corrected member |
|---|---|---|---|---|---|---|
| Sources/Gauges.swift:202 | the integer `remap` multiplies by `destination.upperBound - source.lowerBound` | `remap(value: 3, from: 1...3, to: 0...4)` gives 3 | multiply by `destination.upperBound - destination.lowerBound`, so that `source.upperBound` maps to `destination.upperBound` | high, not executed; latent, because every call site has both lower bounds 0 | Gauges.RemapAsWritten | Gauges.Remap |
| Sources/Gauges.swift:212 | the floating `remap` multiplies by `destination.upperBound - source.lowerBound` | `remap(value: 3.0, from: 1.0...3.0, to: 0.0...4.0)` gives 3.0 | multiply by `destination.upperBound - destination.lowerBound` | high, not executed; latent, because every call site has both lower bounds 0 | Gauges.RemapRealAsWritten | Gauges.RemapReal |

The discrepancies are exhibited by `Gauges.RemapAsWrittenMissesUpperBound` and `Gauges.RemapRealAsWrittenMissesUpperBound`. `StopIndex`, `FpsColour` and `ThermalColour` use the remap as written, as the source does. `RemapAsWritten` and `RemapRealAsWritten` prove that it agrees with the corrected definitions where the lower bounds agree. The lower bounds agree at every call site, so the gauges' colour lemmas hold of the code as written.
