/**
  The lifecycle controller (Sources/PerformanceMonitor.swift): an
  active/paused state machine that forwards real transitions to the
  calculator and lets a report through to the observable cell only while
  active.

  The Combine pipeline between the calculator and the sink (the hop to the
  main queue and the second, coalescing throttle) decides WHICH reports
  reach the sink and when; that timing is not modelled.  A report reaching
  the sink is the event `Deliver`.
 */
module Monitor {
  import opened Wrappers
  import opened Report
  import opened Calculation
  import opened Observable

  datatype State = Active | Paused

  /** The calls and arrivals that a monitor reacts to. */
  datatype Event =
    | Resume
    | Pause
      /** A report reaches the sink at the end of the pipeline. */
    | Deliver(report: PerformanceReport)
    | TogglePresentation

  /**
    What can be observed of a monitor: its state, the observable cell, how
    many `resume()`/`pause()` calls reached the calculator, and how many
    toggle notifications were posted.
   */
  datatype MonitorView = MonitorView(
    state: State,
    report: Option<PerformanceReport>,
    resumes: nat,
    pauses: nat,
    toggles: nat)

  /** A freshly constructed monitor: paused, no report, nothing forwarded. */
  const Initial: MonitorView := MonitorView(Paused, None, 0, 0, 0)

  /** The reaction of the monitor to one event. */
  function Step(v: MonitorView, e: Event): MonitorView {
    match e
    case Resume => if v.state == Active then v else v.(state := Active, resumes := v.resumes + 1)
    case Pause => if v.state == Paused then v else v.(state := Paused, pauses := v.pauses + 1)
    case Deliver(r) => if v.state == Active then v.(report := Some(r)) else v
    case TogglePresentation => v.(toggles := v.toggles + 1)
  }

  /** The view after the events `es`, in order. */
  function Run(v: MonitorView, es: seq<Event>): MonitorView
    decreases |es|
  {
    if es == [] then v else Run(Step(v, es[0]), es[1..])
  }

  /** `resume(); resume()` is `resume()`, and `pause(); pause()` is `pause()`. */
  lemma TransitionsIdempotent(v: MonitorView)
    ensures Step(Step(v, Resume), Resume) == Step(v, Resume)
    ensures Step(Step(v, Pause), Pause) == Step(v, Pause)
  {
  }

  /**
    A real transition forwards exactly one call to the calculator; a call in
    the state it would reach changes nothing and forwards nothing.
   */
  lemma TransitionsForwardOnce(v: MonitorView)
    ensures Step(v, Resume).state == Active
    ensures Step(v, Resume).resumes == v.resumes + (if v.state == Paused then 1 else 0)
    ensures Step(v, Resume).pauses == v.pauses
    ensures Step(v, Pause).state == Paused
    ensures Step(v, Pause).pauses == v.pauses + (if v.state == Active then 1 else 0)
    ensures Step(v, Pause).resumes == v.resumes
    ensures Step(Initial, Pause) == Initial
  {
  }

  /**
    The sink: a report is stored exactly when the monitor is active at the
    moment it arrives; otherwise it is dropped, so a later `resume()` does
    not bring it back.
   */
  lemma DeliveryGate(v: MonitorView, r: PerformanceReport)
    ensures v.state == Active ==> Step(v, Deliver(r)).report == Some(r)
    ensures v.state == Paused ==> Step(v, Deliver(r)) == v
    ensures v.state == Paused ==> Step(Step(v, Deliver(r)), Resume).report == v.report
  {
  }

  /** Successive deliveries while active overwrite: the last one wins. */
  lemma LastDeliveryWins(v: MonitorView, a: PerformanceReport, b: PerformanceReport)
    requires v.state == Active
    ensures Run(v, [Deliver(a), Deliver(b)]).report == Some(b)
  {
    var w := Step(v, Deliver(a));
    assert [Deliver(a), Deliver(b)][1..] == [Deliver(b)];
    assert Run(v, [Deliver(a), Deliver(b)]) == Run(w, [Deliver(b)]);
    assert [Deliver(b)][1..] == [];
    assert Run(w, [Deliver(b)]) == Step(w, Deliver(b));
  }

  /** Only `resume()` and `pause()` change the state; toggling changes nothing but the post count. */
  lemma OnlyTransitionsChangeState(v: MonitorView, e: Event)
    requires !e.Resume? && !e.Pause?
    ensures Step(v, e).state == v.state
    ensures Step(v, e).resumes == v.resumes && Step(v, e).pauses == v.pauses
    ensures e.TogglePresentation? ==> Step(v, e) == v.(toggles := v.toggles + 1)
  {
  }

  /** Without a `resume()` the monitor stays paused and never stores a report. */
  lemma {:induction false} NoReportBeforeResume(v: MonitorView, es: seq<Event>)
    requires v.state == Paused && v.report == None
    requires forall i :: 0 <= i < |es| ==> !es[i].Resume?
    ensures Run(v, es).state == Paused && Run(v, es).report == None
    decreases |es|
  {
    if es != [] {
      NoReportBeforeResume(Step(v, es[0]), es[1..]);
    }
  }

  /** The calculator sees resume and pause strictly alternating, beginning with resume. */
  ghost predicate Alternating(v: MonitorView) {
    v.resumes == v.pauses + (if v.state == Active then 1 else 0)
  }

  lemma {:induction false} CallsAlternate(v: MonitorView, es: seq<Event>)
    requires Alternating(v)
    ensures Alternating(Run(v, es))
    decreases |es|
  {
    if es != [] {
      CallsAlternate(Step(v, es[0]), es[1..]);
    }
  }

  /** From a fresh monitor, forwarded calls alternate along any sequence of events. */
  lemma FreshMonitorAlternates(es: seq<Event>)
    ensures Run(Initial, es).resumes == Run(Initial, es).pauses + (if Run(Initial, es).state == Active then 1 else 0)
  {
    CallsAlternate(Initial, es);
  }

  /** The notification name posted by `togglePresentation()`. */
  const PresentationToggle: string := "PerformanceMonitorPresentationToggle"

  class PerformanceMonitor {
    var state: State
    const calculator: Calculator
    /** Created lazily in the original; it is never replaced, so it is created here up front. */
    const reportObservable: ReportObservable
    /** The throttle interval of the delivery stage; its timing is not modelled. */
    const throttle: nat
    /** Names of the notifications posted so far. */
    ghost var posted: seq<string>

    /** The display link is active exactly while the monitor is active. */
    ghost predicate Valid()
      reads this, calculator, calculator.linkedFrameList, calculator.displayLink
    {
      calculator.Valid() && (state == Active <==> calculator.displayLink.active)
    }

    ghost function View(): MonitorView
      reads this, calculator, reportObservable
    {
      MonitorView(state, reportObservable.report, calculator.resumeCalls, calculator.pauseCalls, |posted|)
    }

    /** The defaults of the original are 500 ms for both intervals. */
    constructor (meteringTime: nat, throttle: nat)
      ensures Valid() && View() == Initial && posted == []
      ensures fresh(calculator) && fresh(calculator.linkedFrameList) && fresh(calculator.displayLink)
      ensures fresh(reportObservable)
      ensures calculator.linkedFrameList.appended == []
    {
      state := Paused;
      calculator := new Calculator(meteringTime);
      reportObservable := new ReportObservable();
      this.throttle := throttle;
      posted := [];
    }

    /** `resume()`: from `paused`, becomes `active` and resumes the calculator once. */
    method Resume()
      requires Valid()
      modifies this, calculator, calculator.displayLink
      ensures Valid() && View() == Step(old(View()), Event.Resume)
      ensures calculator.displayLink == old(calculator.displayLink) && calculator.displayLink.active
      ensures unchanged(calculator.linkedFrameList)
      ensures posted == old(posted)
    {
      if state == Active {
        return;
      }
      state := Active;
      calculator.Resume();
    }

    /** `pause()`: from `active`, becomes `paused` and pauses the calculator once. */
    method Pause()
      requires Valid()
      modifies this, calculator
      ensures Valid() && View() == Step(old(View()), Event.Pause)
      ensures !calculator.displayLink.active && unchanged(calculator.linkedFrameList)
      ensures old(state) == Paused ==> calculator.displayLink == old(calculator.displayLink)
      ensures old(state) == Active ==> fresh(calculator.displayLink)
      ensures posted == old(posted)
    {
      if state == Paused {
        return;
      }
      state := Paused;
      calculator.Pause();
    }

    /** The sink at the end of the report pipeline. */
    method Deliver(report: PerformanceReport)
      requires Valid()
      modifies reportObservable
      ensures Valid() && View() == Step(old(View()), Event.Deliver(report))
    {
      if state != Active {
        return;
      }
      reportObservable.Assign(report);
    }

    /** `togglePresentation()`: posts one notification named `PresentationToggle`. */
    method TogglePresentation()
      requires Valid()
      modifies this
      ensures Valid() && View() == Step(old(View()), Event.TogglePresentation)
      ensures posted == old(posted) + [PresentationToggle] && state == old(state)
    {
      posted := posted + [PresentationToggle];
    }
  }

  /**
    A report arriving before `resume()` is dropped, one arriving while active
    is kept, and one arriving after `pause()` leaves the kept one in place.
   */
  method GateScenario(early: PerformanceReport, kept: PerformanceReport, late: PerformanceReport)
    returns (seen: Option<PerformanceReport>)
    ensures seen == Some(kept)
  {
    var monitor := new PerformanceMonitor(500_000_000, 500_000_000);
    monitor.Deliver(early);
    monitor.Resume();
    monitor.Resume();
    monitor.Deliver(kept);
    monitor.Pause();
    monitor.Deliver(late);
    seen := monitor.reportObservable.report;
  }
}
