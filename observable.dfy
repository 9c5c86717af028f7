/**
  The last-known-report cell that views observe
  (Sources/ReportObservable.swift).  Change notifications to observers are
  not part of the model.
 */
module Observable {
  import opened Wrappers
  import opened Report

  class ReportObservable {
    /** `private(set)`: only `Assign` changes it. */
    var report: Option<PerformanceReport>

    constructor ()
      ensures report == None
    {
      report := None;
    }

    /** Overwrites the cell: the last assigned report wins and no history is kept. */
    method Assign(r: PerformanceReport)
      modifies this
      ensures report == Some(r)
    {
      report := Some(r);
    }
  }
}
