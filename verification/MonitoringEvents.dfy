// Monitoring events: their keys, and the status that a configuration request records for
// each (EvenStatusMap and MonitoringConfEventStatus in include/fdhss.h, src/fdhss.cpp).
module MonitoringEvents {
  import opened Wrappers

  const DIAMETER_SUCCESS := 2001
  const DIAMETER_UNABLE_TO_COMPLY := 5012
  const DIAMETER_ERROR_CONFIGURATION_EVENT_STORAGE_NOT_SUCCESSFUL := 5513
  const DIAMETER_ERROR_CONFIGURATION_EVENT_NON_EXISTANT := 5514

  datatype EventKey = EventKey(scefId: string, scefRefId: nat)

  datatype ConfStatus = ConfStatus(
    maxReports: Option<nat>,
    durationSet: bool,
    result: nat,
    isRemove: bool,
    forcedType: Option<bool>)   // set by forceLongTerm

  type StatusMap = map<EventKey, ConfStatus>

  function IsLongTerm(status: ConfStatus): bool {
    match status.forcedType
    case Some(longTerm) => longTerm
    case None =>
      match status.maxReports
      case Some(reports) => reports >= 2
      case None => status.durationSet
  }

  // Which configurations go to the tables: those for two or more reports, and those for a
  // time and no number of reports.
  lemma LongTermRequests(reports: nat, durationSet: bool, result: nat, isRemove: bool)
    ensures IsLongTerm(ConfStatus(Some(reports), durationSet, result, isRemove, None)) <==> 2 <= reports
    ensures IsLongTerm(ConfStatus(None, durationSet, result, isRemove, None)) <==> durationSet
  {
  }

  // The type of a removal is forced to what became of it.
  lemma ForcedType(status: ConfStatus, longTerm: bool)
    ensures IsLongTerm(status.(forcedType := Some(longTerm))) == longTerm
  {
  }
}
