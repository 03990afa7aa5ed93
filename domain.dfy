/** The records the checker and the REST bean exchange. Their Java classes
    (com.seyren.core.domain) are not part of this model: the fields below are
    the ones the modelled code reads and writes through getters and setters. */
module Domain {
  import opened Wrappers

  /** The alert state of a check, and the two ends of an alert. */
  datatype AlertType = OK | WARN | ERROR | UNKNOWN

  /** A monitored target with its thresholds. `state` is `None` while the
      check has never been given a state (a Java `null`). */
  datatype Check = Check(
    id: string,
    target: string,
    warn: real,
    error: real,
    enabled: bool,
    state: Option<AlertType>)

  /** One evaluation outcome for one resolved series. */
  datatype Alert = Alert(
    value: real,
    target: string,
    warn: real,
    error: real,
    fromType: Option<AlertType>,
    toType: AlertType,
    timestamp: int)
}
