/**
 * `status_to_s`: the label the client prints for a Nagios state code. The codes are the
 * ones the Nagios status data carries as strings: 0 OK, 1 WARNING, 2 CRITICAL, 3 UNKNOWN.
 */
module Status {
  import opened Wrappers

  const StatusMap: map<string, string> := map["0" := "OK", "1" := "WARN", "2" := "CRIT", "3" := "UNK"]

  /** `status_to_s(state)`: the label of a known code, `None` where Python raises `KeyError`. */
  function StatusLabel(state: string): (r: Option<string>)
    ensures r.Some? <==> state in {"0", "1", "2", "3"}
    ensures state == "0" ==> r == Some("OK")
    ensures state == "1" ==> r == Some("WARN")
    ensures state == "2" ==> r == Some("CRIT")
    ensures state == "3" ==> r == Some("UNK")
  {
    if state in StatusMap then Some(StatusMap[state]) else None
  }

  /** The code a label stands for: the inverse of `StatusLabel`. */
  function StatusCode(text: string): (r: Option<string>)
    ensures r.Some? <==> text in {"OK", "WARN", "CRIT", "UNK"}
  {
    if text == "OK" then Some("0")
    else if text == "WARN" then Some("1")
    else if text == "CRIT" then Some("2")
    else if text == "UNK" then Some("3")
    else None
  }

  /** Distinct codes get distinct labels, so a label maps back to its code. */
  lemma StatusLabelRoundTrip(state: string)
    ensures StatusLabel(state).Some? ==> StatusCode(StatusLabel(state).value) == Some(state)
  {
  }

  /** Every label is the label of the code it stands for. */
  lemma StatusCodeRoundTrip(text: string)
    ensures StatusCode(text).Some? ==> StatusLabel(StatusCode(text).value) == Some(text)
  {
  }
}
