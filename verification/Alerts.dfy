/** What a received alert comes to, in TLS and DTLS alike (RFC 5246, section 7.2). */
module Alerts {
  import opened Bytes

  const AL_WARNING: byte := 1
  const AD_CLOSE_NOTIFY: byte := 0
  const MAX_WARNING_ALERTS: nat := 4

  datatype Answer = Closes | Passed | Fails

  /** ssl_process_alert, below TLS 1.3, on an alert that follows so many warnings in a row. */
  function ProcessAlert(alert: seq<byte>, warnings: nat): (r: (Answer, nat))
    ensures r.0 == Closes <==> alert == [1, 0]
    ensures r.0 == Passed <==> |alert| == 2 && alert[0] == 1 && alert[1] != 0 && warnings < 4
    ensures r.0 == Passed ==> r.1 == warnings + 1
  {
    if |alert| != 2 || alert[0] != AL_WARNING then (Fails, warnings)
    else if alert[1] == AD_CLOSE_NOTIFY then (Closes, warnings)
    else (if warnings + 1 > MAX_WARNING_ALERTS then Fails else Passed, warnings + 1)
  }
}
