/** Admin alerts: the alert log (server/alertStore.js, JSON-file branch) and the two POST
    handlers that validate and store an alert (server.js, app/api/alerts/route.ts). */
module Alerts {
  import opened Wrappers

  datatype Alert = Alert(id: string, region: string, level: string, message: string, time: int)

  /** The alert file; reading a missing file creates it holding the empty list. */
  class AlertLog {
    var alerts: seq<Alert>

    constructor ()
      ensures alerts == []
    {
      alerts := [];
    }

    /** `saveAlert`: appended at the end; earlier alerts unchanged. */
    method SaveAlert(a: Alert)
      modifies this
      ensures alerts == old(alerts) + [a]
      ensures |alerts| == |old(alerts)| + 1 && alerts[..|old(alerts)|] == old(alerts)
    {
      alerts := alerts + [a];
    }

    /** `getAllAlerts`: insertion order. */
    function GetAllAlerts(): seq<Alert>
      reads this
    {
      alerts
    }
  }

  datatype AlertBody = AlertBody(region: Option<string>, level: Option<string>, message: Option<string>)
  datatype AlertResponse = AlertSaved | AlertError(status: int, error: string)

  predicate Falsy(v: Option<string>) {
    v.None? || v.value == ""
  }

  predicate MissingFields(b: AlertBody) {
    Falsy(b.region) || Falsy(b.level) || Falsy(b.message)
  }

  /** Express: the header is compared strictly with the configured key, either possibly absent, so a request
      without the header passes when no key is configured. */
  predicate ExpressAuthorized(header: Option<string>, configured: Option<string>) {
    header == configured
  }

  /** Next.js: a missing header reads as null, which never equals a string or undefined. */
  predicate NextAuthorized(header: Option<string>, configured: Option<string>) {
    header.Some? && configured.Some? && header.value == configured.value
  }

  /** The two key checks differ only when neither a header nor a key is present. */
  lemma KeyChecksDiffer(header: Option<string>, configured: Option<string>)
    ensures NextAuthorized(header, configured) ==> ExpressAuthorized(header, configured)
    ensures ExpressAuthorized(header, configured) && !NextAuthorized(header, configured) <==>
      header.None? && configured.None?
  {
  }

  /** `POST /api/alerts` in server.js: 403 on a key mismatch before the fields are looked at,
      400 on a missing field, otherwise one alert saved. Identifier and clock are inputs. */
  method PostAlertExpress(log: AlertLog, header: Option<string>, configured: Option<string>, body: AlertBody, id: string, now: int)
    returns (resp: AlertResponse)
    modifies log
    ensures !ExpressAuthorized(header, configured) ==> resp == AlertError(403, "Unauthorized") && unchanged(log)
    ensures ExpressAuthorized(header, configured) && MissingFields(body) ==> resp == AlertError(400, "Missing fields") && unchanged(log)
    ensures resp == AlertSaved <==> ExpressAuthorized(header, configured) && !MissingFields(body)
    ensures resp == AlertSaved ==>
      log.alerts == old(log.alerts) + [Alert(id, body.region.value, body.level.value, body.message.value, now)]
  {
    if header != configured {
      return AlertError(403, "Unauthorized");
    }
    if Falsy(body.region) || Falsy(body.level) || Falsy(body.message) {
      return AlertError(400, "Missing fields");
    }
    log.SaveAlert(Alert(id, body.region.value, body.level.value, body.message.value, now));
    resp := AlertSaved;
  }

  /** `POST` in app/api/alerts/route.ts: the key is checked before the body is read; an
      unreadable body gives 500. */
  method PostAlertNext(log: AlertLog, header: Option<string>, configured: Option<string>, body: Option<AlertBody>, id: string, now: int)
    returns (resp: AlertResponse)
    modifies log
    ensures !NextAuthorized(header, configured) ==> resp == AlertError(403, "Unauthorized") && unchanged(log)
    ensures NextAuthorized(header, configured) && body.None? ==> resp == AlertError(500, "Internal server error") && unchanged(log)
    ensures NextAuthorized(header, configured) && body.Some? && MissingFields(body.value) ==>
      resp == AlertError(400, "Missing fields") && unchanged(log)
    ensures resp == AlertSaved <==> NextAuthorized(header, configured) && body.Some? && !MissingFields(body.value)
    ensures resp == AlertSaved ==>
      log.alerts == old(log.alerts) + [Alert(id, body.value.region.value, body.value.level.value, body.value.message.value, now)]
  {
    if !(header.Some? && configured.Some? && header.value == configured.value) {
      return AlertError(403, "Unauthorized");
    }
    if body.None? {
      return AlertError(500, "Internal server error");
    }
    var b := body.value;
    if Falsy(b.region) || Falsy(b.level) || Falsy(b.message) {
      return AlertError(400, "Missing fields");
    }
    log.SaveAlert(Alert(id, b.region.value, b.level.value, b.message.value, now));
    resp := AlertSaved;
  }
}
