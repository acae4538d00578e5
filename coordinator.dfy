/**
 * `AvinorCoordinator._async_update_data`
 * (custom_components/avinor_flight_data/coordinator.py:41-51): one refresh
 * asks the client for the configured airport's flights and turns every
 * exception into `UpdateFailed`.
 */
module Coordinator {
  import opened Outcomes
  import opened XmlTree
  import Flights

  /**
   * A configuration mapping with the keys the integration reads; `None`
   * means the key is missing. The coordinator is given the options merged
   * over the entry's data; the sensor reads the entry's data alone.
   */
  datatype Conf = Conf(airport: Option<string>, direction: Option<string>,
                       timeFrom: Option<int>, timeTo: Option<int>)

  /** Home Assistant's `UpdateFailed`, carrying `str(err)` of what was raised. */
  datatype UpdateFailed = UpdateFailed(message: string)

  /** One refresh: the snapshot, or the `UpdateFailed` it raises. */
  function UpdateData(conf: Conf, fetch: Transport): Result<Flights.Snapshot, UpdateFailed>
  {
    if conf.airport.None? then Failure(UpdateFailed(Describe(KeyError("airport"))))
    else
      match Flights.GetFlights(fetch, conf.airport.value, conf.direction, conf.timeFrom, conf.timeTo, false)
      case Success(snapshot) => Success(snapshot)
      case Failure(e) => Failure(UpdateFailed(Describe(e)))
  }

  /** The query a refresh sends for a configuration with an airport. */
  function RefreshQuery(conf: Conf): seq<(string, Param)>
    requires conf.airport.Some?
  {
    Flights.QueryParams(conf.airport.value, conf.direction, conf.timeFrom, conf.timeTo, false)
  }

  /**
   * A refresh sends exactly one request, to the flights endpoint, carrying
   * the configured airport, direction and window and never `codeshare`; its
   * outcome depends on that one response alone: the parsed snapshot is
   * returned unchanged, and anything raised becomes `UpdateFailed(str(err))`.
   */
  lemma RefreshRelaysResponse(conf: Conf, fetch: Transport)
    requires conf.airport.Some?
    ensures var params := RefreshQuery(conf);
      && Flights.Lookup(params, "airport") == Some(Str(conf.airport.value))
      && Flights.Lookup(params, "codeshare") == None
      && UpdateData(conf, fetch) ==
           match fetch(Flights.FlightsUrl, params)
           case Raised(e) => Failure(UpdateFailed(Describe(e)))
           case Document(doc) =>
             match Flights.ParseFeed(doc)
             case Success(s) => Success(s)
             case Failure(e) => Failure(UpdateFailed(Describe(e)))
  {
    Flights.QueryParamsValues(conf.airport.value, conf.direction, conf.timeFrom, conf.timeTo, false);
  }

  /**
   * A refresh succeeds exactly when the client returns, and then with the
   * client's result unchanged; a missing airport fails with the KeyError's
   * text `'airport'` without any request.
   */
  lemma {:induction false} UpdateOutcome(conf: Conf, fetch: Transport)
    ensures conf.airport.None? ==> UpdateData(conf, fetch) == Failure(UpdateFailed("'airport'"))
    ensures conf.airport.Some? ==>
      var api := Flights.GetFlights(fetch, conf.airport.value, conf.direction, conf.timeFrom, conf.timeTo, false);
      && (UpdateData(conf, fetch).Success? <==> api.Success?)
      && (api.Success? ==> UpdateData(conf, fetch).value == api.value)
      && (api.Failure? ==> UpdateData(conf, fetch).error.message == Describe(api.error))
  {
    assert "'" + "airport" + "'" == "'airport'";
  }
}
