/** The constants of custom_components/avinor_flight_data/const.py that the core uses. */
module Constants {
  const Domain := "avinor_flight_data"

  const ApiBase := "https://asrv.avinor.no"
  const ApiFlights := "/XmlFeed/v1.0"
  const ApiAirports := "/airportNames/v1.0"
}
