/**
 * The two parsing scenarios of tests/test_api_parsing.py, stated over the
 * model: a transport that answers every request with one fixed document.
 */
module Scenarios {
  import opened Outcomes
  import opened XmlTree
  import Flights
  import Airports
  import Text

  /** A transport that answers every request with `doc`. */
  function Answering(doc: Document): Transport
  {
    (url: string, params: seq<(string, Param)>) => Document(doc)
  }

  function FirstFlight(): map<string, Node>
  {
    map["@uniqueId" := Text("u1"), "flightId" := Text("DY123"), "dom_int" := Text("D"),
        "schedule_time" := Text("2025-01-01T13:00:00Z"), "arr_dep" := Text("D"),
        "airport" := Text("OSL"), "check_in" := Text("1"), "gate" := Text("A12"),
        "status" := Map(map["@code" := Text("BRD")])]
  }

  function SecondFlight(): map<string, Node>
  {
    map["@uniqueId" := Text("u2"), "flightId" := Text("SK456"), "dom_int" := Text("I"),
        "schedule_time" := Text("2025-01-01T14:00:00Z"), "arr_dep" := Text("A"),
        "airport" := Text("BGO"), "check_in" := Null, "gate" := Null,
        "status" := Map(map["@code" := Text("EXP")])]
  }

  /**
   * Two flights under `airport/flights/flight`: the snapshot carries the
   * feed's `lastUpdate`, two records, and the first record's id and status
   * code are lifted from `flightId` and `status/@code`.
   */
  lemma FlightsPayloadParsed()
    ensures var r := Flights.GetFlights(Answering(Flights.FeedDocument(Text("2025-01-01T12:00:00Z"),
                                          List([Map(FirstFlight()), Map(SecondFlight())]))),
                                        "OSL", Some("A"), None, None, false);
      && r.Success?
      && r.value.lastUpdate == Text("2025-01-01T12:00:00Z")
      && |r.value.flights| == 2
      && r.value.flights[0].flightId == Text("DY123")
      && r.value.flights[0].statusCode == Text("BRD")
  {
    var items := [Map(FirstFlight()), Map(SecondFlight())];
    var doc := Flights.FeedDocument(Text("2025-01-01T12:00:00Z"), List(items));
    Flights.RecordPerItem(doc);
    FirstFlightNormalized();
  }

  lemma FirstFlightNormalized()
    ensures Flights.Normalize(FirstFlight()).flightId == Text("DY123")
    ensures Flights.Normalize(FirstFlight()).statusCode == Text("BRD")
  {
    assert "flight_id" !in FirstFlight();
  }

  function Bergen(): Node
  {
    Map(map["@iata" := Text("BGO"), "name" := Text("Bergen")])
  }

  function Oslo(): Node
  {
    Map(map["@iata" := Text("OSL"), "name" := Text("Oslo")])
  }

  function AirportsPayload(): Document
  {
    map["airports" := Map(map["airport" := List([Bergen(), Oslo()])])]
  }

  lemma BergenRead()
    ensures Airports.Read(Bergen()) == Airports.Accepted(Airports.AirportRecord("BGO", Text("Bergen")))
  {
    assert Text.Upper("BGO") == "BGO";
  }

  lemma OsloRead()
    ensures Airports.Read(Oslo()) == Airports.Accepted(Airports.AirportRecord("OSL", Text("Oslo")))
  {
    assert Text.Upper("OSL") == "OSL";
  }

  /** Each of the two items is read into an entry keyed by its upper-cased `@iata`. */
  lemma AirportItemsRead()
    ensures Airports.Collect([Bergen(), Oslo()]) ==
              [Airports.AirportRecord("BGO", Text("Bergen")), Airports.AirportRecord("OSL", Text("Oslo"))]
  {
    BergenRead();
    OsloRead();
    assert [Bergen(), Oslo()][1..] == [Oslo()];
  }

  /** Entries already in code order stay as they are. */
  lemma AirportsInOrder()
    ensures var s := [Airports.AirportRecord("BGO", Text("Bergen")), Airports.AirportRecord("OSL", Text("Oslo"))];
            Airports.SortByCode(s) == s
  {
    assert Text.Less("BGO", "OSL");
  }

  /**
   * An item that raises ends the loop but keeps what came before it: of
   * Oslo, a `None` item and Bergen, only Oslo is returned.
   */
  lemma RaisingItemStops()
    ensures Airports.GetAirports(Answering(map["airports" := Map(map["airport" := List([Oslo(), Null, Bergen()])])])) ==
              Success([Airports.AirportRecord("OSL", Text("Oslo"))])
  {
    var payload := map["airports" := Map(map["airport" := List([Oslo(), Null, Bergen()])])];
    assert Airports.SearchEndpoints(Answering(payload), Airports.AirportUrls()).0 == Airports.Found(payload);
    assert Airports.AirportItems(payload) == Some([Oslo(), Null, Bergen()]);
    OsloRead();
    assert [Oslo(), Null, Bergen()][1..] == [Null, Bergen()];
    assert Airports.Collect([Oslo(), Null, Bergen()]) == [Airports.AirportRecord("OSL", Text("Oslo"))];
  }

  /**
   * Two airports under `airports/airport`, given by `@iata` and `name`, come
   * back as two entries sorted by code.
   */
  lemma AirportsPayloadParsed()
    ensures Airports.GetAirports(Answering(AirportsPayload())) ==
              Success([Airports.AirportRecord("BGO", Text("Bergen")), Airports.AirportRecord("OSL", Text("Oslo"))])
  {
    var payload := AirportsPayload();
    assert Airports.SearchEndpoints(Answering(payload), Airports.AirportUrls()).0 == Airports.Found(payload);
    assert Airports.AirportItems(payload) == Some([Bergen(), Oslo()]);
    AirportItemsRead();
    AirportsInOrder();
  }
}
