/**
 * `AvinorFlightsSensor` (custom_components/avinor_flight_data/sensor.py:31-71):
 * the entity's identity strings, its state (the number of flights) and its
 * attributes, all read from the entry's data and the coordinator's last result.
 */
module Sensor {
  import opened Outcomes
  import opened XmlTree
  import Flights
  import Coordinator
  import opened Constants

  /** `_attr_unique_id` and `_attr_name`, set once by the constructor. */
  datatype Identity = Identity(uniqueId: string, name: string)

  /** What `device_info` returns. */
  datatype DeviceInfo = DeviceInfo(identifiers: set<(string, string)>, name: string,
                                   manufacturer: string, entryType: string)

  /** What `extra_state_attributes` returns. */
  datatype Attributes = Attributes(
    airport: Option<string>,
    direction: Option<string>,
    timeFrom: Option<int>,
    timeTo: Option<int>,
    lastUpdate: Node,
    flights: seq<Flights.FlightRecord>)

  /**
   * The identity strings from `entry.data`; `None` when `airport` or
   * `direction` is missing, where the constructor raises KeyError.
   */
  function SensorIdentity(data: Coordinator.Conf): Option<Identity>
  {
    if data.airport.None? || data.direction.None? then None
    else Some(Identity("avinor_" + data.airport.value + "_" + data.direction.value,
                       "Avinor " + data.airport.value + " " + data.direction.value))
  }

  /**
   * For three-character airport codes the unique id determines the airport
   * and the direction: two entries get the same id only when both agree.
   */
  lemma UniqueIdDetermines(d1: Coordinator.Conf, d2: Coordinator.Conf)
    requires SensorIdentity(d1).Some? && SensorIdentity(d2).Some?
    requires |d1.airport.value| == 3 && |d2.airport.value| == 3
    ensures SensorIdentity(d1).value.uniqueId == SensorIdentity(d2).value.uniqueId <==>
              d1.airport == d2.airport && d1.direction == d2.direction
  {
    var u1 := SensorIdentity(d1).value.uniqueId;
    var u2 := SensorIdentity(d2).value.uniqueId;
    if u1 == u2 {
      assert u1[7..10] == d1.airport.value;
      assert u2[7..10] == d2.airport.value;
      assert u1[11..] == d1.direction.value;
      assert u2[11..] == d2.direction.value;
    }
  }

  /** `device_info`: one device per airport; `None` when `airport` is missing (KeyError). */
  function Device(data: Coordinator.Conf): Option<DeviceInfo>
  {
    if data.airport.None? then None
    else Some(DeviceInfo({(Domain, "device_" + data.airport.value)}, "Avinor " + data.airport.value,
                         "Avinor", "service"))
  }

  /**
   * Sensors of the same airport share one device whatever their direction,
   * and sensors of different airports never do.
   */
  lemma DevicePerAirport(d1: Coordinator.Conf, d2: Coordinator.Conf)
    requires d1.airport.Some? && d2.airport.Some?
    ensures Device(d1) == Device(d2) <==> d1.airport == d2.airport
    ensures Device(d1).value.identifiers == {(Domain, "device_" + d1.airport.value)}
  {
    if Device(d1) == Device(d2) {
      var i1 := "device_" + d1.airport.value;
      var i2 := "device_" + d2.airport.value;
      assert (Domain, i1) in Device(d2).value.identifiers;
      assert i1 == i2;
      assert i1[7..] == d1.airport.value && i2[7..] == d2.airport.value;
    }
  }

  /** `native_value`: the number of flights in the coordinator's data, 0 without data. */
  function NativeValue(data: Option<Flights.Snapshot>): nat
  {
    if data.None? then 0 else |data.value.flights|
  }

  /** `extra_state_attributes`: settings from `entry.data`, the rest from the coordinator's data. */
  function ExtraStateAttributes(entry: Coordinator.Conf, data: Option<Flights.Snapshot>): Attributes
  {
    Attributes(entry.airport, entry.direction, entry.timeFrom, entry.timeTo,
               if data.None? then Null else data.value.lastUpdate,
               if data.None? then [] else data.value.flights)
  }

  /**
   * The state counts exactly the list published as the `flights` attribute;
   * without data both are empty and `last_update` is `None`; with data they
   * are the coordinator's snapshot, unchanged.
   */
  lemma StateMatchesAttributes(entry: Coordinator.Conf, data: Option<Flights.Snapshot>)
    ensures NativeValue(data) == |ExtraStateAttributes(entry, data).flights|
    ensures data.None? ==> NativeValue(data) == 0 && ExtraStateAttributes(entry, data).lastUpdate == Null
    ensures data.Some? ==> ExtraStateAttributes(entry, data).flights == data.value.flights
                           && ExtraStateAttributes(entry, data).lastUpdate == data.value.lastUpdate
    ensures var a := ExtraStateAttributes(entry, data);
            (a.airport, a.direction, a.timeFrom, a.timeTo) == (entry.airport, entry.direction, entry.timeFrom, entry.timeTo)
  {
  }

  /**
   * After a refresh the state is the number of flight items in the feed:
   * one per item of the `flight` node.
   */
  lemma {:induction false} StateCountsFeedItems(conf: Coordinator.Conf, fetch: Transport, doc: Document)
    requires conf.airport.Some?
    requires fetch(Flights.FlightsUrl, Coordinator.RefreshQuery(conf)) == Document(doc)
    requires Coordinator.UpdateData(conf, fetch).Success?
    ensures Flights.FlightsNode(doc).Success?
    ensures var items := Wrapped(GetOr(Flights.FlightsNode(doc).value, "flight", List([])));
            items.Success? && NativeValue(Some(Coordinator.UpdateData(conf, fetch).value)) == |items.value|
  {
    Coordinator.RefreshRelaysResponse(conf, fetch);
    Flights.RecordPerItem(doc);
  }

  /** `should_poll`: the sensor is updated by the coordinator, never polled. */
  function ShouldPoll(): bool
  {
    false
  }
}
