/**
 * `AvinorApiClient.async_get_flights`
 * (custom_components/avinor_flight_data/api.py:104-168): the query for one
 * airport, and the normalisation of the `airport/flights/flight` part of the
 * feed into fixed eleven-field flight records.
 */
module Flights {
  import opened Outcomes
  import opened XmlTree
  import opened Constants

  const FlightsUrl := ApiBase + ApiFlights

  /** One flight as the integration publishes it; `Null` is Python's `None`. */
  datatype FlightRecord = FlightRecord(
    uniqueId: Node,
    airline: Node,
    flightId: Node,
    domInt: Node,
    scheduleTime: Node,
    arrDep: Node,
    airport: Node,
    checkIn: Node,
    gate: Node,
    statusCode: Node,
    statusTime: Node)

  /** The dict `{"lastUpdate": ..., "flights": [...]}` one fetch returns. */
  datatype Snapshot = Snapshot(lastUpdate: Node, flights: seq<FlightRecord>)

  /** The value of query parameter `key`, if the query has one. */
  function Lookup(params: seq<(string, Param)>, key: string): Option<Param>
  {
    if params == [] then None
    else if params[0].0 == key then Some(params[0].1)
    else Lookup(params[1..], key)
  }

  predicate IsQueryKey(k: string)
  {
    k == "airport" || k == "direction" || k == "TimeFrom" || k == "TimeTo" || k == "codeshare"
  }

  /** `params[key] = value` on a dict that does not hold `key` yet: the pair goes last. */
  function Put(params: seq<(string, Param)>, key: string, value: Param): seq<(string, Param)>
  {
    params + [(key, value)]
  }

  /**
   * The query of one flight fetch, in insertion order: `airport` always,
   * then each optional key whose condition holds.
   */
  function QueryParams(airport: string, direction: Option<string>, timeFrom: Option<int>,
                       timeTo: Option<int>, codeshare: bool): (params: seq<(string, Param)>)
    ensures |params| > 0 && params[0] == ("airport", Str(airport))
  {
    var p := [("airport", Str(airport))];
    var p := if direction.Some? && direction.value != "" then Put(p, "direction", Str(direction.value)) else p;
    var p := if timeFrom.Some? then Put(p, "TimeFrom", Int(timeFrom.value)) else p;
    var p := if timeTo.Some? then Put(p, "TimeTo", Int(timeTo.value)) else p;
    if codeshare then Put(p, "codeshare", Str("Y")) else p
  }

  /** Looking a key up after one more pair was put at the end. */
  lemma {:induction false} LookupPut(params: seq<(string, Param)>, k: string, v: Param, key: string)
    ensures Lookup(Put(params, k, v), key) ==
              if Lookup(params, key).Some? then Lookup(params, key)
              else if key == k then Some(v) else None
  {
    if params == [] {
      assert Put(params, k, v) == [(k, v)];
    } else {
      assert Put(params, k, v)[0] == params[0];
      assert Put(params, k, v)[1..] == Put(params[1..], k, v);
      LookupPut(params[1..], k, v, key);
    }
  }

  /** The place of each query key in the order the code inserts them. */
  function KeyRank(k: string): nat
  {
    if k == "airport" then 0 else if k == "direction" then 1 else if k == "TimeFrom" then 2
    else if k == "TimeTo" then 3 else 4
  }

  /** Every key of the query is known and ranks below `bound`. */
  predicate RanksBelow(params: seq<(string, Param)>, bound: nat)
  {
    forall i :: 0 <= i < |params| ==> IsQueryKey(params[i].0) && KeyRank(params[i].0) < bound
  }

  /** The keys of the query come in strictly increasing rank. */
  predicate RanksIncreasing(params: seq<(string, Param)>)
  {
    forall i, j :: 0 <= i < j < |params| ==> KeyRank(params[i].0) < KeyRank(params[j].0)
  }

  lemma PutKeepsRanks(params: seq<(string, Param)>, key: string, v: Param)
    requires IsQueryKey(key)
    requires RanksIncreasing(params) && RanksBelow(params, KeyRank(key))
    ensures RanksIncreasing(Put(params, key, v)) && RanksBelow(Put(params, key, v), KeyRank(key) + 1)
  {
  }

  /** The query after an optional `params[key] = value`, keeping the ranks in order. */
  lemma PutIfKeepsRanks(p: seq<(string, Param)>, q: seq<(string, Param)>, key: string, rank: nat)
    requires IsQueryKey(key) && KeyRank(key) == rank
    requires RanksIncreasing(p) && RanksBelow(p, rank)
    requires q == p || (exists v :: q == Put(p, key, v))
    ensures RanksIncreasing(q) && RanksBelow(q, rank + 1)
  {
    if q != p {
      var v :| q == Put(p, key, v);
      PutKeepsRanks(p, key, v);
    }
  }

  /**
   * The query holds only the five known keys, each at most once, in the
   * order the code inserts them, starting with `airport`.
   */
  lemma QueryParamsOrdered(airport: string, direction: Option<string>, timeFrom: Option<int>,
                           timeTo: Option<int>, codeshare: bool)
    ensures var params := QueryParams(airport, direction, timeFrom, timeTo, codeshare);
      && RanksBelow(params, 5) && RanksIncreasing(params)
      && (forall i, j :: 0 <= i < j < |params| ==> params[i].0 != params[j].0)
  {
    var p0 := [("airport", Str(airport))];
    var p1 := if direction.Some? && direction.value != "" then Put(p0, "direction", Str(direction.value)) else p0;
    var p2 := if timeFrom.Some? then Put(p1, "TimeFrom", Int(timeFrom.value)) else p1;
    var p3 := if timeTo.Some? then Put(p2, "TimeTo", Int(timeTo.value)) else p2;
    var p4 := if codeshare then Put(p3, "codeshare", Str("Y")) else p3;
    assert p4 == QueryParams(airport, direction, timeFrom, timeTo, codeshare);
    PutIfKeepsRanks(p0, p1, "direction", 1);
    PutIfKeepsRanks(p1, p2, "TimeFrom", 2);
    PutIfKeepsRanks(p2, p3, "TimeTo", 3);
    PutIfKeepsRanks(p3, p4, "codeshare", 4);
    RanksDistinct(p4);
  }

  lemma RanksDistinct(params: seq<(string, Param)>)
    requires RanksIncreasing(params)
    ensures forall i, j :: 0 <= i < j < |params| ==> params[i].0 != params[j].0
  {
  }

  /**
   * The query always maps `airport` to the airport; `direction` only when the
   * direction is non-empty, `TimeFrom` and `TimeTo` only when given,
   * `codeshare` to `Y` only when asked for.
   */
  lemma QueryParamsValues(airport: string, direction: Option<string>, timeFrom: Option<int>,
                          timeTo: Option<int>, codeshare: bool)
    ensures var params := QueryParams(airport, direction, timeFrom, timeTo, codeshare);
      && Lookup(params, "airport") == Some(Str(airport))
      && Lookup(params, "direction") ==
           (if direction.Some? && direction.value != "" then Some(Str(direction.value)) else None)
      && Lookup(params, "TimeFrom") == (if timeFrom.Some? then Some(Int(timeFrom.value)) else None)
      && Lookup(params, "TimeTo") == (if timeTo.Some? then Some(Int(timeTo.value)) else None)
      && Lookup(params, "codeshare") == (if codeshare then Some(Str("Y")) else None)
  {
    var p0 := [("airport", Str(airport))];
    var p1 := if direction.Some? && direction.value != "" then Put(p0, "direction", Str(direction.value)) else p0;
    var p2 := if timeFrom.Some? then Put(p1, "TimeFrom", Int(timeFrom.value)) else p1;
    var p3 := if timeTo.Some? then Put(p2, "TimeTo", Int(timeTo.value)) else p2;
    var p4 := if codeshare then Put(p3, "codeshare", Str("Y")) else p3;
    assert p4 == QueryParams(airport, direction, timeFrom, timeTo, codeshare);
    forall key | IsQueryKey(key)
      ensures Lookup(p1, key) == if key == "airport" then Some(Str(airport))
                                 else if key == "direction" && direction.Some? && direction.value != "" then Some(Str(direction.value))
                                 else None
    {
      if direction.Some? && direction.value != "" { LookupPut(p0, "direction", Str(direction.value), key); }
    }
    forall key | IsQueryKey(key)
      ensures Lookup(p2, key) == if key == "TimeFrom" && timeFrom.Some? then Some(Int(timeFrom.value)) else Lookup(p1, key)
    {
      if timeFrom.Some? { LookupPut(p1, "TimeFrom", Int(timeFrom.value), key); }
    }
    forall key | IsQueryKey(key)
      ensures Lookup(p3, key) == if key == "TimeTo" && timeTo.Some? then Some(Int(timeTo.value)) else Lookup(p2, key)
    {
      if timeTo.Some? { LookupPut(p2, "TimeTo", Int(timeTo.value), key); }
    }
    forall key | IsQueryKey(key)
      ensures Lookup(p4, key) == if key == "codeshare" && codeshare then Some(Str("Y")) else Lookup(p3, key)
    {
      if codeshare { LookupPut(p3, "codeshare", Str("Y"), key); }
    }
  }

  /** `it.get("status", {}) or {}`. */
  function StatusNode(it: map<string, Node>): Node
  {
    Or(GetOr(it, "status", EmptyMap), EmptyMap)
  }

  /** The record built from one raw flight mapping. */
  function Normalize(it: map<string, Node>): FlightRecord
  {
    var status := StatusNode(it);
    FlightRecord(
      uniqueId := Get(it, "@uniqueId"),
      airline := Get(it, "airline"),
      flightId := Or(Or(Get(it, "flight_id"), Get(it, "flightId")), Text("")),
      domInt := Get(it, "dom_int"),
      scheduleTime := Get(it, "schedule_time"),
      arrDep := Get(it, "arr_dep"),
      airport := Get(it, "airport"),
      checkIn := Get(it, "check_in"),
      gate := Get(it, "gate"),
      statusCode := if status.Map? then Get(status.entries, "@code") else Null,
      statusTime := if status.Map? then Get(status.entries, "@time") else Null)
  }

  /**
   * The status code and time are lifted out of a non-empty status mapping,
   * and are both `None` whenever the status is missing, falsy or not a mapping.
   */
  lemma StatusLifted(it: map<string, Node>)
    ensures var r := Normalize(it);
      if "status" in it && it["status"].Map? then
        r.statusCode == Get(it["status"].entries, "@code") && r.statusTime == Get(it["status"].entries, "@time")
      else
        r.statusCode == Null && r.statusTime == Null
  {
  }

  /**
   * The flight id is `flight_id` when truthy, else `flightId` when truthy,
   * else the empty string; every other field is copied verbatim, `None` when absent.
   */
  lemma FieldsCopied(it: map<string, Node>)
    ensures var r := Normalize(it);
      && r.flightId == (if Truthy(Get(it, "flight_id")) then it["flight_id"]
                        else if Truthy(Get(it, "flightId")) then it["flightId"]
                        else Text(""))
      && (r.uniqueId, r.airline, r.domInt, r.scheduleTime) ==
           (Get(it, "@uniqueId"), Get(it, "airline"), Get(it, "dom_int"), Get(it, "schedule_time"))
      && (r.arrDep, r.airport, r.checkIn, r.gate) ==
           (Get(it, "arr_dep"), Get(it, "airport"), Get(it, "check_in"), Get(it, "gate"))
  {
    OrChain(Get(it, "flight_id"), Get(it, "flightId"), Text(""));
  }

  /**
   * What the loop raises at the first item that is not a mapping: `it.keys()`
   * runs first for the first item, `it.get` for every later one.
   */
  function NotAMapping(it: Node, index: nat): Error
  {
    NoAttribute(it, if index == 0 then "keys" else "get")
  }

  /** The index of the first item from `i` on that is not a mapping, or `|items|`. */
  function FirstNonMapping(items: seq<Node>, i: nat): (k: nat)
    requires i <= |items|
    decreases |items| - i
    ensures i <= k <= |items|
    ensures forall j :: i <= j < k ==> items[j].Map?
    ensures k < |items| ==> !items[k].Map?
  {
    if i == |items| || !items[i].Map? then i else FirstNonMapping(items, i + 1)
  }

  /** The records of `items[i..]`, or what normalising them raises. */
  function NormalizeFrom(items: seq<Node>, i: nat): (r: Result<seq<FlightRecord>, Error>)
    requires i <= |items|
    decreases |items| - i
    ensures var k := FirstNonMapping(items, i);
      && (r.Success? <==> k == |items|)
      && (r.Success? ==> |r.value| == |items| - i
                         && forall j :: 0 <= j < |r.value| ==> r.value[j] == Normalize(items[i + j].entries))
      && (r.Failure? ==> r.error == NotAMapping(items[k], k))
  {
    if i == |items| then Success([])
    else if !items[i].Map? then Failure(NotAMapping(items[i], i))
    else
      assert FirstNonMapping(items, i) == FirstNonMapping(items, i + 1);
      match NormalizeFrom(items, i + 1)
      case Success(rest) =>
        var r := [Normalize(items[i].entries)] + rest;
        assert forall j :: 1 <= j < |r| ==> r[j] == rest[j - 1];
        Success(r)
      case Failure(e) => Failure(e)
  }

  /** The `flights` mapping: `data.get("airport", {}).get("flights", {})`. */
  function FlightsNode(doc: Document): Result<map<string, Node>, Error>
  {
    var airport := GetOr(doc, "airport", EmptyMap);
    if !airport.Map? then Failure(NoAttribute(airport, "get"))
    else
      var flights := GetOr(airport.entries, "flights", EmptyMap);
      if !flights.Map? then Failure(NoAttribute(flights, "get"))
      else Success(flights.entries)
  }

  /** The snapshot read from the `flights` mapping. */
  function ParseFlightsNode(node: map<string, Node>): Result<Snapshot, Error>
  {
    match Wrapped(GetOr(node, "flight", List([])))
    case Failure(e) => Failure(e)
    case Success(items) =>
      match NormalizeFrom(items, 0)
      case Failure(e) => Failure(e)
      case Success(flights) => Success(Snapshot(Get(node, "@lastUpdate"), flights))
  }

  /** The snapshot read from a parsed feed document. */
  function ParseFeed(doc: Document): Result<Snapshot, Error>
  {
    match FlightsNode(doc)
    case Failure(e) => Failure(e)
    case Success(node) => ParseFlightsNode(node)
  }

  /** `async_get_flights` as a function of the transport and its arguments. */
  function GetFlights(fetch: Transport, airport: string, direction: Option<string>,
                      timeFrom: Option<int>, timeTo: Option<int>, codeshare: bool): Result<Snapshot, Error>
  {
    match fetch(FlightsUrl, QueryParams(airport, direction, timeFrom, timeTo, codeshare))
    case Raised(e) => Failure(e)
    case Document(doc) => ParseFeed(doc)
  }

  /**
   * `async_get_flights`: build the query, fetch, then append one record per
   * flight item in a loop.
   */
  method AsyncGetFlights(fetch: Transport, airport: string, direction: Option<string>,
                         timeFrom: Option<int>, timeTo: Option<int>, codeshare: bool)
    returns (r: Result<Snapshot, Error>)
    ensures r == GetFlights(fetch, airport, direction, timeFrom, timeTo, codeshare)
  {
    var params := QueryParams(airport, direction, timeFrom, timeTo, codeshare);
    var fetched := fetch(FlightsUrl, params);
    if fetched.Raised? {
      return Failure(fetched.err);
    }
    var data := fetched.doc;
    var airportNode := GetOr(data, "airport", EmptyMap);
    if !airportNode.Map? {
      return Failure(NoAttribute(airportNode, "get"));
    }
    var flightsNode := GetOr(airportNode.entries, "flights", EmptyMap);
    if !flightsNode.Map? {
      return Failure(NoAttribute(flightsNode, "get"));
    }
    var lastUpdate := Get(flightsNode.entries, "@lastUpdate");
    var wrapped := Wrapped(GetOr(flightsNode.entries, "flight", List([])));
    if wrapped.Failure? {
      return Failure(wrapped.error);
    }
    var items := wrapped.value;
    var flights: seq<FlightRecord> := [];
    var i := 0;
    while i < |items|
      invariant 0 <= i <= |items| && |flights| == i
      invariant forall k :: 0 <= k < i ==> items[k].Map? && flights[k] == Normalize(items[k].entries)
    {
      var it := items[i];
      if !it.Map? {
        assert FirstNonMapping(items, 0) == i;
        return Failure(NoAttribute(it, if |flights| == 0 then "keys" else "get"));
      }
      flights := flights + [Normalize(it.entries)];
      i := i + 1;
    }
    assert FirstNonMapping(items, 0) == |items|;
    assert NormalizeFrom(items, 0).value == flights;
    r := Success(Snapshot(lastUpdate, flights));
  }

  /** A feed document whose `flights` node holds `lastUpdate` and the given `flight` node. */
  function FeedDocument(lastUpdate: Node, flight: Node): Document
  {
    map["airport" := Map(map["flights" := Map(map["@lastUpdate" := lastUpdate, "flight" := flight])])]
  }

  /**
   * A single flight given as a bare mapping reads exactly like a list holding
   * that one mapping, and yields one record.
   */
  lemma {:induction false} SingleFlightWrapped(node: map<string, Node>, m: map<string, Node>)
    ensures ParseFlightsNode(node["flight" := Map(m)]) == ParseFlightsNode(node["flight" := List([Map(m)])])
    ensures ParseFlightsNode(node["flight" := Map(m)]) == Success(Snapshot(Get(node, "@lastUpdate"), [Normalize(m)]))
  {
    var single := NormalizeFrom([Map(m)], 0);
    assert single.Success?;
    assert single.value == [Normalize(m)];
    assert Get(node["flight" := Map(m)], "@lastUpdate") == Get(node, "@lastUpdate");
    assert Get(node["flight" := List([Map(m)])], "@lastUpdate") == Get(node, "@lastUpdate");
  }

  /**
   * A missing `airport`, `flights` or `flight` node is not an error: the
   * flight list is empty, and `lastUpdate` is `None` unless a `flights`
   * mapping carries the attribute.
   */
  lemma MissingNodesGiveEmpty(doc: Document)
    ensures "airport" !in doc ==> ParseFeed(doc) == Success(Snapshot(Null, []))
    ensures "airport" in doc && doc["airport"].Map? && "flights" !in doc["airport"].entries ==>
              ParseFeed(doc) == Success(Snapshot(Null, []))
    ensures "airport" in doc && doc["airport"].Map? && "flights" in doc["airport"].entries
            && doc["airport"].entries["flights"].Map? && "flight" !in doc["airport"].entries["flights"].entries ==>
              ParseFeed(doc) == Success(Snapshot(Get(doc["airport"].entries["flights"].entries, "@lastUpdate"), []))
  {
  }

  /**
   * On success there is exactly one record per flight item, in item order,
   * and `lastUpdate` is the `@lastUpdate` attribute of the `flights` node.
   */
  lemma RecordPerItem(doc: Document)
    requires ParseFeed(doc).Success?
    ensures FlightsNode(doc).Success?
    ensures var node := FlightsNode(doc).value;
            var items := Wrapped(GetOr(node, "flight", List([])));
            var s := ParseFeed(doc).value;
      && items.Success?
      && s.lastUpdate == Get(node, "@lastUpdate")
      && |s.flights| == |items.value|
      && forall k :: 0 <= k < |s.flights| ==> items.value[k].Map? && s.flights[k] == Normalize(items.value[k].entries)
  {
  }

  /**
   * Parsing raises exactly when the feed has the wrong shape: the `airport` or
   * `flights` node is not a mapping, the `flight` node is empty (`None`), or
   * some flight item is not a mapping. Missing fields inside a flight never raise.
   */
  lemma {:induction false} FailsOnlyOnShape(doc: Document)
    ensures ParseFeed(doc).Failure? <==>
      || FlightsNode(doc).Failure?
      || (var node := FlightsNode(doc).value;
          var items := Wrapped(GetOr(node, "flight", List([])));
          items.Failure? || exists k :: 0 <= k < |items.value| && !items.value[k].Map?)
  {
    if FlightsNode(doc).Success? {
      var node := FlightsNode(doc).value;
      var items := Wrapped(GetOr(node, "flight", List([])));
      if items.Success? {
        var n := NormalizeFrom(items.value, 0);
        assert n.Failure? <==> exists k :: 0 <= k < |items.value| && !items.value[k].Map?;
      }
    }
  }
}
