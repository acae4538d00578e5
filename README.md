# Avinor flight data — a Dafny model

This project models the core of the Home Assistant integration `avinor_flight_data`
and of its Lovelace card, and proves properties of that model.

- `AvinorApiClient.async_get_flights` builds the query for one airport and fetches
  Avinor's XML flight feed. It turns every item of `airport/flights/flight` into an
  eleven-field flight record, lifting the status code and time out of the `status` node.
- `AvinorApiClient.async_get_airports` tries three endpoint variants in order. Only a
  404 or a non-HTTP failure moves on to the next one. It reads airport entries from
  either of two document shapes, keeps the three-character codes upper-cased, and
  sorts the entries by code.
- `AvinorCoordinator._async_update_data` runs one refresh. Anything raised becomes
  `UpdateFailed(str(err))`.
- The sensor's identity strings, device, state (the number of flights) and attributes.
- The card (`avinor-flight-card.js`):
  - registration in `window.customCards`
  - `getStubConfig`, `setConfig` and `set hass`
  - the `_e` HTML escaper that every flight field in the table goes through

Modules:

- `Outcomes` holds `Option` and `Result`.
- `Constants` holds the values of `const.py` the core uses: the domain and the API base and paths.
- `XmlTree` is the tree `xmltodict.parse` returns. Python truthiness, `or`, `.get` and
  the built-in exceptions are spelled out, each exception with CPython's message text.
  `str(err)` of those exceptions is what the coordinator publishes.
- `Text` holds Python's code-point string order, ASCII `str.upper`, `rstrip` and decimal digits.
- `Flights`, `Airports`, `Coordinator` and `Sensor` model the Python side.
- `FlightCard` models the card.
- `Scenarios` restates the repository's two parsing tests over the model, and adds one
  document whose middle airport item raises (`RaisingItemStops`).

The HTTP request is a parameter of type `Transport`. A transport is a function from
URL and query to either a parsed document or the error it raised.

The two client methods are modelled in the source's imperative form, as methods with
loops. Each is proved equal to a specification function, and the lemmas are about those
functions. The card and the `window.customCards` list are classes whose methods update
their fields.

## Model

| member | source | states |
|---|---|---|
| Text.LessIrreflexive | custom_components/avinor_flight_data/api.py:101 | no code sorts strictly before itself under Python's string order |
| Text.LessTransitive | custom_components/avinor_flight_data/api.py:101 | Python's string order is transitive |
| Text.LessTotal | custom_components/avinor_flight_data/api.py:101 | of two different codes, one sorts before the other |
| Text.LessAsymmetric | custom_components/avinor_flight_data/api.py:101 | two codes never sort before each other |
| Text.Upper | custom_components/avinor_flight_data/api.py:94 | `str.upper` keeps the length, maps each character to its upper case, and leaves no lower-case ASCII letter |
| Text.RStrip | custom_components/avinor_flight_data/api.py:54 | `rstrip("/")` gives a prefix of the URL that does not end in `/`, and only slashes were removed |
| Text.Decimal | www/community/avinor-flight-card/avinor-flight-card.js:73 | `${n}` writes decimal digits that read back as `n` under an independent digit-value reading, with no leading zero unless `n` is 0 |
| XmlTree.OrChain | custom_components/avinor_flight_data/api.py:91-92 | a chain `a or b or c` is the first truthy operand, else the last; it is truthy iff some operand is; grouping does not matter |
| Flights.QueryParams | custom_components/avinor_flight_data/api.py:117-119 | the query's first pair is always `airport` with the given airport |
| Flights.LookupPut | custom_components/avinor_flight_data/api.py:117-127 | after `params[key] = value` on a new key, that key maps to `value` and every other key keeps its value |
| Flights.PutIfKeepsRanks | custom_components/avinor_flight_data/api.py:120-127 | each conditional insertion keeps the keys in insertion order |
| Flights.QueryParamsOrdered | custom_components/avinor_flight_data/api.py:117-127 | the query holds only the five known keys, each at most once, in the code's insertion order |
| Flights.QueryParamsValues | custom_components/avinor_flight_data/api.py:117-127 | `airport` is always sent; `direction` only when non-empty; `TimeFrom`/`TimeTo` only when given; `codeshare=Y` only when asked |
| Flights.Normalize | custom_components/avinor_flight_data/api.py:147-166 | definition of one flight record; properties in Flights.StatusLifted and Flights.FieldsCopied |
| Flights.StatusLifted | custom_components/avinor_flight_data/api.py:147-165 | status code and time come from a non-empty status mapping; they are `None` when the status is missing, falsy or not a mapping |
| Flights.FieldsCopied | custom_components/avinor_flight_data/api.py:150-165 | the flight id is the first truthy of `flight_id` and `flightId`, else `""`; all other fields are copied, `None` when absent |
| Flights.FirstNonMapping | custom_components/avinor_flight_data/api.py:140-145 | gives the first flight item that is not a mapping; every item before it is one |
| Flights.NormalizeFrom | custom_components/avinor_flight_data/api.py:140-167 | normalising succeeds iff every item is a mapping, with one record per item in order; otherwise it raises AttributeError at the first non-mapping (`keys` for item 0, `get` after) |
| Flights.ParseFeed | custom_components/avinor_flight_data/api.py:129-168 | definition of parsing the feed document; properties in Flights.RecordPerItem, Flights.FailsOnlyOnShape and Flights.MissingNodesGiveEmpty |
| Flights.GetFlights | custom_components/avinor_flight_data/api.py:104-168 | definition of `async_get_flights` over a transport; properties in Coordinator.RefreshRelaysResponse and Flights.AsyncGetFlights |
| Flights.AsyncGetFlights | custom_components/avinor_flight_data/api.py:104-168 | the loop over flight items returns exactly the specified snapshot or error |
| XmlTree.Wrapped | custom_components/avinor_flight_data/api.py:137-139 | definition of wrapping a bare mapping into a one-element list before iterating (also api.py:86-87); properties in Flights.SingleFlightWrapped and Airports.SingleAirportWrapped |
| Flights.SingleFlightWrapped | custom_components/avinor_flight_data/api.py:137-139 | a single flight given as a bare mapping parses like a one-element list and yields one record |
| Flights.MissingNodesGiveEmpty | custom_components/avinor_flight_data/api.py:132-138 | a missing `airport`, `flights` or `flight` node gives an empty flight list, not an error |
| Flights.RecordPerItem | custom_components/avinor_flight_data/api.py:132-167 | on success, `lastUpdate` is the `@lastUpdate` attribute, with one record per flight item, in order |
| Flights.FailsOnlyOnShape | custom_components/avinor_flight_data/api.py:132-167 | parsing raises iff `airport`/`flights` is not a mapping, `flight` is `None`, or some item is not a mapping |
| Airports.AirportUrls | custom_components/avinor_flight_data/api.py:52-59 | three endpoint variants are tried in order: the primary URL, its trailing-slash variant, then the non-versioned `/airportNames` path |
| Airports.FirstStop | custom_components/avinor_flight_data/api.py:59-72 | finds the first endpoint whose attempt ends the loop; every earlier attempt moved on |
| Airports.SearchOrder | custom_components/avinor_flight_data/api.py:57-75 | endpoints are requested in order; the loop stops at the first answer, or at the first HTTP status other than 404, which propagates; if every attempt moves on, all three were requested |
| Airports.SearchEndpoints | custom_components/avinor_flight_data/api.py:57-75 | definition of where the loop over endpoints ends and which URLs it requests; properties in Airports.SearchOrder and Airports.FirstStop |
| Airports.FetchDirectory | custom_components/avinor_flight_data/api.py:57-75 | the loop over endpoints ends as specified, after requesting exactly the specified URLs |
| Airports.ReadPriority | custom_components/avinor_flight_data/api.py:89-94 | an item is accepted iff its first truthy of `@code`, `code`, `@iata`, `iata` is a three-character string; the entry is that string upper-cased, named by `@name`, else `name`, else the code |
| Airports.Read | custom_components/avinor_flight_data/api.py:89-94 | definition of reading one item; properties in Airports.ReadPriority |
| Airports.Collect | custom_components/avinor_flight_data/api.py:78-98 | definition of the item loop with its `try`; never more entries than items; its result is characterised by Airports.CollectUntilRaise |
| Airports.FirstRaise | custom_components/avinor_flight_data/api.py:89-98 | gives the first item whose reading raises, or the number of items; no earlier item raises |
| Airports.CollectUntilRaise | custom_components/avinor_flight_data/api.py:78-98 | an item that raises ends the loop, and the entries accepted before it are kept: the result is exactly the accepted entries of the items before the first raising one, in order |
| Airports.CollectedAreAccepted | custom_components/avinor_flight_data/api.py:89-98 | every collected entry has a valid upper-case three-character code and was accepted from some item |
| Airports.CollectAll | custom_components/avinor_flight_data/api.py:89-94 | when no item raises, every accepted item is kept, in order |
| Airports.AirportItems | custom_components/avinor_flight_data/api.py:81-87 | definition of where the items are looked up; properties in Airports.SingleAirportWrapped and Scenarios.AirportsPayloadParsed |
| Airports.SingleAirportWrapped | custom_components/avinor_flight_data/api.py:81-87 | a single airport given as a bare mapping, in either document shape, is read as a one-element list |
| Airports.Parse | custom_components/avinor_flight_data/api.py:77-98 | definition of the entries parsed from a document, before sorting; properties in Airports.CollectUntilRaise, Airports.CollectedAreAccepted and Airports.DirectoryShape |
| Airports.ParseDirectory | custom_components/avinor_flight_data/api.py:77-98 | the loop over items gives the specified entries and stops at the first item that raises |
| Airports.Insert | custom_components/avinor_flight_data/api.py:101 | inserting adds exactly the one entry |
| Airports.SortByCode | custom_components/avinor_flight_data/api.py:101 | the sort is a permutation of its input |
| Airports.InsertSorted | custom_components/avinor_flight_data/api.py:101 | inserting into a sorted list keeps it sorted |
| Airports.SortSorted | custom_components/avinor_flight_data/api.py:101 | the result is ordered by code |
| Airports.WithCodeAppend | custom_components/avinor_flight_data/api.py:101 | entries with a given code distribute over concatenation |
| Airports.InsertStable | custom_components/avinor_flight_data/api.py:101 | an inserted entry goes after the entries that share its code |
| Airports.NoneWithCode | custom_components/avinor_flight_data/api.py:101 | a sorted list starting above a code holds no entry with it |
| Airports.SortStable | custom_components/avinor_flight_data/api.py:101 | the sort is stable: entries with equal codes keep their relative order |
| Airports.GetAirports | custom_components/avinor_flight_data/api.py:47-102 | definition of `async_get_airports` over a transport; properties in Airports.DirectoryShape |
| Airports.DirectoryShape | custom_components/avinor_flight_data/api.py:47-102 | on success the directory holds only valid codes, sorted, and is a stable permutation of the entries accepted before the first item that raises; unreachable endpoints give `[]`; a non-404 HTTP status is raised again, and nothing else fails |
| Airports.AsyncGetAirports | custom_components/avinor_flight_data/api.py:47-102 | endpoint loop, item loop and sort together give exactly the specified result, and request the specified URLs |
| Coordinator.UpdateData | custom_components/avinor_flight_data/coordinator.py:41-51 | definition of one refresh; properties in Coordinator.RefreshRelaysResponse and Coordinator.UpdateOutcome |
| Coordinator.RefreshRelaysResponse | custom_components/avinor_flight_data/coordinator.py:41-51 | a refresh sends one request to the flights feed with the configured airport and never `codeshare`; the parsed snapshot is returned unchanged and anything raised becomes `UpdateFailed(str(err))` |
| Coordinator.UpdateOutcome | custom_components/avinor_flight_data/coordinator.py:41-51 | a refresh succeeds iff the client returns, with the client's result; a missing airport fails with `'airport'` |
| Sensor.SensorIdentity | custom_components/avinor_flight_data/sensor.py:31-38 | definition of the unique id and name; properties in Sensor.UniqueIdDetermines |
| Sensor.UniqueIdDetermines | custom_components/avinor_flight_data/sensor.py:31-38 | for three-letter airports, two sensors share a unique id iff they share airport and direction |
| Sensor.Device | custom_components/avinor_flight_data/sensor.py:40-49 | definition of `device_info`; properties in Sensor.DevicePerAirport |
| Sensor.DevicePerAirport | custom_components/avinor_flight_data/sensor.py:40-49 | sensors share a device iff they share the airport, whatever the direction |
| Sensor.NativeValue | custom_components/avinor_flight_data/sensor.py:51-54 | definition of the state; properties in Sensor.StateMatchesAttributes and Sensor.StateCountsFeedItems |
| Sensor.ExtraStateAttributes | custom_components/avinor_flight_data/sensor.py:56-67 | definition of the attributes; properties in Sensor.StateMatchesAttributes |
| Sensor.StateMatchesAttributes | custom_components/avinor_flight_data/sensor.py:51-67 | the state is the length of the published `flights` attribute; without data it is 0 and `last_update` is `None`; settings come from the entry |
| Sensor.StateCountsFeedItems | custom_components/avinor_flight_data/sensor.py:51-54 | after a successful refresh the state equals the number of flight items in the feed |
| Sensor.ShouldPoll | custom_components/avinor_flight_data/sensor.py:69-71 | definition of `should_poll`: always `False`, the sensor is updated by the coordinator |
| FlightCard.Escape | www/community/avinor-flight-card/avinor-flight-card.js:113-123 | definition of `_e`; properties in FlightCard.EscapeSafe, FlightCard.UnescapeEscape and FlightCard.EscapePlain |
| FlightCard.ReplaceAllConcat | www/community/avinor-flight-card/avinor-flight-card.js:117-122 | a global `replace` distributes over concatenation |
| FlightCard.ReplaceAllAbsent | www/community/avinor-flight-card/avinor-flight-card.js:117-122 | replacing a character the text does not hold leaves it unchanged |
| FlightCard.ReplaceChainConcat | www/community/avinor-flight-card/avinor-flight-card.js:117-122 | the five chained replacements distribute over concatenation |
| FlightCard.ReplaceChainChar | www/community/avinor-flight-card/avinor-flight-card.js:117-122 | on one character the chain gives exactly that character's entity; `&` first means no entity is escaped twice |
| FlightCard.ChainEscapesEachChar | www/community/avinor-flight-card/avinor-flight-card.js:113-123 | the chained replacements equal escaping each character on its own |
| FlightCard.EscapeCharSafe | www/community/avinor-flight-card/avinor-flight-card.js:113-123 | the text one character escapes to is markup-safe |
| FlightCard.SafeHtmlConcat | www/community/avinor-flight-card/avinor-flight-card.js:113-123 | markup-safe texts stay safe when concatenated |
| FlightCard.EscapeSafe | www/community/avinor-flight-card/avinor-flight-card.js:113-123 | `_e` output holds no `<`, `>`, `"` or `'`, and every `&` starts one of the five entities |
| FlightCard.EscapeEachSafe | www/community/avinor-flight-card/avinor-flight-card.js:113-123 | per-character escaping yields markup-safe text |
| FlightCard.UnescapeStep | www/community/avinor-flight-card/avinor-flight-card.js:117-122 | decoding one character's escape recovers that character |
| FlightCard.UnescapeEscape | www/community/avinor-flight-card/avinor-flight-card.js:113-123 | decoding the five entities recovers exactly the text `_e` was given |
| FlightCard.UnescapeEachChar | www/community/avinor-flight-card/avinor-flight-card.js:113-123 | decoding undoes per-character escaping |
| FlightCard.EscapePlain | www/community/avinor-flight-card/avinor-flight-card.js:113-123 | text without the five special characters comes out of `_e` unchanged |
| FlightCard.EscapeEachPlain | www/community/avinor-flight-card/avinor-flight-card.js:113-123 | per-character escaping leaves plain text unchanged |
| FlightCard.CountListedPositive | www/community/avinor-flight-card/avinor-flight-card.js:10 | the `some(c => c.type === ...)` check holds iff at least one entry has the card's type |
| FlightCard.CountListedAppend | www/community/avinor-flight-card/avinor-flight-card.js:12-18 | pushing an entry adds one to the count exactly when it has the card's type |
| FlightCard.Registered | www/community/avinor-flight-card/avinor-flight-card.js:8-19 | definition of the registration block on the list; properties in FlightCard.RegistrationIdempotent, FlightCard.RegistrationKeepsEntries and FlightCard.RegistrationCount |
| FlightCard.RegistrationIdempotent | www/community/avinor-flight-card/avinor-flight-card.js:8-22 | registering twice is the same as registering once |
| FlightCard.RegistrationKeepsEntries | www/community/avinor-flight-card/avinor-flight-card.js:9-19 | registration keeps every existing entry in place |
| FlightCard.RegistrationCount | www/community/avinor-flight-card/avinor-flight-card.js:9-19 | afterwards at least one entry has the card's type; one is added only when there was none |
| FlightCard.Window.RegisterCard | www/community/avinor-flight-card/avinor-flight-card.js:8-22 | the module's registration block leaves `window.customCards` as specified, creating the list when undefined |
| FlightCard.FindSensor | www/community/avinor-flight-card/avinor-flight-card.js:28 | finds the first state id starting with `sensor.avinor_`; no earlier id does |
| FlightCard.GetStubConfig | www/community/avinor-flight-card/avinor-flight-card.js:25-34 | the stub names the first Avinor sensor if there is one, else `''`, always with the default title |
| FlightCard.CardHeader | www/community/avinor-flight-card/avinor-flight-card.js:48-52 | the header is never empty: the title when truthy, else `Avinor Flight Data` |
| FlightCard.SummaryLine | www/community/avinor-flight-card/avinor-flight-card.js:69-73 | definition of the summary line; properties in FlightCard.SummaryCountsFlights |
| FlightCard.SummaryCountsFlights | www/community/avinor-flight-card/avinor-flight-card.js:67-73 | the count after `Flights: ` is decimal without a leading zero and reads back as `flights.length`, or 0 when `flights` is not an array |
| FlightCard.Row | www/community/avinor-flight-card/avinor-flight-card.js:75-84 | definition of one table row; properties in FlightCard.RowPerFlight |
| FlightCard.JoinConcat | www/community/avinor-flight-card/avinor-flight-card.js:75-85 | the rows of two flight lists are the concatenation of their rows |
| FlightCard.JoinSplit | www/community/avinor-flight-card/avinor-flight-card.js:75-85 | item `i`'s text sits between the texts of the items before and after it |
| FlightCard.Rows | www/community/avinor-flight-card/avinor-flight-card.js:75-85 | definition of `flights.map(...).join('')`; properties in FlightCard.RowPerFlight and FlightCard.JoinConcat |
| FlightCard.RowPerFlight | www/community/avinor-flight-card/avinor-flight-card.js:75-85 | the table body has one row per flight, in order |
| FlightCard.RenderWithoutFlights | www/community/avinor-flight-card/avinor-flight-card.js:66-110 | missing attributes, or a `flights` that is not an array, render the table with no rows |
| FlightCard.RenderState | www/community/avinor-flight-card/avinor-flight-card.js:66-110 | definition of the content for a found entity; properties in FlightCard.RenderWithoutFlights and FlightCard.SummaryCountsFlights |
| FlightCard.Render | www/community/avinor-flight-card/avinor-flight-card.js:57-110 | definition of the content for an entity; properties in FlightCard.RowPerFlight and FlightCard.RenderWithoutFlights |
| FlightCard.AvinorFlightCard.SetConfig | www/community/avinor-flight-card/avinor-flight-card.js:40-55 | a falsy entity throws `Please define entity` and changes nothing; otherwise the configuration is kept, the content is fresh and one `ha-card` with its header is appended |
| FlightCard.AvinorFlightCard.SetHass | www/community/avinor-flight-card/avinor-flight-card.js:57-111 | the states are stored; a configured card's content becomes the rendering of its entity, an unconfigured card's is untouched |
| Scenarios.FlightsPayloadParsed | tests/test_api_parsing.py:19-61 | the two-flight payload gives the feed's `lastUpdate`, two records, the first with id `DY123` and status `BRD` |
| Scenarios.AirportsPayloadParsed | tests/test_api_parsing.py:64-82 | the two-airport payload gives `BGO Bergen`, then `OSL Oslo` |
| Scenarios.RaisingItemStops | custom_components/avinor_flight_data/api.py:78-102 | of the items Oslo, `None` and Bergen, only Oslo is returned: the `None` item raises and ends the loop |

## Left out

- HTTP, `aiohttp`, XML parsing and the 30-second timeout are not modelled. The request is a transport parameter that returns a parsed tree or the error it raised.
- Log calls, including the debug dump of the first flight's keys, are left out. Only the exception that dump raises on a non-mapping first item is kept.
- Home Assistant's lifecycle is not modelled: entry setup, `config_flow.py`, `__init__.py`, the refresh timer and `UpdateFailed` handling beyond its message.
- Configuration values are typed as strings and integers. `int(time_from)` on other types is not modelled.
- Text.Upper: only ASCII letters are upper-cased. Python's `str.upper` also maps other scripts, and some characters to more than one.
- The card's DOM is not modelled: elements, styles, `appendChild`, the editor element, `getCardSize`, `customElements.define` and `console.info`. Content is the `innerHTML` string, and each appended `ha-card` is its header.
- `_e` on non-string values: `String(v)` for numbers and objects is not modelled. Card fields are optional strings.
- A `null` element of the `flights` array is not modelled. The card would throw there.
- The `try`/`catch` around registration is not modelled. A `window.customCards` that is not an array is not represented.
- FlightCard.AvinorFlightCard.SetHass: `hass.states[entityId]` is modelled as map membership. A state object is always truthy.
