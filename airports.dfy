/**
 * `AvinorApiClient.async_get_airports`
 * (custom_components/avinor_flight_data/api.py:47-102): try three endpoint
 * variants in order, read the airport entries out of either of two document
 * shapes, keep the three-character codes upper-cased, and sort by code.
 */
module Airports {
  import opened Outcomes
  import opened XmlTree
  import Text
  import opened Constants

  const PrimaryUrl := ApiBase + ApiAirports

  /** The primary endpoint, its trailing-slash variant, and the non-versioned path. */
  function AirportUrls(): (urls: seq<string>)
    ensures |urls| == 3 && urls[0] == PrimaryUrl
    ensures urls[1] == PrimaryUrl + "/" && urls[2] == ApiBase + "/airportNames"
  {
    assert PrimaryUrl[|PrimaryUrl| - 1] == '0';
    [PrimaryUrl, Text.RStrip(PrimaryUrl, '/') + "/", ApiBase + "/airportNames"]
  }

  /** One entry of the directory: `{"iata": ..., "name": ...}`. */
  datatype AirportRecord = AirportRecord(iata: string, name: Node)

  /** How the loop over endpoints treats one attempt. */
  predicate Continues(f: Fetched)
  {
    f.Raised? && !(f.err.HttpStatus? && f.err.status != 404)
  }

  /** The index of the first attempt from `i` on that ends the loop, or `|urls|`. */
  function FirstStop(fetch: Transport, urls: seq<string>, i: nat): (k: nat)
    requires i <= |urls|
    decreases |urls| - i
    ensures i <= k <= |urls|
    ensures forall j :: i <= j < k ==> Continues(fetch(urls[j], []))
    ensures k < |urls| ==> !Continues(fetch(urls[k], []))
  {
    if i == |urls| || !Continues(fetch(urls[i], [])) then i else FirstStop(fetch, urls, i + 1)
  }

  /** Where the loop over endpoints ends. */
  datatype Search = Found(doc: Document) | Aborted(err: Error) | Exhausted

  /** The end of the loop over `urls`, and the URLs it requested, in order. */
  function SearchEndpoints(fetch: Transport, urls: seq<string>): (Search, seq<string>)
  {
    var k := FirstStop(fetch, urls, 0);
    if k == |urls| then (Exhausted, urls)
    else match fetch(urls[k], [])
      case Document(doc) => (Found(doc), urls[..k + 1])
      case Raised(e) => (Aborted(e), urls[..k + 1])
  }

  /**
   * The endpoints are requested in order and the loop stops at the first one
   * that answers; a 404 or any failure other than an HTTP status moves on to
   * the next, another HTTP status ends the loop with that error, and when
   * every attempt moved on all three were requested.
   */
  lemma {:induction false} SearchOrder(fetch: Transport)
    ensures var (s, tried) := SearchEndpoints(fetch, AirportUrls());
      && 0 < |tried| <= 3
      && tried == AirportUrls()[..|tried|]
      && (forall j :: 0 <= j < |tried| - 1 ==> Continues(fetch(tried[j], [])))
      && (s.Found? <==> fetch(tried[|tried| - 1], []).Document?)
      && (s.Found? ==> fetch(tried[|tried| - 1], []) == Document(s.doc))
      && (s.Aborted? ==> fetch(tried[|tried| - 1], []) == Raised(s.err) && s.err.HttpStatus? && s.err.status != 404)
      && (s.Exhausted? <==> forall j :: 0 <= j < 3 ==> Continues(fetch(AirportUrls()[j], [])))
      && (s.Exhausted? ==> |tried| == 3)
  {
    var urls := AirportUrls();
    var k := FirstStop(fetch, urls, 0);
    var (s, tried) := SearchEndpoints(fetch, urls);
    if k == |urls| {
      assert tried == urls == urls[..3];
    } else {
      assert tried == urls[..k + 1];
      assert tried[|tried| - 1] == urls[k];
      assert !Continues(fetch(urls[k], []));
    }
  }

  /** What reading one item does: raise, skip it, or accept an entry. */
  datatype Step = Raises | Skipped | Accepted(record: AirportRecord)

  /**
   * One item: the code is the first truthy of `@code`, `code`, `@iata`,
   * `iata`; the name the first truthy of `@name`, `name`, else the code.
   * A code of length three is kept upper-cased; `.get` on a non-mapping and
   * `.upper()` on a non-string raise.
   */
  function Read(it: Node): Step
  {
    if !it.Map? then Raises
    else
      var m := it.entries;
      var iata := Or(Or(Or(Get(m, "@code"), Get(m, "code")), Get(m, "@iata")), Get(m, "iata"));
      var name := Or(Or(Get(m, "@name"), Get(m, "name")), iata);
      if Truthy(iata) && Len(iata) == 3 then
        if iata.Text? then Accepted(AirportRecord(Text.Upper(iata.text), name)) else Raises
      else Skipped
  }

  /** The first truthy value among `keys` in `m`, or `None`. */
  function FirstTruthy(m: map<string, Node>, keys: seq<string>): Node
  {
    if keys == [] then Null
    else if Truthy(Get(m, keys[0])) then m[keys[0]]
    else FirstTruthy(m, keys[1..])
  }

  /**
   * An accepted entry's code is the upper-cased first truthy value among
   * `@code`, `code`, `@iata`, `iata`, three characters long, and its name the
   * first truthy of `@name` and `name`, falling back to that value.
   */
  lemma ReadPriority(m: map<string, Node>)
    ensures var code := FirstTruthy(m, ["@code", "code", "@iata", "iata"]);
            var name := FirstTruthy(m, ["@name", "name"]);
      && (Read(Map(m)).Accepted? <==> code.Text? && |code.text| == 3)
      && (Read(Map(m)).Accepted? ==>
            Read(Map(m)).record == AirportRecord(Text.Upper(code.text), if name.Null? then code else name))
  {
    assert ["@code", "code", "@iata", "iata"] == ["@code"] + ["code", "@iata", "iata"];
    assert ["code", "@iata", "iata"] == ["code"] + ["@iata", "iata"];
    assert ["@iata", "iata"] == ["@iata"] + ["iata"];
    assert ["iata"] == ["iata"] + [];
    assert ["@name", "name"] == ["@name"] + ["name"];
    assert ["name"] == ["name"] + [];
    FirstTruthyStep(m, "@code", ["code", "@iata", "iata"]);
    FirstTruthyStep(m, "code", ["@iata", "iata"]);
    FirstTruthyStep(m, "@iata", ["iata"]);
    FirstTruthyStep(m, "iata", []);
    FirstTruthyStep(m, "@name", ["name"]);
    FirstTruthyStep(m, "name", []);
  }

  lemma FirstTruthyStep(m: map<string, Node>, key: string, rest: seq<string>)
    ensures FirstTruthy(m, [key] + rest) == if Truthy(Get(m, key)) then m[key] else FirstTruthy(m, rest)
  {
    assert ([key] + rest)[0] == key && ([key] + rest)[1..] == rest;
  }

  /** The entries accepted from `items` before the first item that raises. */
  function Collect(items: seq<Node>): (r: seq<AirportRecord>)
    ensures |r| <= |items|
  {
    if items == [] then []
    else match Read(items[0])
      case Raises => []
      case Skipped => Collect(items[1..])
      case Accepted(a) => [a] + Collect(items[1..])
  }

  /** A code as the directory keeps it: three characters, no lower-case ASCII letter. */
  predicate ValidCode(code: string)
  {
    |code| == 3 && forall i :: 0 <= i < 3 ==> !Text.IsLowerAscii(code[i])
  }

  /** Every collected entry was accepted from an item, in item order. */
  lemma {:induction false} CollectedAreAccepted(items: seq<Node>)
    ensures forall a :: a in Collect(items) ==> ValidCode(a.iata)
    ensures forall a :: a in Collect(items) ==> exists k :: 0 <= k < |items| && Read(items[k]) == Accepted(a)
  {
    if items != [] {
      CollectedAreAccepted(items[1..]);
      match Read(items[0])
      case Raises =>
      case Skipped =>
        forall a | a in Collect(items)
          ensures exists k :: 0 <= k < |items| && Read(items[k]) == Accepted(a)
        {
          var k :| 0 <= k < |items[1..]| && Read(items[1..][k]) == Accepted(a);
          assert Read(items[k + 1]) == Accepted(a);
        }
      case Accepted(b) =>
        assert ValidCode(b.iata);
        forall a | a in Collect(items)
          ensures exists k :: 0 <= k < |items| && Read(items[k]) == Accepted(a)
        {
          if a == b {
            assert Read(items[0]) == Accepted(a);
          } else {
            var k :| 0 <= k < |items[1..]| && Read(items[1..][k]) == Accepted(a);
            assert Read(items[k + 1]) == Accepted(a);
          }
        }
    }
  }

  /** When no item raises, every accepted entry is collected, in order. */
  lemma {:induction false} CollectAll(items: seq<Node>)
    requires forall k :: 0 <= k < |items| ==> !Read(items[k]).Raises?
    ensures Collect(items) == Accepts(items)
  {
    if items != [] {
      CollectAll(items[1..]);
    }
  }

  /** The accepted entries of `items`, in order. */
  function Accepts(items: seq<Node>): seq<AirportRecord>
  {
    if items == [] then []
    else if Read(items[0]).Accepted? then [Read(items[0]).record] + Accepts(items[1..])
    else Accepts(items[1..])
  }

  /** The index of the first item whose reading raises, or `|items|` when none does. */
  function FirstRaise(items: seq<Node>): (k: nat)
    ensures k <= |items|
    ensures forall j :: 0 <= j < k ==> !Read(items[j]).Raises?
    ensures k < |items| ==> Read(items[k]).Raises?
  {
    if items == [] || Read(items[0]).Raises? then 0 else 1 + FirstRaise(items[1..])
  }

  /**
   * The `try` around the loop keeps what was gathered before an item raised:
   * the result is exactly the accepted entries among the items before the
   * first raising one, in order.
   */
  lemma {:induction false} CollectUntilRaise(items: seq<Node>)
    ensures Collect(items) == Accepts(items[..FirstRaise(items)])
  {
    if items != [] && !Read(items[0]).Raises? {
      CollectUntilRaise(items[1..]);
      var prefix := items[..FirstRaise(items)];
      assert prefix[0] == items[0];
      assert prefix[1..] == items[1..][..FirstRaise(items[1..])];
    }
  }

  /**
   * The items to read, or `None` when the lookup itself raised:
   * `airportNames.airportName`, and when that is falsy `airports.airport`,
   * a bare mapping wrapped into a one-element list.
   */
  function AirportItems(doc: Document): Option<seq<Node>>
  {
    var names := GetOr(doc, "airportNames", EmptyMap);
    if !names.Map? then None
    else
      var first := GetOr(names.entries, "airportName", List([]));
      if Truthy(first) then ItemsOf(first)
      else
        var airports := GetOr(doc, "airports", EmptyMap);
        if !airports.Map? then None
        else ItemsOf(GetOr(airports.entries, "airport", List([])))
  }

  function ItemsOf(n: Node): Option<seq<Node>>
  {
    match Wrapped(n)
    case Success(items) => Some(items)
    case Failure(_) => None
  }

  /** A single airport given as a bare mapping reads like a list holding it. */
  lemma SingleAirportWrapped(m: map<string, Node>)
    ensures AirportItems(map["airports" := Map(map["airport" := Map(m)])]) == Some([Map(m)])
    ensures m != map[] ==> AirportItems(map["airportNames" := Map(map["airportName" := Map(m)])]) == Some([Map(m)])
  {
  }

  /** The entries parsed from a document, before sorting. */
  function Parse(doc: Document): seq<AirportRecord>
  {
    match AirportItems(doc)
    case None => []
    case Some(items) => Collect(items)
  }

  // ---------------------------------------------------------------------
  // `airports.sort(key=lambda a: a.get("iata", ""))`: a stable sort by code.

  predicate SortedByCode(s: seq<AirportRecord>)
  {
    forall i, j :: 0 <= i < j < |s| ==> Text.LessEq(s[i].iata, s[j].iata)
  }

  /** Inserts `a` after every entry whose code is not greater than its own. */
  function Insert(s: seq<AirportRecord>, a: AirportRecord): (r: seq<AirportRecord>)
    ensures multiset(r) == multiset(s) + multiset{a}
  {
    if s == [] || Text.Less(a.iata, s[0].iata) then [a] + s
    else
      assert s == [s[0]] + s[1..];
      [s[0]] + Insert(s[1..], a)
  }

  /** The stable sort of `s` by code, inserting from left to right. */
  function SortByCode(s: seq<AirportRecord>): (r: seq<AirportRecord>)
    ensures multiset(r) == multiset(s)
  {
    if s == [] then []
    else
      assert s == s[..|s| - 1] + [s[|s| - 1]];
      Insert(SortByCode(s[..|s| - 1]), s[|s| - 1])
  }

  lemma {:induction false} InsertSorted(s: seq<AirportRecord>, a: AirportRecord)
    requires SortedByCode(s)
    ensures SortedByCode(Insert(s, a))
  {
    if s == [] || Text.Less(a.iata, s[0].iata) {
      forall j | 0 < j < |[a] + s|
        ensures Text.LessEq(a.iata, ([a] + s)[j].iata)
      {
        Text.LessEqTransitive(a.iata, s[0].iata, s[j - 1].iata);
      }
    } else {
      InsertSorted(s[1..], a);
      var r := Insert(s, a);
      var rest := Insert(s[1..], a);
      assert r == [s[0]] + rest;
      assert multiset(rest) == multiset(s[1..]) + multiset{a};
      forall j | 0 <= j < |rest|
        ensures Text.LessEq(s[0].iata, rest[j].iata)
      {
        assert rest[j] in multiset(rest);
        if rest[j] == a {
          Text.LessTotal(a.iata, s[0].iata);
        } else {
          assert rest[j] in multiset(s[1..]);
          assert rest[j] in s[1..];
        }
      }
    }
  }

  /** The sort orders the entries by code. */
  lemma {:induction false} SortSorted(s: seq<AirportRecord>)
    ensures SortedByCode(SortByCode(s))
  {
    if s != [] {
      SortSorted(s[..|s| - 1]);
      InsertSorted(SortByCode(s[..|s| - 1]), s[|s| - 1]);
    }
  }

  /** The entries of `s` with code `code`, in order. */
  function WithCode(s: seq<AirportRecord>, code: string): seq<AirportRecord>
  {
    if s == [] then []
    else if s[0].iata == code then [s[0]] + WithCode(s[1..], code)
    else WithCode(s[1..], code)
  }

  lemma {:induction false} WithCodeAppend(s: seq<AirportRecord>, t: seq<AirportRecord>, code: string)
    ensures WithCode(s + t, code) == WithCode(s, code) + WithCode(t, code)
  {
    if s == [] {
      assert s + t == t;
    } else {
      assert (s + t)[1..] == s[1..] + t;
      WithCodeAppend(s[1..], t, code);
    }
  }

  /** Inserting `a` into a sorted list puts it after the entries that share its code. */
  lemma {:induction false} InsertStable(s: seq<AirportRecord>, a: AirportRecord, code: string)
    requires SortedByCode(s)
    ensures WithCode(Insert(s, a), code) == WithCode(s, code) + WithCode([a], code)
  {
    if s == [] {
    } else if Text.Less(a.iata, s[0].iata) {
      if a.iata == code {
        NoneWithCode(s, code);
      }
      assert Insert(s, a) == [a] + s;
      WithCodeAppend([a], s, code);
    } else {
      InsertStable(s[1..], a, code);
      assert Insert(s, a) == [s[0]] + Insert(s[1..], a);
    }
  }

  /** A sorted list whose first code is greater than `code` holds no entry with that code. */
  lemma {:induction false} NoneWithCode(s: seq<AirportRecord>, code: string)
    requires SortedByCode(s) && s != [] && Text.Less(code, s[0].iata)
    ensures WithCode(s, code) == []
  {
    if |s| > 1 {
      if s[1].iata != s[0].iata {
        Text.LessTransitive(code, s[0].iata, s[1].iata);
      }
      NoneWithCode(s[1..], code);
    }
    Text.LessIrreflexive(code);
  }

  /**
   * The sort is stable: for every code, the entries holding it keep their
   * relative order.
   */
  lemma {:induction false} SortStable(s: seq<AirportRecord>, code: string)
    ensures WithCode(SortByCode(s), code) == WithCode(s, code)
  {
    if s != [] {
      var init := s[..|s| - 1];
      SortStable(init, code);
      SortSorted(init);
      InsertStable(SortByCode(init), s[|s| - 1], code);
      assert s == init + [s[|s| - 1]];
      WithCodeAppend(init, [s[|s| - 1]], code);
    }
  }

  /** `async_get_airports` as a function of the transport. */
  function GetAirports(fetch: Transport): Result<seq<AirportRecord>, Error>
  {
    match SearchEndpoints(fetch, AirportUrls()).0
    case Found(doc) => Success(SortByCode(Parse(doc)))
    case Aborted(e) => Failure(e)
    case Exhausted => Success([])
  }

  /**
   * The directory holds only valid codes, sorted: a stable permutation of
   * the entries accepted before the first item that raises; an unreachable
   * directory is empty, and an HTTP status other than 404 is raised again;
   * nothing else fails.
   */
  lemma DirectoryShape(fetch: Transport)
    ensures var r := GetAirports(fetch);
      && (r.Success? ==> SortedByCode(r.value) && forall a :: a in r.value ==> ValidCode(a.iata))
      && (r.Failure? ==> r.error.HttpStatus? && r.error.status != 404)
      && (SearchEndpoints(fetch, AirportUrls()).0.Exhausted? ==> r == Success([]))
      && (SearchEndpoints(fetch, AirportUrls()).0.Aborted? ==> r == Failure(SearchEndpoints(fetch, AirportUrls()).0.err))
      && (SearchEndpoints(fetch, AirportUrls()).0.Found? ==>
            var items := AirportItems(SearchEndpoints(fetch, AirportUrls()).0.doc);
            var parsed := if items.None? then [] else Accepts(items.value[..FirstRaise(items.value)]);
            r.Success? && multiset(r.value) == multiset(parsed)
            && forall code :: WithCode(r.value, code) == WithCode(parsed, code))
  {
    SearchOrder(fetch);
    var s := SearchEndpoints(fetch, AirportUrls()).0;
    if s.Found? {
      var parsed := Parse(s.doc);
      SortSorted(parsed);
      forall code
        ensures WithCode(SortByCode(parsed), code) == WithCode(parsed, code)
      {
        SortStable(parsed, code);
      }
      if AirportItems(s.doc).Some? {
        CollectedAreAccepted(AirportItems(s.doc).value);
        CollectUntilRaise(AirportItems(s.doc).value);
      }
      forall a | a in SortByCode(parsed)
        ensures ValidCode(a.iata)
      {
        assert a in multiset(SortByCode(parsed));
      }
    }
  }

  /** The loop over endpoints (api.py:57-75): stops at the first answer or the first non-404 HTTP status. */
  method FetchDirectory(fetch: Transport) returns (s: Search, tried: seq<string>)
    ensures (s, tried) == SearchEndpoints(fetch, AirportUrls())
  {
    var urls := AirportUrls();
    tried := [];
    var i := 0;
    while i < |urls|
      invariant 0 <= i <= |urls| && tried == urls[..i]
      invariant FirstStop(fetch, urls, 0) == FirstStop(fetch, urls, i)
    {
      var url := urls[i];
      tried := tried + [url];
      var fetched := fetch(url, []);
      if !Continues(fetched) {
        assert FirstStop(fetch, urls, i) == i && tried == urls[..i + 1];
      }
      if fetched.Document? {
        return Found(fetched.doc), tried;
      }
      if fetched.err.HttpStatus? && fetched.err.status != 404 {
        return Aborted(fetched.err), tried;
      }
      i := i + 1;
    }
    assert tried == urls;
    s := Exhausted;
  }

  /** The loop over items (api.py:78-98): appends accepted entries, and is left at the first item that raises. */
  method ParseDirectory(doc: Document) returns (airports: seq<AirportRecord>)
    ensures airports == Parse(doc)
  {
    airports := [];
    var items := AirportItems(doc);
    if items.None? {
      return;
    }
    var xs := items.value;
    var j := 0;
    while j < |xs|
      invariant 0 <= j <= |xs|
      invariant airports + Collect(xs[j..]) == Collect(xs)
    {
      assert xs[j..][1..] == xs[j + 1..];
      var step := Read(xs[j]);
      if step.Raises? {
        break;
      }
      if step.Accepted? {
        airports := airports + [step.record];
      }
      j := j + 1;
    }
    assert airports == Collect(xs);
  }

  /**
   * `async_get_airports`: the loop over endpoints, the loop over items,
   * then the sort by code.
   */
  method AsyncGetAirports(fetch: Transport) returns (r: Result<seq<AirportRecord>, Error>, tried: seq<string>)
    ensures r == GetAirports(fetch)
    ensures tried == SearchEndpoints(fetch, AirportUrls()).1
  {
    var search;
    search, tried := FetchDirectory(fetch);
    match search
    case Aborted(e) =>
      r := Failure(e);
    case Exhausted =>
      r := Success([]);
    case Found(doc) =>
      var airports := ParseDirectory(doc);
      r := Success(SortByCode(airports));
  }
}
