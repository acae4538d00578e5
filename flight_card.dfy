/**
 * The Lovelace card (www/community/avinor-flight-card/avinor-flight-card.js):
 * its registration in `window.customCards`, its stub configuration, its
 * configuration check and the table it renders from the sensor's attributes,
 * every flight field passed through the `_e` HTML escaper.
 */
module FlightCard {
  import opened Outcomes
  import Text

  // ---------------------------------------------------------------------
  // `_e`: chained `replace` calls over five characters, `&` first.

  /** `s.replace(/c/g, repl)`. */
  function ReplaceAll(s: string, c: char, repl: string): string
  {
    if s == [] then [] else (if s[0] == c then repl else [s[0]]) + ReplaceAll(s[1..], c, repl)
  }

  /** The replacements in the order `_e` applies them. */
  function ReplaceChain(s: string): string
  {
    ReplaceAll(ReplaceAll(ReplaceAll(ReplaceAll(ReplaceAll(s, '&', "&amp;"), '<', "&lt;"), '>', "&gt;"), '"', "&quot;"), '\'', "&#39;")
  }

  /** `_e(v)`: the empty string for `null` and `undefined` (`None`), otherwise the escaped text. */
  function Escape(v: Option<string>): string
  {
    if v.None? then "" else ReplaceChain(v.value)
  }

  predicate IsSpecial(c: char)
  {
    c == '&' || c == '<' || c == '>' || c == '"' || c == '\''
  }

  /** The entity one character turns into, or the character itself. */
  function EscapeChar(c: char): string
  {
    if c == '&' then "&amp;"
    else if c == '<' then "&lt;"
    else if c == '>' then "&gt;"
    else if c == '"' then "&quot;"
    else if c == '\'' then "&#39;"
    else [c]
  }

  /** Escaping character by character: the reference the chain of replacements is proved against. */
  function EscapeEach(s: string): string
  {
    if s == [] then "" else EscapeChar(s[0]) + EscapeEach(s[1..])
  }

  lemma {:induction false} ReplaceAllConcat(a: string, b: string, c: char, repl: string)
    ensures ReplaceAll(a + b, c, repl) == ReplaceAll(a, c, repl) + ReplaceAll(b, c, repl)
  {
    if a == [] {
      assert a + b == b;
    } else {
      assert (a + b)[0] == a[0] && (a + b)[1..] == a[1..] + b;
      ReplaceAllConcat(a[1..], b, c, repl);
    }
  }

  lemma {:induction false} ReplaceAllAbsent(s: string, c: char, repl: string)
    requires c !in s
    ensures ReplaceAll(s, c, repl) == s
  {
    if s != [] {
      ReplaceAllAbsent(s[1..], c, repl);
    }
  }

  lemma ReplaceChainConcat(a: string, b: string)
    ensures ReplaceChain(a + b) == ReplaceChain(a) + ReplaceChain(b)
  {
    var a1, b1 := ReplaceAll(a, '&', "&amp;"), ReplaceAll(b, '&', "&amp;");
    ReplaceAllConcat(a, b, '&', "&amp;");
    var a2, b2 := ReplaceAll(a1, '<', "&lt;"), ReplaceAll(b1, '<', "&lt;");
    ReplaceAllConcat(a1, b1, '<', "&lt;");
    var a3, b3 := ReplaceAll(a2, '>', "&gt;"), ReplaceAll(b2, '>', "&gt;");
    ReplaceAllConcat(a2, b2, '>', "&gt;");
    var a4, b4 := ReplaceAll(a3, '"', "&quot;"), ReplaceAll(b3, '"', "&quot;");
    ReplaceAllConcat(a3, b3, '"', "&quot;");
    ReplaceAllConcat(a4, b4, '\'', "&#39;");
  }

  /** One replacement over a one-character string. */
  lemma ReplaceOne(c: char, x: char, repl: string)
    ensures ReplaceAll([c], x, repl) == if c == x then repl else [c]
  {
    assert [c][1..] == [];
  }

  /** The chain on one character of each kind. */
  lemma ChainAmp(c: char)
    requires c == '&'
    ensures ReplaceChain([c]) == "&amp;"
  {
    var s1 := ReplaceAll([c], '&', "&amp;");
    ReplaceOne(c, '&', "&amp;");
    assert '<' !in s1 && '>' !in s1 && '"' !in s1 && '\'' !in s1;
    AfterAmp(s1);
  }

  /** Text without the last four characters goes through the replacements after `&` unchanged. */
  lemma AfterAmp(s: string)
    requires '<' !in s && '>' !in s && '"' !in s && '\'' !in s
    ensures ReplaceAll(ReplaceAll(ReplaceAll(ReplaceAll(s, '<', "&lt;"), '>', "&gt;"), '"', "&quot;"), '\'', "&#39;") == s
  {
    ReplaceAllAbsent(s, '<', "&lt;");
    ReplaceAllAbsent(s, '>', "&gt;");
    ReplaceAllAbsent(s, '"', "&quot;");
    ReplaceAllAbsent(s, '\'', "&#39;");
  }

  lemma ChainLt(c: char)
    requires c == '<'
    ensures ReplaceChain([c]) == "&lt;"
  {
    var s1 := ReplaceAll([c], '&', "&amp;");
    ReplaceOne(c, '&', "&amp;");
    var s2 := ReplaceAll(s1, '<', "&lt;");
    ReplaceOne(c, '<', "&lt;");
    var s3 := ReplaceAll(s2, '>', "&gt;");
    ReplaceAllAbsent(s2, '>', "&gt;");
    var s4 := ReplaceAll(s3, '"', "&quot;");
    ReplaceAllAbsent(s3, '"', "&quot;");
    ReplaceAllAbsent(s4, '\'', "&#39;");
  }

  lemma ChainGt(c: char)
    requires c == '>'
    ensures ReplaceChain([c]) == "&gt;"
  {
    var s1 := ReplaceAll([c], '&', "&amp;");
    ReplaceOne(c, '&', "&amp;");
    var s2 := ReplaceAll(s1, '<', "&lt;");
    ReplaceOne(c, '<', "&lt;");
    var s3 := ReplaceAll(s2, '>', "&gt;");
    ReplaceOne(c, '>', "&gt;");
    var s4 := ReplaceAll(s3, '"', "&quot;");
    ReplaceAllAbsent(s3, '"', "&quot;");
    ReplaceAllAbsent(s4, '\'', "&#39;");
  }

  lemma ChainQuot(c: char)
    requires c == '"'
    ensures ReplaceChain([c]) == "&quot;"
  {
    var s1 := ReplaceAll([c], '&', "&amp;");
    ReplaceOne(c, '&', "&amp;");
    var s2 := ReplaceAll(s1, '<', "&lt;");
    ReplaceOne(c, '<', "&lt;");
    var s3 := ReplaceAll(s2, '>', "&gt;");
    ReplaceOne(c, '>', "&gt;");
    var s4 := ReplaceAll(s3, '"', "&quot;");
    ReplaceOne(c, '"', "&quot;");
    ReplaceAllAbsent(s4, '\'', "&#39;");
  }

  lemma ChainApos(c: char)
    requires c == '\''
    ensures ReplaceChain([c]) == "&#39;"
  {
    var s1 := ReplaceAll([c], '&', "&amp;");
    ReplaceOne(c, '&', "&amp;");
    var s2 := ReplaceAll(s1, '<', "&lt;");
    ReplaceOne(c, '<', "&lt;");
    var s3 := ReplaceAll(s2, '>', "&gt;");
    ReplaceOne(c, '>', "&gt;");
    var s4 := ReplaceAll(s3, '"', "&quot;");
    ReplaceOne(c, '"', "&quot;");
    ReplaceOne(c, '\'', "&#39;");
  }

  lemma ChainPlain(c: char)
    requires !IsSpecial(c)
    ensures ReplaceChain([c]) == [c]
  {
    var s1 := ReplaceAll([c], '&', "&amp;");
    ReplaceOne(c, '&', "&amp;");
    var s2 := ReplaceAll(s1, '<', "&lt;");
    ReplaceOne(c, '<', "&lt;");
    var s3 := ReplaceAll(s2, '>', "&gt;");
    ReplaceOne(c, '>', "&gt;");
    var s4 := ReplaceAll(s3, '"', "&quot;");
    ReplaceOne(c, '"', "&quot;");
    ReplaceOne(c, '\'', "&#39;");
  }

  /**
   * On one character the chain yields that character's entity: the
   * replacements before its own leave it alone, and none of the later ones
   * finds its character in the entity.
   */
  lemma ReplaceChainChar(c: char)
    ensures ReplaceChain([c]) == EscapeChar(c)
  {
    if c == '&' {
      ChainAmp(c);
    } else if c == '<' {
      ChainLt(c);
    } else if c == '>' {
      ChainGt(c);
    } else if c == '"' {
      ChainQuot(c);
    } else if c == '\'' {
      ChainApos(c);
    } else {
      ChainPlain(c);
    }
  }

  /**
   * Because `&` is replaced first, no entity introduced by a later replacement
   * is escaped again: the chain escapes each character on its own.
   */
  lemma {:induction false} ChainEscapesEachChar(s: string)
    ensures ReplaceChain(s) == EscapeEach(s)
  {
    if s == [] {
    } else {
      assert s == [s[0]] + s[1..];
      ReplaceChainConcat([s[0]], s[1..]);
      ReplaceChainChar(s[0]);
      ChainEscapesEachChar(s[1..]);
    }
  }

  /** `t` holds one of the five entities at position `i`. */
  predicate EntityAt(t: string, i: nat)
    requires i <= |t|
  {
    var rest := t[i..];
    Text.StartsWith(rest, "&amp;") || Text.StartsWith(rest, "&lt;") || Text.StartsWith(rest, "&gt;")
    || Text.StartsWith(rest, "&quot;") || Text.StartsWith(rest, "&#39;")
  }

  /** No `<`, `>`, `"` or `'`, and every `&` begins one of the five entities. */
  predicate SafeHtml(t: string)
  {
    forall i :: 0 <= i < |t| ==> t[i] != '<' && t[i] != '>' && t[i] != '"' && t[i] != '\''
                                 && (t[i] == '&' ==> EntityAt(t, i))
  }

  lemma EscapeCharSafe(c: char)
    ensures SafeHtml(EscapeChar(c))
  {
    var e := EscapeChar(c);
    if IsSpecial(c) {
      assert e[0..] == e;
    }
  }

  lemma {:induction false} SafeHtmlConcat(a: string, b: string)
    requires SafeHtml(a) && SafeHtml(b)
    ensures SafeHtml(a + b)
  {
    var t := a + b;
    forall i | 0 <= i < |t| && t[i] == '&'
      ensures EntityAt(t, i)
    {
      if i < |a| {
        assert EntityAt(a, i);
        // Every entity ends with `;`, which `a` holds before its end.
        var rest := a[i..];
        assert t[i..] == rest + b;
        if Text.StartsWith(rest, "&amp;") { assert t[i..][..5] == rest[..5]; }
        else if Text.StartsWith(rest, "&lt;") { assert t[i..][..4] == rest[..4]; }
        else if Text.StartsWith(rest, "&gt;") { assert t[i..][..4] == rest[..4]; }
        else if Text.StartsWith(rest, "&quot;") { assert t[i..][..6] == rest[..6]; }
        else { assert t[i..][..5] == rest[..5]; }
      } else {
        assert t[i..] == b[i - |a|..];
        assert EntityAt(b, i - |a|);
      }
    }
  }

  /**
   * The escaped text holds no `<`, `>`, `"` or `'`, and each `&` in it begins
   * one of the five entities.
   */
  lemma {:induction false} EscapeSafe(v: Option<string>)
    ensures SafeHtml(Escape(v))
  {
    if v.Some? {
      ChainEscapesEachChar(v.value);
      EscapeEachSafe(v.value);
    }
  }

  lemma {:induction false} EscapeEachSafe(s: string)
    ensures SafeHtml(EscapeEach(s))
  {
    if s != [] {
      EscapeCharSafe(s[0]);
      EscapeEachSafe(s[1..]);
      SafeHtmlConcat(EscapeChar(s[0]), EscapeEach(s[1..]));
    }
  }

  /** Decoding the five entities, every other character kept as it is. */
  function Unescape(t: string): string
  {
    if t == [] then []
    else if Text.StartsWith(t, "&amp;") then "&" + Unescape(t[5..])
    else if Text.StartsWith(t, "&lt;") then "<" + Unescape(t[4..])
    else if Text.StartsWith(t, "&gt;") then ">" + Unescape(t[4..])
    else if Text.StartsWith(t, "&quot;") then "\"" + Unescape(t[6..])
    else if Text.StartsWith(t, "&#39;") then "'" + Unescape(t[5..])
    else [t[0]] + Unescape(t[1..])
  }

  lemma PrefixKept(e: string, rest: string)
    ensures Text.StartsWith(e + rest, e) && (e + rest)[|e|..] == rest
  {
    assert (e + rest)[..|e|] == e;
  }

  /** A text differing from `p` at position `k` does not start with `p`. */
  lemma DiffersAt(t: string, p: string, k: nat)
    requires k < |p| && k < |t| && t[k] != p[k]
    ensures !Text.StartsWith(t, p)
  {
    if |p| <= |t| {
      assert t[..|p|][k] == t[k];
    }
  }

  lemma UnescapeStep(c: char, rest: string)
    ensures Unescape(EscapeChar(c) + rest) == [c] + Unescape(rest)
  {
    var e := EscapeChar(c);
    var t := e + rest;
    PrefixKept(e, rest);
    if c == '&' {
    } else if c == '<' {
      DiffersAt(t, "&amp;", 1);
    } else if c == '>' {
      DiffersAt(t, "&amp;", 1);
      DiffersAt(t, "&lt;", 1);
    } else if c == '"' {
      DiffersAt(t, "&amp;", 1);
      DiffersAt(t, "&lt;", 1);
      DiffersAt(t, "&gt;", 1);
    } else if c == '\'' {
      DiffersAt(t, "&amp;", 1);
      DiffersAt(t, "&lt;", 1);
      DiffersAt(t, "&gt;", 1);
      DiffersAt(t, "&quot;", 1);
    } else {
      assert t[0] == c && t[1..] == rest;
      DiffersAt(t, "&amp;", 0);
      DiffersAt(t, "&lt;", 0);
      DiffersAt(t, "&gt;", 0);
      DiffersAt(t, "&quot;", 0);
      DiffersAt(t, "&#39;", 0);
    }
  }

  /** Decoding the five entities recovers the text `_e` was given. */
  lemma {:induction false} UnescapeEscape(s: string)
    ensures Unescape(Escape(Some(s))) == s
  {
    ChainEscapesEachChar(s);
    UnescapeEachChar(s);
  }

  lemma {:induction false} UnescapeEachChar(s: string)
    ensures Unescape(EscapeEach(s)) == s
  {
    if s != [] {
      UnescapeStep(s[0], EscapeEach(s[1..]));
      UnescapeEachChar(s[1..]);
      assert s == [s[0]] + s[1..];
    }
  }

  /** Text without any of the five characters comes out of `_e` unchanged. */
  lemma {:induction false} EscapePlain(s: string)
    requires forall i :: 0 <= i < |s| ==> !IsSpecial(s[i])
    ensures Escape(Some(s)) == s
  {
    ChainEscapesEachChar(s);
    EscapeEachPlain(s);
  }

  lemma {:induction false} EscapeEachPlain(s: string)
    requires forall i :: 0 <= i < |s| ==> !IsSpecial(s[i])
    ensures EscapeEach(s) == s
  {
    if s != [] {
      EscapeEachPlain(s[1..]);
      assert s == [s[0]] + s[1..];
    }
  }

  // ---------------------------------------------------------------------
  // Registration in `window.customCards` (avinor-flight-card.js:8-22).

  /** An entry of the card picker's list; only `type` is compared. */
  datatype CardEntry = CardEntry(kind: string, name: string, description: string,
                                 preview: bool, documentationUrl: string)

  const CardType := "avinor-flight-card"

  const AvinorCardEntry := CardEntry(CardType, "Avinor Flight Card",
    "Table of Avinor flights from sensor attributes (custom component).", true,
    "https://github.com/WickedGhost/avinor_flight_data")

  predicate Listed(cards: seq<CardEntry>)
  {
    exists i :: 0 <= i < |cards| && cards[i].kind == CardType
  }

  /** The list after registration: the card's entry appended unless one of its type is there. */
  function Registered(cards: seq<CardEntry>): seq<CardEntry>
  {
    if Listed(cards) then cards else cards + [AvinorCardEntry]
  }

  /** How many entries of the card's type the list holds. */
  function CountListed(cards: seq<CardEntry>): nat
  {
    if cards == [] then 0 else (if cards[0].kind == CardType then 1 else 0) + CountListed(cards[1..])
  }

  lemma {:induction false} CountListedPositive(cards: seq<CardEntry>)
    ensures CountListed(cards) > 0 <==> Listed(cards)
  {
    if cards != [] {
      CountListedPositive(cards[1..]);
      if Listed(cards) && cards[0].kind != CardType {
        var i :| 0 <= i < |cards| && cards[i].kind == CardType;
        assert cards[1..][i - 1].kind == CardType;
      }
      if Listed(cards[1..]) {
        var i :| 0 <= i < |cards[1..]| && cards[1..][i].kind == CardType;
        assert cards[i + 1].kind == CardType;
      }
    }
  }

  lemma {:induction false} CountListedAppend(cards: seq<CardEntry>, e: CardEntry)
    ensures CountListed(cards + [e]) == CountListed(cards) + (if e.kind == CardType then 1 else 0)
  {
    if cards == [] {
      assert cards + [e] == [e];
      assert [e][1..] == [];
    } else {
      assert (cards + [e])[1..] == cards[1..] + [e];
      CountListedAppend(cards[1..], e);
    }
  }

  /** Registering twice is registering once. */
  lemma RegistrationIdempotent(cards: seq<CardEntry>)
    ensures Registered(Registered(cards)) == Registered(cards)
  {
    if !Listed(cards) {
      var r := cards + [AvinorCardEntry];
      assert r[|cards|].kind == CardType;
    }
  }

  /** Registering keeps every existing entry in place, in order. */
  lemma RegistrationKeepsEntries(cards: seq<CardEntry>)
    ensures Registered(cards)[..|cards|] == cards
  {
  }

  /**
   * Registering leaves the list with at least one entry of the card's type
   * and adds one only when there was none.
   */
  lemma RegistrationCount(cards: seq<CardEntry>)
    ensures CountListed(Registered(cards)) == if CountListed(cards) == 0 then 1 else CountListed(cards)
  {
    CountListedPositive(cards);
    if !Listed(cards) {
      CountListedAppend(cards, AvinorCardEntry);
    }
  }

  /** The browser window's `customCards` array, `None` while undefined. */
  class Window {
    var customCards: Option<seq<CardEntry>>

    constructor ()
      ensures customCards.None?
    {
      customCards := None;
    }

    /** The module's registration block: `window.customCards = window.customCards || []`, then push if absent. */
    method RegisterCard()
      modifies this
      ensures customCards == Some(Registered(if old(customCards).Some? then old(customCards).value else []))
    {
      var cards := if customCards.Some? then customCards.value else [];
      var present := false;
      var i := 0;
      while i < |cards|
        invariant 0 <= i <= |cards|
        invariant present <==> Listed(cards[..i])
      {
        assert cards[..i + 1] == cards[..i] + [cards[i]];
        if cards[i].kind == CardType {
          present := true;
        }
        i := i + 1;
      }
      assert cards[..i] == cards;
      if !present {
        cards := cards + [AvinorCardEntry];
      }
      customCards := Some(cards);
    }
  }

  // ---------------------------------------------------------------------
  // Configuration (avinor-flight-card.js:25-55).

  const DefaultTitle := "Avinor Flight Data"
  const SensorPrefix := "sensor.avinor_"

  /** A card configuration; `None` is an absent key. */
  datatype CardConfig = CardConfig(entity: Option<string>, title: Option<string>)

  /** JavaScript truthiness of an optional string. */
  predicate Truthy(v: Option<string>)
  {
    v.Some? && v.value != ""
  }

  /** The index of the first key naming an Avinor sensor, or `|keys|` (`Array.prototype.find`). */
  function FindSensor(keys: seq<string>): (k: nat)
    ensures k <= |keys|
    ensures forall j :: 0 <= j < k ==> !Text.StartsWith(keys[j], SensorPrefix)
    ensures k < |keys| ==> Text.StartsWith(keys[k], SensorPrefix)
  {
    if keys == [] then 0
    else if Text.StartsWith(keys[0], SensorPrefix) then 0
    else 1 + FindSensor(keys[1..])
  }

  /** `getStubConfig(hass)`; `stateIds` are `Object.keys(hass.states)`, `None` without `hass.states`. */
  function GetStubConfig(stateIds: Option<seq<string>>): (c: CardConfig)
    ensures c.title == Some(DefaultTitle)
    ensures c.entity.Some?
    ensures stateIds.None? ==> c.entity == Some("")
    ensures stateIds.Some? ==>
      var keys := stateIds.value;
      && (c.entity == Some("") <==> forall j :: 0 <= j < |keys| ==> !Text.StartsWith(keys[j], SensorPrefix))
      && (c.entity != Some("") ==>
            exists k :: 0 <= k < |keys| && keys[k] == c.entity.value && Text.StartsWith(keys[k], SensorPrefix)
                        && forall j :: 0 <= j < k ==> !Text.StartsWith(keys[j], SensorPrefix))
  {
    if stateIds.Some? && FindSensor(stateIds.value) < |stateIds.value| then
      var k := FindSensor(stateIds.value);
      assert |stateIds.value[k]| >= |SensorPrefix| > 0;
      CardConfig(Some(stateIds.value[k]), Some(DefaultTitle))
    else
      CardConfig(Some(""), Some(DefaultTitle))
  }

  /** The `ha-card` header `setConfig` sets: the title, or the default when the title is falsy. */
  function CardHeader(c: CardConfig): (h: string)
    ensures h != ""
    ensures Truthy(c.title) ==> h == c.title.value
    ensures !Truthy(c.title) ==> h == DefaultTitle
  {
    if Truthy(c.title) then c.title.value else DefaultTitle
  }

  // ---------------------------------------------------------------------
  // Rendering (avinor-flight-card.js:57-111).

  /** One element of the `flights` attribute, as the card reads it. */
  datatype CardFlight = CardFlight(flightId: Option<string>, domInt: Option<string>,
                                   scheduleTime: Option<string>, airport: Option<string>,
                                   checkIn: Option<string>, gate: Option<string>,
                                   statusCode: Option<string>)

  /** The `flights` attribute: an array, or any other value. */
  datatype FlightsAttr = Array(flights: seq<CardFlight>) | NotArray

  /** The attributes of the sensor's state the card reads. */
  datatype Attrs = Attrs(airport: Option<string>, direction: Option<string>,
                         lastUpdate: Option<string>, flights: FlightsAttr)

  /** A state object; `attributes` may be missing. */
  datatype EntityState = EntityState(attributes: Option<Attrs>)

  /** `hass.states`: state objects by entity id. */
  type States = map<string, EntityState>

  /** `v || ''`. */
  function OrEmpty(v: Option<string>): string
  {
    if Truthy(v) then v.value else ""
  }

  /** The flights the table shows: the attribute when it is an array, otherwise none. */
  function ShownFlights(attrs: Attrs): seq<CardFlight>
  {
    if attrs.flights.Array? then attrs.flights.flights else []
  }

  /** The summary line above the table. */
  function SummaryLine(attrs: Attrs): string
  {
    "Airport: " + OrEmpty(attrs.airport) + " \U{2022} Direction: " + OrEmpty(attrs.direction)
    + " \U{2022} Flights: " + Text.Decimal(|ShownFlights(attrs)|) + " \U{2022} Updated: " + OrEmpty(attrs.lastUpdate)
  }

  /**
   * The count after `Flights: ` is written in decimal, without a leading
   * zero, and reads back as the length of the `flights` array, or 0 when
   * `flights` is not an array.
   */
  lemma SummaryCountsFlights(attrs: Attrs)
    ensures exists digits: string ::
      && SummaryLine(attrs) == "Airport: " + OrEmpty(attrs.airport) + " \U{2022} Direction: " + OrEmpty(attrs.direction)
                               + " \U{2022} Flights: " + digits + " \U{2022} Updated: " + OrEmpty(attrs.lastUpdate)
      && |digits| > 0 && (forall i :: 0 <= i < |digits| ==> '0' <= digits[i] <= '9')
      && Text.DigitsValue(digits) == (if attrs.flights.Array? then |attrs.flights.flights| else 0)
      && (digits[0] == '0' ==> Text.DigitsValue(digits) == 0)
  {
    var digits := Text.Decimal(|ShownFlights(attrs)|);
    assert SummaryLine(attrs) == "Airport: " + OrEmpty(attrs.airport) + " \U{2022} Direction: " + OrEmpty(attrs.direction)
                                 + " \U{2022} Flights: " + digits + " \U{2022} Updated: " + OrEmpty(attrs.lastUpdate);
  }

  function Cell(v: Option<string>): string
  {
    "        <td style=\"padding: 8px;\">" + Escape(v) + "</td>\n"
  }

  /** The table row of one flight. */
  function Row(f: CardFlight): string
  {
    "\n      <tr>\n"
    + Cell(f.flightId) + Cell(f.domInt) + Cell(f.scheduleTime) + Cell(f.airport)
    + Cell(f.checkIn) + Cell(f.gate) + Cell(f.statusCode)
    + "      </tr>\n    "
  }

  /** `items.map(render).join('')`. */
  function Join(items: seq<CardFlight>, render: CardFlight -> string): string
  {
    if items == [] then "" else render(items[0]) + Join(items[1..], render)
  }

  lemma {:induction false} JoinConcat(a: seq<CardFlight>, b: seq<CardFlight>, render: CardFlight -> string)
    ensures Join(a + b, render) == Join(a, render) + Join(b, render)
  {
    if a == [] {
      assert a + b == b;
    } else {
      assert (a + b)[0] == a[0] && (a + b)[1..] == a[1..] + b;
      JoinConcat(a[1..], b, render);
    }
  }

  lemma JoinCons(x: CardFlight, rest: seq<CardFlight>, render: CardFlight -> string)
    ensures Join([x] + rest, render) == render(x) + Join(rest, render)
  {
    var t := [x] + rest;
    assert t[0] == x && t[1..] == rest;
  }

  lemma Regroup(a: string, b: string, c: string)
    ensures a + (b + c) == a + b + c
  {
  }

  /** `items.map(render).join('')` holds item `i`'s text between those of the items before and after it. */
  lemma JoinSplit(items: seq<CardFlight>, render: CardFlight -> string, i: nat)
    requires i < |items|
    ensures Join(items, render) == Join(items[..i], render) + render(items[i]) + Join(items[i + 1..], render)
  {
    var before, after := items[..i], items[i + 1..];
    assert items == before + ([items[i]] + after);
    JoinConcat(before, [items[i]] + after, render);
    JoinCons(items[i], after, render);
    Regroup(Join(before, render), render(items[i]), Join(after, render));
  }

  /** The table body: `flights.map(row).join('')`. */
  function Rows(fs: seq<CardFlight>): string
  {
    Join(fs, Row)
  }

  /**
   * The rows are one per flight, in order: flight `i`'s row comes right after
   * the rows of the flights before it and right before those after it.
   */
  lemma RowPerFlight(fs: seq<CardFlight>, i: nat)
    requires i < |fs|
    ensures Rows(fs) == Rows(fs[..i]) + Row(fs[i]) + Rows(fs[i + 1..])
  {
    JoinSplit(fs, Row, i);
  }

  function HeadCell(caption: string): string
  {
    "              <th style=\"text-align:left; padding: 8px; border-bottom: 1px solid var(--divider-color);\">" + caption + "</th>\n"
  }

  /** The markup the content element receives for a state that exists. */
  function Table(summary: string, rows: string): string
  {
    "\n      <div style=\"margin-bottom:8px; font-size: 0.9em; color: var(--secondary-text-color);\">" + summary + "</div>\n"
    + "      <div style=\"overflow:auto;\">\n"
    + "        <table style=\"width:100%; border-collapse: collapse;\">\n"
    + "          <thead>\n"
    + "            <tr>\n"
    + HeadCell("Flight") + HeadCell("Type") + HeadCell("Scheduled") + HeadCell("Airport")
    + HeadCell("Check-in") + HeadCell("Gate") + HeadCell("Status")
    + "            </tr>\n"
    + "          </thead>\n"
    + "          <tbody>\n"
    + "            " + rows + "\n"
    + "          </tbody>\n"
    + "        </table>\n"
    + "      </div>\n"
    + "      <div style=\"margin-top:8px; font-size: 0.8em; color: var(--secondary-text-color);\">\n"
    + "        Flydata fra <a href=\"https://www.avinor.no/\" target=\"_blank\" rel=\"noreferrer\">Avinor</a>\n"
    + "      </div>\n"
    + "    "
  }

  /** `stateObj.attributes || {}`. */
  function AttrsOf(state: EntityState): Attrs
  {
    if state.attributes.Some? then state.attributes.value else Attrs(None, None, None, NotArray)
  }

  /** The markup for a state that exists. */
  function RenderState(state: EntityState): string
  {
    Table(SummaryLine(AttrsOf(state)), Rows(ShownFlights(AttrsOf(state))))
  }

  /** What `set hass` writes into the content element for the configured entity. */
  function Render(entityId: string, states: States): string
  {
    if entityId in states then RenderState(states[entityId])
    else "<div>Entity " + entityId + " not found</div>"
  }

  /**
   * A state without attributes, or whose `flights` is not an array, renders
   * the table with no rows, its summary counting 0 flights.
   */
  lemma RenderWithoutFlights(state: EntityState)
    requires !AttrsOf(state).flights.Array?
    ensures RenderState(state) == Table(SummaryLine(AttrsOf(state)), "")
  {
    NoRows(AttrsOf(state));
  }

  lemma NoRows(attrs: Attrs)
    requires !attrs.flights.Array?
    ensures Rows(ShownFlights(attrs)) == ""
  {
  }

  /** The card element: its configuration, its content element's markup and the `ha-card`s appended to it. */
  class AvinorFlightCard {
    var config: Option<CardConfig>
    var content: Option<string>
    var cardHeaders: seq<string>
    var hass: Option<States>

    /** A configured card has a truthy entity and a content element. */
    ghost predicate Valid()
      reads this
    {
      config.Some? ==> Truthy(config.value.entity) && content.Some?
    }

    constructor ()
      ensures Valid()
      ensures config.None? && content.None? && cardHeaders == [] && hass.None?
    {
      config, content, cardHeaders, hass := None, None, [], None;
    }

    /**
     * `setConfig`: throws "Please define entity" when the entity is falsy;
     * otherwise keeps the configuration, makes a fresh empty content element
     * and appends one more `ha-card` with its header.
     */
    method SetConfig(c: CardConfig) returns (thrown: Option<string>)
      requires Valid()
      modifies this
      ensures Valid()
      ensures !Truthy(c.entity) ==> thrown == Some("Please define entity") && unchanged(this)
      ensures Truthy(c.entity) ==>
        && thrown.None?
        && config == Some(c) && content == Some("")
        && cardHeaders == old(cardHeaders) + [CardHeader(c)]
        && hass == old(hass)
    {
      if !Truthy(c.entity) {
        return Some("Please define entity");
      }
      config := Some(c);
      content := Some("");
      cardHeaders := cardHeaders + [CardHeader(c)];
      thrown := None;
    }

    /** `set hass`: remembers the states and, once configured, renders the configured entity. */
    method SetHass(states: States)
      requires Valid()
      modifies this
      ensures Valid()
      ensures hass == Some(states) && config == old(config) && cardHeaders == old(cardHeaders)
      ensures config.None? ==> content == old(content)
      ensures config.Some? ==> content == Some(Render(config.value.entity.value, states))
    {
      hass := Some(states);
      if config.None? {
        return;
      }
      content := Some(Render(config.value.entity.value, states));
    }
  }
}
