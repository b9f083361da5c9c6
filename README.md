# koleo-widget, modelled in Dafny

`koleo-widget.js` is a Scriptable home-screen widget for the Polish rail
journey planner KOLEO. It has two modes:

- In configuration mode it asks for a departure station and an arrival
  station, then saves the pair. For each station it narrows the station
  directory by the typed text and offers the first five matches.
- In display mode it reads the saved pair and searches the journey API in
  both directions. For each direction it shows a "{from} - {to}" header
  and the first three connections. Each connection shows one carrier badge
  and a departure and arrival time per train, change connectors between
  trains, and a details line with the change count and the travel time.

This project models the deterministic part of the script and proves what
it promises. Every piece of the model is a module in its own file:

- `wrappers.dfy`: `Option`, which stands for the script's `null` and
  `undefined`.
- `decimal.dfy`: decimal text of numbers, as a template literal writes them
  (`${n}`, below 10^21), and two-digit zero padding.
- `carriers.dfy`: the `brandNames` and `brandColors` tables, and lookups
  that return `Option`.
- `time_text.dfy`: `toTimeString` and `formatTime`.
- `query_string.dfy`: `buildURLSearchParams`. The method is an imperative
  loop, proved against a recursive specification. A reference decoder shows
  the parameters can be read back.
- `station_picker.dfy`: the filter and slice of `askForStation`, mapping the
  alert's answer back to a station, and the early-return control flow of
  `configure`.
- `itinerary.dfy`: the content of one connection, made of a row of legs and
  change connectors, the change text and the duration text, and the
  first-three cut. `RenderLegs` is the indexed `for` loop of
  `addConnections`, proved against the recursive `LegRow`.
- `dashboard.dfy`: `addConnections`, which searches, cuts and formats one
  direction, and `main`, which shows both directions (here `ShowWidget`).
- `scenarios.dfy`: worked instances on a two-station directory with Polish
  names.

The user's input and the outside world are parameters:

- the text typed into the alert and the index of the chosen action;
- `lower`, the per-character lowercasing of `toLowerCase`;
- `enc`, standing for `encodeURIComponent` (a percent-encoder in the style
  of section 2.1 of RFC 3986);
- `api`, from a query string to the `connections` it is answered with;
- the ISO date text of "now";
- the local wall-clock reading of each departure and arrival.

## Model

| member | source | states |
|---|---|---|
| Decimal.NatText | koleo-widget.js:150 | the plain decimal spelling of a non-negative count (what `${n}` writes below 10^21) is a non-empty run of digits with no leading zero, one digit exactly below ten |
| Decimal.ParseNatText | koleo-widget.js:150 | reading `${n}` back as a decimal number gives `n` |
| Decimal.NatTextInjective | koleo-widget.js:154 | distinct numbers print differently, so the "{travel_time} min" text determines the minutes |
| Decimal.Pad2 | koleo-widget.js:91 | a value below 100 prints as exactly two digits, tens then units |
| Carriers.Label | koleo-widget.js:130 | `brandNames[id]` is defined exactly for the ids in the table, and is `undefined` (None) for any other id |
| Carriers.Color | koleo-widget.js:127 | `brandColors[id]` is defined exactly for the ids in the table, and is `undefined` (None) otherwise |
| Carriers.ColorsAreHex | koleo-widget.js:11 | every color in the table is "#" followed by six hex digits |
| Carriers.LookupDefinedIffKnown | koleo-widget.js:10-11 | a brand has a label exactly when it is one of the 35 registered ids, and a color exactly then too |
| Carriers.TablesShareKeys | koleo-widget.js:10-11 | both tables have the same key set, the registered ids |
| Carriers.ThirtyFiveKnownBrands | koleo-widget.js:10-11 | there are 35 distinct registered ids |
| Carriers.ThirtyFiveEntries | koleo-widget.js:10-11 | each table holds 35 entries |
| Carriers.IncreasingCardinality | koleo-widget.js:10-11 | a strictly increasing list of ids has as many distinct ids as entries; used to count the table keys |
| TimeText.TimeString | koleo-widget.js:91 | `toTimeString()` is "HH:MM:SS " followed by the zone designation, 9 characters plus the zone |
| TimeText.FormatTimeIsTimeStringPrefix | koleo-widget.js:91 | `formatTime` is the first five characters of `toTimeString()` |
| TimeText.FormatTimeShowsHourAndMinute | koleo-widget.js:90-91 | the result has the shape "HH:MM" with zero-padded digits and reads back as exactly the local hour and minute |
| TimeText.FormatTimeKeepsHourAndMinute | koleo-widget.js:90-91 | two instants give the same text exactly when their local hour and minute agree, so seconds and zone are dropped |
| TimeText.FormatTimeExample | koleo-widget.js:90-91 | 07:05:32 in the summer zone shows as "07:05" |
| QueryString.QueryAppend | koleo-widget.js:17 | appending a parameter appends `enc(k)=enc(v)&` to the query string |
| QueryString.BuildURLSearchParams | koleo-widget.js:13-19 | the accumulator loop returns the in-order concatenation of `enc(key) "=" enc(value) "&"` over the parameters |
| QueryString.QueryShape | koleo-widget.js:13-19 | the query string is empty exactly when there are no parameters, and otherwise its last character is "&" |
| QueryString.OneAmpersandPerParameter | koleo-widget.js:17 | with an encoder that never emits "&", the query string holds exactly one "&" per parameter |
| QueryString.IndexOf | koleo-widget.js:17 | (reference decoder) the position of the first occurrence of a character, or the length when there is none |
| QueryString.QueryRoundTrip | koleo-widget.js:13-19 | with an encoder that emits neither "&" nor "=" and a decoder that inverts it, splitting the query string at "&" and "=" gives back the parameters in order |
| QueryString.ConnectionSearch | koleo-widget.js:32-36 | a search sends three parameters: start station, end station and date |
| QueryString.ConnectionSearchRoundTrip | koleo-widget.js:32-36 | the search query carries origin, destination and date, recoverable in that order |
| StationPicker.Lower | koleo-widget.js:54 | `toLowerCase` keeps the length and lowercases each character |
| StationPicker.IncludesInfix | koleo-widget.js:54 | `includes` holds whenever the text occurs inside the name |
| StationPicker.IncludesIffOccurs | koleo-widget.js:54 | `includes` holds exactly when the text occurs at some position of the name |
| StationPicker.Filter | koleo-widget.js:54 | each station kept by `filter` is from the directory and its lowercased name includes the lowercased text; no more stations than the directory |
| StationPicker.FilterAppend | koleo-widget.js:54 | filtering two directory parts one after the other is filtering their concatenation, so directory order is kept |
| StationPicker.FilterComplete | koleo-widget.js:54 | every matching station survives the filter |
| StationPicker.MatchPosition | koleo-widget.js:54 | the k-th survivor is the directory station with exactly k matches before it |
| StationPicker.Candidates | koleo-widget.js:54 | at most five stations are offered, each from the directory and matching the text |
| StationPicker.EarlyMatchIsOffered | koleo-widget.js:54 | a matching station with fewer than five matches before it is offered, at the position given by that count |
| StationPicker.OfferedIsEarlyMatch | koleo-widget.js:54 | each offered station at position k is a matching directory station with exactly k matches before it |
| StationPicker.CandidateCount | koleo-widget.js:54 | the number offered is min(5, number of matches) |
| StationPicker.LaterStationsIgnored | koleo-widget.js:54 | once five stations match, stations further down the directory never affect the offer |
| StationPicker.CaseInsensitive | koleo-widget.js:54 | texts that lowercase alike offer the same stations |
| StationPicker.FilterCaseInsensitive | koleo-widget.js:54 | texts that lowercase alike keep the same stations |
| StationPicker.Pick | koleo-widget.js:65-69 | the answer -1 gives `null` and only it does; any other answer gives `candidates[choice]`, the offered station at that index |
| StationPicker.AskForStation | koleo-widget.js:54-69 | the result is `null` exactly on cancel, and otherwise the offered station at the chosen index (`filteredStations[result]`), a directory station whose name matches the text |
| StationPicker.Configure | koleo-widget.js:75-87 | the second prompt is shown only when the first is not cancelled; a record is written exactly when neither prompt is cancelled, and it holds the two chosen stations |
| Itinerary.FormatLegs | koleo-widget.js:125-138 | one display leg per train |
| Itinerary.FormatLegsAt | koleo-widget.js:125-138 | leg i shows the badge label, badge color, departure time and arrival time of train i |
| Itinerary.RenderLegs | koleo-widget.js:125-145 | the indexed loop emits each train's leg followed by a change connector unless it is the last train, which is the row `LegRow` |
| Itinerary.RowHead | koleo-widget.js:125-144 | a row starts with its first leg, then a connector if more legs follow, then the row of the remaining legs |
| Itinerary.RowStep | koleo-widget.js:125-144 | the loop step: after i legs, emitting leg i and its optional connector leaves the rest of the row to be emitted |
| Itinerary.RowPositions | koleo-widget.js:125-144 | a row of k >= 1 legs has 2k-1 items: leg i at position 2i, and a connector after every leg but the last |
| Itinerary.ChangesBetweenLegs | koleo-widget.js:140-144 | a connection of k >= 1 trains shows exactly k-1 change connectors |
| Itinerary.LegsOfCons | koleo-widget.js:125-144 | the legs of a row are its first item's leg, if it is one, followed by the legs of the rest |
| Itinerary.LegsInOrder | koleo-widget.js:125-144 | the row shows every train's leg exactly once, in train order |
| Itinerary.NumberThenSplits | koleo-widget.js:150 | a number's text followed by a suffix splits back into the digits and the suffix |
| Itinerary.ChangeTextRoundTrip | koleo-widget.js:150 | the details text ("direct train", "1 change", "{n} changes") determines the change count |
| Itinerary.DurationTextRoundTrip | koleo-widget.js:154 | the text "{travel_time} min" determines the travel time |
| Itinerary.ChangeTextPlural | koleo-widget.js:150 | the text ends in " changes" exactly when there are two or more changes |
| Itinerary.ConnectorsMatchChangeText | koleo-widget.js:140-150 | when a connection's change count is its train count minus one, the details line reads back as the number of connectors in the row |
| Itinerary.Shown | koleo-widget.js:113 | `slice(0, 3)` keeps a prefix of min(3, n) connections |
| Itinerary.FormatAll | koleo-widget.js:119 | `forEach` formats every kept connection, in order |
| Itinerary.Format | koleo-widget.js:113-119 | exactly min(3, n) connections are shown, the i-th one being the i-th connection answered |
| Itinerary.LaterConnectionsIgnored | koleo-widget.js:113 | connections after the third never affect what is shown |
| Dashboard.Header | koleo-widget.js:115 | the header is the departure name, " - ", then the arrival name |
| Dashboard.AddConnections | koleo-widget.js:112-163 | the method builds the parameters, cuts the answer to three connections and formats each with `RenderLegs`; the result equals the pure `DirectionSection` |
| Dashboard.ShowWidget | koleo-widget.js:173-174 | `main` shows the saved direction first, then the same stations swapped |
| Dashboard.SectionShowsFirstConnections | koleo-widget.js:113-119 | each direction shows min(3, n) connections, the i-th being the i-th one the API answered |
| Dashboard.SecondSectionIsReversed | koleo-widget.js:173-174 | the second search sends the arrival slug as its start station and the departure slug as its end station |
| Dashboard.SwapReversesSections | koleo-widget.js:173-174 | saving the stations the other way round swaps the two sections |
| Scenarios.CharAbsent | koleo-widget.js:54 | a name lacking some character of the text does not include the text |
| Scenarios.WarszawaLowered | koleo-widget.js:54 | with Polish lowercasing, "Warszawa Centralna" lowercases to "warszawa centralna" |
| Scenarios.KrakowLowered | koleo-widget.js:54 | with Polish lowercasing, "Kraków Główny" lowercases to "kraków główny" |
| Scenarios.WarszMatchesWarszawaOnly | koleo-widget.js:54 | "warsz" matches Warszawa Centralna and not Kraków Główny |
| Scenarios.WarszPicksWarszawa | koleo-widget.js:54 | typing "warsz" offers Warszawa Centralna alone |
| Scenarios.KrakMatchesKrakowOnly | koleo-widget.js:54 | "Krak" matches Kraków Główny, ignoring case, and not Warszawa Centralna |
| Scenarios.KrakPicksKrakow | koleo-widget.js:54-69 | typing "Krak" offers Kraków Główny alone, and choosing action 0 picks it |
| Scenarios.XyzMatchesNothing | koleo-widget.js:54 | "xyz123" matches neither station |
| Scenarios.NoMatchOffersNothing | koleo-widget.js:54 | a text matching no station offers an empty, cancel-only choice |
| Scenarios.TwoTrainConnection | koleo-widget.js:125-150 | two trains with one change show leg, connector, leg and "1 change" |

## Left out

- HTTP requests and JSON decoding (`getStations`, `getConnections`' request, `loadJSON`) are foreign network calls. The station directory is an input, and the journey API is the parameter `api`.
- The alert dialogs (`Alert`, `present`, `textFieldValue`) are user interface. The typed text and the returned action index are inputs.
- File persistence (`FileManager`, `writeString`, `readString`, `JSON.stringify`, `JSON.parse`) is I/O. `Configure` returns the record it would write, and `ShowWidget` takes the saved record as input.
- Widget rendering is user-interface library calls, so it is not modelled. This covers `ListWidget`, stacks, `SFSymbol`, arrows, fonts, padding, spacers, opacity, the separator line and the arrow colors. The model keeps what the widget shows: the header, badge texts and colors, clock texts, connectors and the details line.
- The clock and the time zone are not modelled. `new Date().toISOString()` is the date parameter of each search, and the two searches get separate date values. The local wall-clock reading of each departure and arrival is an input (`LocalTime`).
- `encodeURIComponent` is kept abstract as `enc`. The `for...in` key order of the parameter object is an explicit sequence, in the order the object literal lists the keys.
- The selection of the mode from `settings.dev`, `config.runsInApp` and `config.runsInWidget` is environment plumbing. Only the two modes are modelled.
- `Script.setWidget`, `presentLarge` and `Script.complete` are user-interface calls, so they are not modelled.
- StationPicker.Lower: lowercasing is a per-character function. JavaScript's `toLowerCase` also has a few mappings that change length (such as 'İ'); those are not modelled.
- StationPicker.Pick, StationPicker.AskForStation, StationPicker.Configure: these require the answer to be -1 or the index of an offered action. `Alert.present` returns nothing else. The `undefined` that `filteredStations[result]` would give for any other index is not modelled.
- Carriers.Label, Carriers.Color: the tables are keyed by the number whose decimal text is the property name, which is how a numeric `brand_id` is looked up. A `brand_id` that arrives as a string other than a canonical decimal text is not modelled.
- Carriers.Label, Carriers.Color: an unknown id yields `None`, as the script's `undefined` does. The script then passes `undefined` to `new Color` and `addText`; the model records that value instead of rendering it. A stricter design that rejects a missing carrier with an error would differ from the script, which does not reject it.
- Decimal.NatText: this is the plain decimal spelling. It equals JavaScript's `${n}` only for integers below 10^21, where JavaScript switches to exponent form ("1e+21"). Integers above 2^53 are not even exact JavaScript numbers. Neither limit is modelled, because change counts and travel minutes stay far below both.
- Itinerary.ChangeTextRoundTrip, Itinerary.DurationTextRoundTrip: `changes` and `travel_time` are modelled as non-negative integers. Negative or fractional numbers from the API are not modelled.
- Itinerary.ConnectorsMatchChangeText: the script never checks that `changes` equals the number of trains minus one. The link between the connectors and the details text is proved only for connections where it holds (`WellFormed`).
- Dashboard.SectionShowsFirstConnections: a failed search ends the script's `main` with a rejected promise. Because the network is left out, the model has no failed search.
