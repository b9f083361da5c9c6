/**
 * Display mode (`main` and the non-widget content of `addConnections`): the
 * saved station pair is shown in both directions, each direction under a
 * "{from} - {to}" header with its first three connections.
 *
 * The journey API is a parameter `api` from the query string of a search to
 * the `connections` it answers; `enc` is `encodeURIComponent`; `firstDate`
 * and `secondDate` are the ISO texts of "now" at each of the two searches.
 */
module Dashboard {
  import opened StationPicker
  import opened QueryString
  import opened Itinerary

  /** What one direction contributes to the widget. */
  datatype Section = Section(header: string, connections: seq<DisplayConnection>)

  /** The header `${departureStation.name} - ${arrivalStation.name}`. */
  function Header(departure: Station, arrival: Station): (h: string)
    ensures |h| == |departure.name| + 3 + |arrival.name|
    ensures h[..|departure.name|] == departure.name
    ensures h[|departure.name|..|departure.name| + 3] == " - "
    ensures h[|departure.name| + 3..] == arrival.name
  {
    departure.name + " - " + arrival.name
  }

  /** The query string `getConnections` sends for a search from `origin` to `destination`. */
  function SearchQuery(origin: Station, destination: Station, date: string, enc: string -> string): string {
    Query(ConnectionSearch(origin.nameSlug, destination.nameSlug, date), enc)
  }

  /** The section shown for one direction. */
  function DirectionSection(departure: Station, arrival: Station, date: string,
                            enc: string -> string, api: string -> seq<Connection>): Section
  {
    Section(Header(departure, arrival), Format(api(SearchQuery(departure, arrival, date, enc))))
  }

  /** The two sections of the widget: the saved direction, then the reverse one. */
  function Sections(pref: SelectionPreference, firstDate: string, secondDate: string,
                    enc: string -> string, api: string -> seq<Connection>): seq<Section>
  {
    [DirectionSection(pref.departureStation, pref.arrivalStation, firstDate, enc, api),
     DirectionSection(pref.arrivalStation, pref.departureStation, secondDate, enc, api)]
  }

  /** `addConnections`: search, keep the first three connections, format each one. */
  method AddConnections(departure: Station, arrival: Station, date: string,
                        enc: string -> string, api: string -> seq<Connection>)
    returns (section: Section)
    ensures section == DirectionSection(departure, arrival, date, enc, api)
  {
    var params := BuildURLSearchParams(ConnectionSearch(departure.nameSlug, arrival.nameSlug, date), enc);
    var connections := Shown(api(params));
    var header := departure.name + " - " + arrival.name;
    var shown: seq<DisplayConnection> := [];
    for k := 0 to |connections|
      invariant |shown| == k
      invariant forall j :: 0 <= j < k ==> shown[j] == FormatConnection(connections[j])
    {
      var connection := connections[k];
      var row := RenderLegs(connection.trains);
      shown := shown + [DisplayConnection(row, ChangeText(connection.changes), DurationText(connection.travelTime))];
    }
    section := Section(header, shown);
  }

  /** `main`: the saved direction first, then the same stations swapped. */
  method ShowWidget(pref: SelectionPreference, firstDate: string, secondDate: string,
                   enc: string -> string, api: string -> seq<Connection>)
    returns (sections: seq<Section>)
    ensures sections == Sections(pref, firstDate, secondDate, enc, api)
  {
    var forward := AddConnections(pref.departureStation, pref.arrivalStation, firstDate, enc, api);
    var backward := AddConnections(pref.arrivalStation, pref.departureStation, secondDate, enc, api);
    sections := [forward, backward];
  }

  /** Each direction shows at most three connections: exactly the first three the API answered, in order. */
  lemma SectionShowsFirstConnections(departure: Station, arrival: Station, date: string,
                                     enc: string -> string, api: string -> seq<Connection>)
    ensures var s := DirectionSection(departure, arrival, date, enc, api);
      var answered := api(SearchQuery(departure, arrival, date, enc));
      |s.connections| == (if |answered| < MaxConnections then |answered| else MaxConnections) &&
      forall i :: 0 <= i < |s.connections| ==> s.connections[i] == FormatConnection(answered[i])
  {
  }

  /**
   * The second section searches from the arrival station to the departure
   * station: with an encoder that `dec` inverts and that emits neither "&"
   * nor "=", the two queries carry the slugs in swapped order.
   */
  lemma SecondSectionIsReversed(pref: SelectionPreference, firstDate: string, secondDate: string,
                                enc: string -> string, dec: string -> string)
    requires forall s :: '&' !in enc(s) && '=' !in enc(s)
    requires forall s :: dec(enc(s)) == s
    ensures var d, a := pref.departureStation, pref.arrivalStation;
      var forward := Decode(SearchQuery(d, a, firstDate, enc), dec);
      var backward := Decode(SearchQuery(a, d, secondDate, enc), dec);
      |forward| == 3 && |backward| == 3 &&
      forward[0].1 == backward[1].1 == d.nameSlug &&
      forward[1].1 == backward[0].1 == a.nameSlug
  {
    var d, a := pref.departureStation, pref.arrivalStation;
    ConnectionSearchRoundTrip(d.nameSlug, a.nameSlug, firstDate, enc, dec);
    ConnectionSearchRoundTrip(a.nameSlug, d.nameSlug, secondDate, enc, dec);
  }

  /** Swapping the saved stations swaps the two sections (given the same answers and dates). */
  lemma SwapReversesSections(pref: SelectionPreference, date: string,
                             enc: string -> string, api: string -> seq<Connection>)
    ensures var swapped := SelectionPreference(pref.arrivalStation, pref.departureStation);
      var s, t := Sections(pref, date, date, enc, api), Sections(swapped, date, date, enc, api);
      t[0] == s[1] && t[1] == s[0]
  {
  }
}
