/**
 * The itinerary formatter: what `addConnections` puts on the widget for each
 * connection, stated without the widget. A connection's row shows, per
 * train, a carrier badge (label and color) and its departure and arrival
 * clock texts; a change connector separates consecutive trains. Below the
 * row come the change-count text and the duration text.
 */
module Itinerary {
  import opened Wrappers
  import opened Decimal
  import opened Carriers
  import opened TimeText

  /** One train of a connection (`connection.trains[i]`). */
  datatype Train = Train(brandId: BrandId, departure: LocalTime, arrival: LocalTime)

  /** One connection of the search result. */
  datatype Connection = Connection(trains: seq<Train>, changes: nat, travelTime: nat)

  /** A journey in which every change joins two consecutive trains. */
  predicate WellFormed(c: Connection) {
    |c.trains| >= 1 && c.changes == |c.trains| - 1
  }

  /** The badge and clock texts shown for one train; `None` is an `undefined` label or color. */
  datatype DisplayLeg = DisplayLeg(badgeText: Option<string>, badgeColor: Option<string>,
                                   departureText: string, arrivalText: string)

  /** An element of a connection's row: a leg, or the change connector between two legs. */
  datatype RowItem<L> = LegItem(leg: L) | ChangeItem

  datatype DisplayConnection = DisplayConnection(row: seq<RowItem<DisplayLeg>>, changeText: string, durationText: string)

  /** At most this many connections are shown per direction (`slice(0, 3)`). */
  const MaxConnections := 3

  function FormatLeg(t: Train): DisplayLeg {
    DisplayLeg(Label(t.brandId), Color(t.brandId), FormatTime(t.departure), FormatTime(t.arrival))
  }

  /** The display legs of a connection's trains, in train order. */
  function FormatLegs(trains: seq<Train>): (legs: seq<DisplayLeg>)
    ensures |legs| == |trains|
  {
    if trains == [] then [] else [FormatLeg(trains[0])] + FormatLegs(trains[1..])
  }

  /** Leg `i` of the display is train `i` of the connection. */
  lemma {:induction false} FormatLegsAt(trains: seq<Train>, i: nat)
    requires i < |trains|
    ensures FormatLegs(trains)[i] == FormatLeg(trains[i])
  {
    if i > 0 {
      FormatLegsAt(trains[1..], i - 1);
    }
  }

  /** The row of a connection: each leg, followed by a change connector unless it is the last. */
  function Row<L>(legs: seq<L>): seq<RowItem<L>>
    decreases |legs|
  {
    if legs == [] then []
    else if |legs| == 1 then [LegItem(legs[0])]
    else [LegItem(legs[0]), ChangeItem] + Row(legs[1..])
  }

  function LegRow(trains: seq<Train>): seq<RowItem<DisplayLeg>> {
    Row(FormatLegs(trains))
  }

  /** The items contributed by leg `i`: the leg, then a change connector unless it is the last. */
  function StepItems<L>(legs: seq<L>, i: nat): seq<RowItem<L>>
    requires i < |legs|
  {
    [LegItem(legs[i])] + (if i < |legs| - 1 then [ChangeItem] else [])
  }

  /** `row` is what the loop has emitted after the legs before `i`: the row of all legs is `row` followed by the row of the rest. */
  ghost predicate RowSoFar<L>(legs: seq<L>, i: nat, row: seq<RowItem<L>>)
    requires i <= |legs|
  {
    row + Row(legs[i..]) == Row(legs)
  }

  /** Appending the items of leg `i` to the row of the legs before it gives the row of the legs up to `i`. */
  lemma RowStep<L>(legs: seq<L>, i: nat, before: seq<RowItem<L>>)
    requires i < |legs|
    requires RowSoFar(legs, i, before)
    ensures RowSoFar(legs, i + 1, before + [LegItem(legs[i])] + (if i < |legs| - 1 then [ChangeItem] else []))
  {
    RowHead(legs[i..]);
    assert legs[i..][1..] == legs[i + 1..];
  }

  /** The row of non-empty legs starts with the items of the first leg. */
  lemma RowHead<L>(legs: seq<L>)
    requires legs != []
    ensures Row(legs) == StepItems(legs, 0) + Row(legs[1..])
  {
    if |legs| == 1 {
      assert legs[1..] == [];
    }
  }

  /** The indexed `for` loop of `addConnections`: each train, then a change connector unless it is the last. */
  method RenderLegs(trains: seq<Train>) returns (row: seq<RowItem<DisplayLeg>>)
    ensures row == LegRow(trains)
  {
    row := [];
    var n := |trains|;
    ghost var legs := FormatLegs(trains);
    for i := 0 to n
      invariant RowSoFar(legs, i, row)
    {
      var leg := FormatLeg(trains[i]);
      FormatLegsAt(trains, i);
      RowStep(legs, i, row);
      row := row + [LegItem(leg)];
      if i != n - 1 {
        row := row + [ChangeItem];
      }
    }
    assert legs[n..] == [];
  }

  /** A row of `k >= 1` legs has `2k - 1` items: leg `i` at position `2i`, a change connector after every leg but the last. */
  lemma {:induction false} RowPositions<L>(legs: seq<L>)
    ensures |Row(legs)| == if legs == [] then 0 else 2 * |legs| - 1
    ensures forall i :: 0 <= i < |legs| ==> Row(legs)[2 * i] == LegItem(legs[i])
    ensures forall i :: 0 <= i < |legs| - 1 ==> Row(legs)[2 * i + 1] == ChangeItem
    decreases |legs|
  {
    if |legs| >= 2 {
      var r, r' := Row(legs), Row(legs[1..]);
      RowPositions(legs[1..]);
      forall i | 1 <= i < |legs| ensures r[2 * i] == LegItem(legs[i]) {
        assert r[2 * i] == r'[2 * (i - 1)];
      }
      forall i | 1 <= i < |legs| - 1 ensures r[2 * i + 1] == ChangeItem {
        assert r[2 * i + 1] == r'[2 * (i - 1) + 1];
      }
    }
  }

  /** Number of change connectors in a row. */
  function ChangeCount<L>(row: seq<RowItem<L>>): nat {
    if row == [] then 0 else (if row[0].ChangeItem? then 1 else 0) + ChangeCount(row[1..])
  }

  /** The legs shown in a row, in row order. */
  function LegsOf<L>(row: seq<RowItem<L>>): seq<L> {
    if row == [] then [] else (if row[0].LegItem? then [row[0].leg] else []) + LegsOf(row[1..])
  }

  /** A row of `k >= 1` legs holds exactly `k - 1` change connectors: one between each two consecutive legs. */
  lemma {:induction false} ChangesBetweenLegs<L>(legs: seq<L>)
    ensures ChangeCount(Row(legs)) == if legs == [] then 0 else |legs| - 1
    decreases |legs|
  {
    if |legs| >= 2 {
      var r := Row(legs);
      assert r[1..][1..] == Row(legs[1..]);
      ChangesBetweenLegs(legs[1..]);
    }
  }

  lemma LegsOfCons<L>(x: RowItem<L>, row: seq<RowItem<L>>)
    ensures LegsOf([x] + row) == (if x.LegItem? then [x.leg] else []) + LegsOf(row)
  {
    assert ([x] + row)[1..] == row;
  }

  /** The row shows every leg once, in order. */
  lemma {:induction false} LegsInOrder<L>(legs: seq<L>)
    ensures LegsOf(Row(legs)) == legs
    decreases |legs|
  {
    if |legs| == 1 {
      LegsOfCons(LegItem(legs[0]), []);
    } else if |legs| >= 2 {
      var rest := Row(legs[1..]);
      LegsInOrder(legs[1..]);
      LegsOfCons(ChangeItem, rest);
      LegsOfCons(LegItem(legs[0]), [ChangeItem] + rest);
      assert Row(legs) == [LegItem(legs[0])] + ([ChangeItem] + rest);
      assert legs == [legs[0]] + legs[1..];
    }
  }

  /** The details line's left text: "direct train", "1 change", "{n} changes". */
  function ChangeText(changes: nat): string {
    if changes == 0 then "direct train"
    else if changes == 1 then "1 change"
    else NatText(changes) + " changes"
  }

  /** The details line's right text: "{travel_time} min". */
  function DurationText(minutes: nat): string {
    NatText(minutes) + " min"
  }

  /** `text` is `prefix` followed by `suffix`, with `prefix` a non-empty digit string. */
  predicate NumberThen(text: string, suffix: string) {
    |text| > |suffix| && text[|text| - |suffix|..] == suffix && AllDigits(text[..|text| - |suffix|])
  }

  /** Reads the number of changes back from a change text. */
  function ReadChangeText(text: string): Option<nat> {
    if text == "direct train" then Some(0)
    else if text == "1 change" then Some(1)
    else if NumberThen(text, " changes") then Some(ParseNat(text[..|text| - 8]))
    else None
  }

  /** Reads the number of minutes back from a duration text. */
  function ReadDurationText(text: string): Option<nat> {
    if NumberThen(text, " min") then Some(ParseNat(text[..|text| - 4])) else None
  }

  lemma NumberThenSplits(n: nat, suffix: string)
    ensures NumberThen(NatText(n) + suffix, suffix)
    ensures var t := NatText(n) + suffix; t[..|t| - |suffix|] == NatText(n)
  {
    var t := NatText(n) + suffix;
    assert t[|t| - |suffix|..] == suffix;
    assert t[..|t| - |suffix|] == NatText(n);
  }

  /** The change text determines the number of changes. */
  lemma ChangeTextRoundTrip(changes: nat)
    ensures ReadChangeText(ChangeText(changes)) == Some(changes)
  {
    if changes >= 2 {
      var t := ChangeText(changes);
      NumberThenSplits(changes, " changes");
      ParseNatText(changes);
      assert |NatText(changes)| >= 1 && IsDigit(t[0]);
      assert t != "direct train" && t != "1 change" by {
        if |NatText(changes)| == 1 {
          assert t[0] == NatText(changes)[0];
          assert t[0] != '1' by { assert ParseNat(NatText(changes)) == DigitValue(t[0]); }
        } else {
          assert t[1] == NatText(changes)[1];
        }
      }
    }
  }

  /** The duration text determines the travel time. */
  lemma DurationTextRoundTrip(minutes: nat)
    ensures ReadDurationText(DurationText(minutes)) == Some(minutes)
  {
    NumberThenSplits(minutes, " min");
    ParseNatText(minutes);
  }

  /** The plural form appears exactly from two changes on. */
  lemma ChangeTextPlural(changes: nat)
    ensures var t := ChangeText(changes);
      (|t| > 8 && t[|t| - 8..] == " changes") <==> changes >= 2
  {
    var t := ChangeText(changes);
    if changes >= 2 {
      NumberThenSplits(changes, " changes");
    } else if changes == 0 {
      assert t[|t| - 8..] != " changes" by { assert t[|t| - 1] == 'n'; }
    }
  }

  /** What one connection of the result shows. */
  function FormatConnection(c: Connection): DisplayConnection {
    DisplayConnection(LegRow(c.trains), ChangeText(c.changes), DurationText(c.travelTime))
  }

  /** For a well-formed connection the row shows as many change connectors as the details line counts. */
  lemma ConnectorsMatchChangeText(c: Connection)
    requires WellFormed(c)
    ensures var d := FormatConnection(c); ReadChangeText(d.changeText) == Some(ChangeCount(d.row))
  {
    ChangesBetweenLegs(FormatLegs(c.trains));
    ChangeTextRoundTrip(c.changes);
  }

  /** `slice(0, 3)`: the connections that are shown. */
  function Shown(connections: seq<Connection>): (r: seq<Connection>)
    ensures |r| == if |connections| < MaxConnections then |connections| else MaxConnections
    ensures r <= connections
  {
    if |connections| <= MaxConnections then connections else connections[..MaxConnections]
  }

  function FormatAll(connections: seq<Connection>): (r: seq<DisplayConnection>)
    ensures |r| == |connections|
    ensures forall i :: 0 <= i < |r| ==> r[i] == FormatConnection(connections[i])
  {
    if connections == [] then [] else [FormatConnection(connections[0])] + FormatAll(connections[1..])
  }

  /** The display model of one direction: the first three connections, formatted, in result order. */
  function Format(connections: seq<Connection>): (r: seq<DisplayConnection>)
    ensures |r| == if |connections| < MaxConnections then |connections| else MaxConnections
    ensures forall i :: 0 <= i < |r| ==> r[i] == FormatConnection(connections[i])
  {
    FormatAll(Shown(connections))
  }

  /** Connections after the third never affect what is shown. */
  lemma LaterConnectionsIgnored(connections: seq<Connection>, more: seq<Connection>)
    requires |connections| >= MaxConnections
    ensures Format(connections + more) == Format(connections)
  {
    assert Shown(connections + more) == Shown(connections);
  }
}
