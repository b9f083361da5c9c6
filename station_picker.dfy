/**
 * The station picker of `askForStation` and the control flow of `configure`.
 *
 * The text field's contents and the index the second alert returns are
 * inputs; `lower` is the per-character lowercasing that `toLowerCase`
 * applies (station names are Polish and contain letters such as 'Ł' and 'ó').
 */
module StationPicker {
  import opened Wrappers

  /** A station record of the directory, with the fields the script reads. */
  datatype Station = Station(id: int, name: string, nameSlug: string)

  /** The record `configure` writes: `{departureStation, arrivalStation}`. */
  datatype SelectionPreference = SelectionPreference(departureStation: Station, arrivalStation: Station)

  /** At most this many stations are offered (`slice(0, 5)`). */
  const MaxCandidates := 5

  function Lower(s: string, lower: char -> char): (r: string)
    ensures |r| == |s| && forall i :: 0 <= i < |s| ==> r[i] == lower(s[i])
  {
    seq(|s|, i requires 0 <= i < |s| => lower(s[i]))
  }

  /** `s.includes(sub)`: `sub` occurs in `s` at some position. */
  predicate Includes(s: string, sub: string) {
    sub <= s || (s != [] && Includes(s[1..], sub))
  }

  /** A string occurs in any string that has it as an infix. */
  lemma {:induction false} IncludesInfix(before: string, sub: string, after: string)
    ensures Includes(before + sub + after, sub)
  {
    if before != [] {
      assert (before + sub + after)[1..] == before[1..] + sub + after;
      IncludesInfix(before[1..], sub, after);
    } else {
      assert before + sub + after == sub + after;
    }
  }

  /** `sub` occurs in `s` starting at position `i`. */
  predicate OccursAt(s: string, sub: string, i: int) {
    0 <= i <= |s| - |sub| && s[i..i + |sub|] == sub
  }

  lemma OccursInTail(s: string, sub: string, i: nat)
    requires s != []
    ensures OccursAt(s[1..], sub, i) <==> OccursAt(s, sub, i + 1)
  {
    if i <= |s| - 1 - |sub| {
      assert s[1..][i..i + |sub|] == s[i + 1..i + 1 + |sub|];
    }
  }

  /** `Includes` holds exactly when `sub` occurs at some position of `s`. */
  lemma {:induction false} IncludesIffOccurs(s: string, sub: string)
    ensures Includes(s, sub) <==> exists i :: OccursAt(s, sub, i)
    decreases |s|
  {
    if sub <= s {
      assert OccursAt(s, sub, 0);
    } else if s == [] {
      assert forall i :: !OccursAt(s, sub, i);
    } else {
      IncludesIffOccurs(s[1..], sub);
      if Includes(s[1..], sub) {
        var i :| OccursAt(s[1..], sub, i);
        OccursInTail(s, sub, i);
      }
      if exists i :: OccursAt(s, sub, i) {
        var i :| OccursAt(s, sub, i);
        assert i > 0;
        OccursInTail(s, sub, i - 1);
      }
    }
  }

  /** The filter predicate of `askForStation`. */
  predicate NameMatches(station: Station, text: string, lower: char -> char) {
    Includes(Lower(station.name, lower), Lower(text, lower))
  }

  /** `stations.filter(...)`: the matching stations, in directory order. */
  function Filter(stations: seq<Station>, text: string, lower: char -> char): (r: seq<Station>)
    ensures |r| <= |stations|
    ensures forall j :: 0 <= j < |r| ==> r[j] in stations && NameMatches(r[j], text, lower)
  {
    if stations == [] then []
    else
      var rest := Filter(stations[1..], text, lower);
      if NameMatches(stations[0], text, lower) then [stations[0]] + rest else rest
  }

  lemma {:induction false} FilterAppend(a: seq<Station>, b: seq<Station>, text: string, lower: char -> char)
    ensures Filter(a + b, text, lower) == Filter(a, text, lower) + Filter(b, text, lower)
  {
    if a == [] {
      assert a + b == b;
    } else {
      assert (a + b)[0] == a[0];
      assert (a + b)[1..] == a[1..] + b;
      FilterAppend(a[1..], b, text, lower);
    }
  }

  /** Every matching station of the directory survives the filter. */
  lemma {:induction false} FilterComplete(stations: seq<Station>, text: string, lower: char -> char, i: nat)
    requires i < |stations| && NameMatches(stations[i], text, lower)
    ensures stations[i] in Filter(stations, text, lower)
  {
    if i > 0 {
      FilterComplete(stations[1..], text, lower, i - 1);
    }
  }

  /** Where the `k`-th survivor of the filter stands in the directory: a station preceded by exactly `k` matching stations. */
  function MatchPosition(stations: seq<Station>, text: string, lower: char -> char, k: nat): (i: nat)
    requires k < |Filter(stations, text, lower)|
    ensures i < |stations| && stations[i] == Filter(stations, text, lower)[k]
    ensures |Filter(stations[..i], text, lower)| == k
  {
    if NameMatches(stations[0], text, lower) && k == 0 then
      assert stations[..0] == [];
      0
    else
      var k' := if NameMatches(stations[0], text, lower) then k - 1 else k;
      FilterTail(stations, text, lower, k);
      var i' := MatchPosition(stations[1..], text, lower, k');
      FilterShift(stations, text, lower, i');
      i' + 1
  }

  /** Past a matching first station, survivor `k` of the directory is survivor `k - 1` of the rest; past another, survivor `k`. */
  lemma FilterTail(stations: seq<Station>, text: string, lower: char -> char, k: nat)
    requires k < |Filter(stations, text, lower)|
    requires !(NameMatches(stations[0], text, lower) && k == 0)
    ensures var k' := if NameMatches(stations[0], text, lower) then k - 1 else k;
      k' < |Filter(stations[1..], text, lower)| &&
      Filter(stations[1..], text, lower)[k'] == Filter(stations, text, lower)[k]
  {
  }

  /** Looking one station further into the directory adds its first station's match, if any. */
  lemma FilterShift(stations: seq<Station>, text: string, lower: char -> char, i: nat)
    requires i < |stations| - 1
    ensures Filter(stations[..i + 1], text, lower) ==
            (if NameMatches(stations[0], text, lower) then [stations[0]] else []) + Filter(stations[1..][..i], text, lower)
  {
    assert stations[..i + 1] == [stations[0]] + stations[1..][..i];
    FilterAppend([stations[0]], stations[1..][..i], text, lower);
    assert [stations[0]][1..] == [];
  }

  /** `filter(...).slice(0, 5)`: the stations offered to the user. */
  function Candidates(stations: seq<Station>, text: string, lower: char -> char): (r: seq<Station>)
    ensures |r| <= MaxCandidates
    ensures forall j :: 0 <= j < |r| ==> r[j] in stations && NameMatches(r[j], text, lower)
  {
    var matches := Filter(stations, text, lower);
    if |matches| <= MaxCandidates then matches else matches[..MaxCandidates]
  }

  /** A matching station with fewer than five matches before it is offered, at the position of its rank. */
  lemma EarlyMatchIsOffered(stations: seq<Station>, text: string, lower: char -> char, i: nat)
    requires i < |stations| && NameMatches(stations[i], text, lower)
    requires |Filter(stations[..i], text, lower)| < MaxCandidates
    ensures var k := |Filter(stations[..i], text, lower)|;
      k < |Candidates(stations, text, lower)| && Candidates(stations, text, lower)[k] == stations[i]
  {
    assert stations == stations[..i] + [stations[i]] + stations[i + 1..];
    FilterAppend(stations[..i] + [stations[i]], stations[i + 1..], text, lower);
    FilterAppend(stations[..i], [stations[i]], text, lower);
  }

  /** Each offered station is a matching station with exactly as many matches before it as its position. */
  lemma OfferedIsEarlyMatch(stations: seq<Station>, text: string, lower: char -> char, k: nat)
    requires k < |Candidates(stations, text, lower)|
    ensures exists i :: 0 <= i < |stations| && stations[i] == Candidates(stations, text, lower)[k]
                        && NameMatches(stations[i], text, lower)
                        && |Filter(stations[..i], text, lower)| == k
  {
    var i := MatchPosition(stations, text, lower, k);
  }

  /** Five stations are offered whenever at least five match; otherwise every match is. */
  lemma CandidateCount(stations: seq<Station>, text: string, lower: char -> char)
    ensures var n := |Filter(stations, text, lower)|;
      |Candidates(stations, text, lower)| == if n < MaxCandidates then n else MaxCandidates
  {
  }

  /** Stations after the fifth match are never offered. */
  lemma {:induction false} LaterStationsIgnored(a: seq<Station>, b: seq<Station>, text: string, lower: char -> char)
    requires |Filter(a, text, lower)| >= MaxCandidates
    ensures Candidates(a + b, text, lower) == Candidates(a, text, lower)
  {
    FilterAppend(a, b, text, lower);
  }

  /** Matching ignores case: texts that lowercase alike offer the same stations. */
  lemma {:induction false} CaseInsensitive(stations: seq<Station>, t1: string, t2: string, lower: char -> char)
    requires Lower(t1, lower) == Lower(t2, lower)
    ensures Candidates(stations, t1, lower) == Candidates(stations, t2, lower)
  {
    FilterCaseInsensitive(stations, t1, t2, lower);
  }

  lemma {:induction false} FilterCaseInsensitive(stations: seq<Station>, t1: string, t2: string, lower: char -> char)
    requires Lower(t1, lower) == Lower(t2, lower)
    ensures Filter(stations, t1, lower) == Filter(stations, t2, lower)
  {
    if stations != [] {
      FilterCaseInsensitive(stations[1..], t1, t2, lower);
    }
  }

  /**
   * The answer of the choice alert mapped back to a station: -1 is the
   * cancel action (`null`), any other value the index of the station's action.
   * `Alert.present` returns only the index of an action it offered.
   */
  function Pick(candidates: seq<Station>, choice: int): (r: Option<Station>)
    requires -1 <= choice < |candidates|
    ensures r.None? <==> choice == -1
    ensures r.Some? ==> r.value in candidates && r.value == candidates[choice]
  {
    if choice == -1 then None else Some(candidates[choice])
  }

  /** `askForStation`: narrow the directory by the typed text, then map the choice back. */
  function AskForStation(stations: seq<Station>, text: string, choice: int, lower: char -> char): (r: Option<Station>)
    requires -1 <= choice < |Candidates(stations, text, lower)|
    ensures r.None? <==> choice == -1
    ensures r.Some? ==> r.value in stations && NameMatches(r.value, text, lower)
    ensures r.Some? ==> r.value == Candidates(stations, text, lower)[choice]
  {
    Pick(Candidates(stations, text, lower), choice)
  }

  /** What the user answers at one prompt: the typed text, then the index of the chosen action. */
  datatype Answer = Answer(text: string, choice: int)

  predicate ValidAnswer(stations: seq<Station>, a: Answer, lower: char -> char) {
    -1 <= a.choice < |Candidates(stations, a.text, lower)|
  }

  /**
   * `configure`: ask for the departure station, stop on cancel, ask for the
   * arrival station, stop on cancel, and only then write the record.
   * `written` is the record written (`None`: nothing written); `prompts` is
   * how many station prompts were shown.
   */
  method Configure(stations: seq<Station>, departure: Answer, arrival: Answer, lower: char -> char)
    returns (written: Option<SelectionPreference>, prompts: nat)
    requires ValidAnswer(stations, departure, lower)
    requires departure.choice != -1 ==> ValidAnswer(stations, arrival, lower)
    ensures prompts == if departure.choice == -1 then 1 else 2
    ensures written.Some? <==> departure.choice != -1 && arrival.choice != -1
    ensures written.Some? ==>
      written.value.departureStation == Candidates(stations, departure.text, lower)[departure.choice] &&
      written.value.arrivalStation == Candidates(stations, arrival.text, lower)[arrival.choice]
  {
    written, prompts := None, 1;
    var departureStation := AskForStation(stations, departure.text, departure.choice, lower);
    if departureStation == None {
      return;
    }
    prompts := 2;
    var arrivalStation := AskForStation(stations, arrival.text, arrival.choice, lower);
    if arrivalStation == None {
      return;
    }
    written := Some(SelectionPreference(departureStation.value, arrivalStation.value));
  }
}
