/** Worked instances of the picker and the formatter on concrete data. */
module Scenarios {
  import opened Wrappers
  import opened StationPicker
  import opened Itinerary

  /** Lowercasing of the letters that occur in Polish station names. */
  function PolishLower(c: char): char {
    if 'A' <= c <= 'Z' then (c as int + 32) as char
    else if c == 'Ą' then 'ą' else if c == 'Ć' then 'ć' else if c == 'Ę' then 'ę'
    else if c == 'Ł' then 'ł' else if c == 'Ń' then 'ń' else if c == 'Ó' then 'ó'
    else if c == 'Ś' then 'ś' else if c == 'Ź' then 'ź' else if c == 'Ż' then 'ż'
    else c
  }

  const Warszawa := Station(1, "Warszawa Centralna", "warszawa-centralna")
  const Krakow := Station(2, "Kraków Główny", "krakow-glowny")
  const Directory := [Warszawa, Krakow]

  lemma WarszMatchesWarszawaOnly()
    ensures NameMatches(Warszawa, "warsz", PolishLower)
    ensures !NameMatches(Krakow, "warsz", PolishLower)
  {
    assert Lower("warsz", PolishLower) == "warsz";
    WarszawaLowered();
    assert "warsz" <= "warszawa centralna";
    KrakowLowered();
    assert 'z' !in "kraków główny";
    CharAbsent("kraków główny", "warsz", 4);
  }

  lemma WarszPicksWarszawa()
    ensures Candidates(Directory, "warsz", PolishLower) == [Warszawa]
  {
    WarszMatchesWarszawaOnly();
    assert Directory[1..] == [Krakow];
    assert Filter([Krakow], "warsz", PolishLower) == [] by {
      assert [Krakow][1..] == [];
    }
  }

  lemma WarszawaLowered()
    ensures Lower(Warszawa.name, PolishLower) == "warszawa centralna"
  {
  }

  lemma KrakowLowered()
    ensures Lower(Krakow.name, PolishLower) == "kraków główny"
  {
  }

  /** When some character of `sub` occurs nowhere in `s`, `s` does not include `sub`. */
  lemma CharAbsent(s: string, sub: string, j: nat)
    requires j < |sub| && sub[j] !in s
    ensures !Includes(s, sub)
  {
    IncludesIffOccurs(s, sub);
    forall i | 0 <= i <= |s| - |sub| ensures !OccursAt(s, sub, i) {
      assert s[i..i + |sub|][j] == s[i + j];
    }
  }

  lemma KrakMatchesKrakowOnly()
    ensures NameMatches(Krakow, "Krak", PolishLower)
    ensures !NameMatches(Warszawa, "Krak", PolishLower)
  {
    assert Lower("Krak", PolishLower) == "krak";
    KrakowLowered();
    assert "krak" <= "kraków główny";
    WarszawaLowered();
    assert 'k' !in "warszawa centralna";
    CharAbsent("warszawa centralna", "krak", 0);
  }

  lemma KrakPicksKrakow()
    ensures Candidates(Directory, "Krak", PolishLower) == [Krakow]
    ensures AskForStation(Directory, "Krak", 0, PolishLower) == Some(Krakow)
  {
    KrakMatchesKrakowOnly();
    assert Directory[1..] == [Krakow];
    assert Filter([Krakow], "Krak", PolishLower) == [Krakow] by {
      assert [Krakow][1..] == [];
    }
  }

  lemma XyzMatchesNothing()
    ensures !NameMatches(Warszawa, "xyz123", PolishLower)
    ensures !NameMatches(Krakow, "xyz123", PolishLower)
  {
    assert Lower("xyz123", PolishLower) == "xyz123";
    WarszawaLowered();
    KrakowLowered();
    assert 'x' !in "warszawa centralna" && 'x' !in "kraków główny";
    CharAbsent("warszawa centralna", "xyz123", 0);
    CharAbsent("kraków główny", "xyz123", 0);
  }

  lemma NoMatchOffersNothing()
    ensures Candidates(Directory, "xyz123", PolishLower) == []
  {
    XyzMatchesNothing();
    assert Directory[1..] == [Krakow];
    assert Filter([Krakow], "xyz123", PolishLower) == [] by {
      assert [Krakow][1..] == [];
    }
  }

  /** A two-train connection with one change shows two legs, one change connector and "1 change". */
  lemma TwoTrainConnection(first: Train, second: Train, minutes: nat)
    ensures var d := Format([Connection([first, second], 1, minutes)]);
      |d| == 1 && d[0].changeText == "1 change" &&
      d[0].row == [LegItem(FormatLeg(first)), ChangeItem, LegItem(FormatLeg(second))]
  {
    var trains := [first, second];
    assert trains[1..] == [second];
    assert FormatLegs(trains) == [FormatLeg(first), FormatLeg(second)] by {
      assert trains[1..][1..] == [];
    }
    var legs := FormatLegs(trains);
    assert legs[1..] == [FormatLeg(second)];
    assert Row(legs) == [LegItem(FormatLeg(first)), ChangeItem, LegItem(FormatLeg(second))];
    var c := Connection(trains, 1, minutes);
    assert Format([c])[0] == FormatConnection(c);
  }
}
