/**
 * `buildURLSearchParams`: the query string of a journey search. Each
 * parameter contributes `enc(key) "=" enc(value) "&"`, in order; `enc` stands
 * for `encodeURIComponent`, a percent-encoder in the style of section 2.1 of
 * RFC 3986, kept abstract.
 */
module QueryString {

  type Param = (string, string)

  /** The encoding of one parameter, with its trailing separator. */
  function Field(p: Param, enc: string -> string): string {
    enc(p.0) + "=" + enc(p.1) + "&"
  }

  /** The in-order concatenation of the parameters' fields. */
  function Query(ps: seq<Param>, enc: string -> string): string {
    if ps == [] then "" else Field(ps[0], enc) + Query(ps[1..], enc)
  }

  lemma {:induction false} QueryAppend(ps: seq<Param>, p: Param, enc: string -> string)
    ensures Query(ps + [p], enc) == Query(ps, enc) + Field(p, enc)
  {
    if ps != [] {
      assert (ps + [p])[1..] == ps[1..] + [p];
      QueryAppend(ps[1..], p, enc);
    }
  }

  /** The accumulator loop of `buildURLSearchParams`. */
  method BuildURLSearchParams(parameters: seq<Param>, enc: string -> string) returns (qs: string)
    ensures qs == Query(parameters, enc)
  {
    qs := "";
    for i := 0 to |parameters|
      invariant qs == Query(parameters[..i], enc)
    {
      var (key, value) := parameters[i];
      QueryAppend(parameters[..i], parameters[i], enc);
      assert parameters[..i + 1] == parameters[..i] + [parameters[i]];
      qs := qs + enc(key) + "=" + enc(value) + "&";
    }
    assert parameters[..|parameters|] == parameters;
  }

  /** The query string is empty exactly when there are no parameters, and otherwise ends in "&". */
  lemma QueryShape(ps: seq<Param>, enc: string -> string)
    ensures Query(ps, enc) == "" <==> ps == []
    ensures ps != [] ==> Query(ps, enc)[|Query(ps, enc)| - 1] == '&'
  {
    if ps != [] {
      QueryAppend(ps[..|ps| - 1], ps[|ps| - 1], enc);
      assert ps[..|ps| - 1] + [ps[|ps| - 1]] == ps;
    }
  }

  /** Number of occurrences of `c` in `s`. */
  function Occurrences(s: string, c: char): nat {
    if s == [] then 0 else (if s[0] == c then 1 else 0) + Occurrences(s[1..], c)
  }

  lemma {:induction false} OccurrencesConcat(a: string, b: string, c: char)
    ensures Occurrences(a + b, c) == Occurrences(a, c) + Occurrences(b, c)
  {
    if a == [] {
      assert a + b == b;
    } else {
      assert (a + b)[0] == a[0];
      assert (a + b)[1..] == a[1..] + b;
      OccurrencesConcat(a[1..], b, c);
    }
  }

  lemma {:induction false} OccurrencesAbsent(s: string, c: char)
    requires c !in s
    ensures Occurrences(s, c) == 0
  {
    if s != [] {
      OccurrencesAbsent(s[1..], c);
    }
  }

  /** An encoder that never emits "&" gives one "&" per parameter. */
  lemma {:induction false} OneAmpersandPerParameter(ps: seq<Param>, enc: string -> string)
    requires forall s :: '&' !in enc(s)
    ensures Occurrences(Query(ps, enc), '&') == |ps|
  {
    if ps != [] {
      var (k, v) := ps[0];
      OccurrencesConcat(enc(k) + "=" + enc(v), "&", '&');
      OccurrencesConcat(enc(k) + "=", enc(v), '&');
      OccurrencesConcat(enc(k), "=", '&');
      OccurrencesAbsent(enc(k), '&');
      OccurrencesAbsent(enc(v), '&');
      OccurrencesConcat(Field(ps[0], enc), Query(ps[1..], enc), '&');
      OneAmpersandPerParameter(ps[1..], enc);
    }
  }

  /** Position of the first `c` in `s`, or `|s|` when there is none. */
  function IndexOf(s: string, c: char): (i: nat)
    ensures i <= |s|
    ensures i < |s| ==> s[i] == c
    ensures forall j :: 0 <= j < i ==> s[j] != c
  {
    if s == [] then 0 else if s[0] == c then 0 else 1 + IndexOf(s[1..], c)
  }

  lemma IndexOfAfter(x: string, c: char, rest: string)
    requires c !in x
    ensures IndexOf(x + [c] + rest, c) == |x|
  {
    var s := x + [c] + rest;
    assert s[|x|] == c;
    assert forall j :: 0 <= j < |x| ==> s[j] == x[j];
  }

  /** Splits a query string at each "&" into its `key=value` entries. */
  function Entries(qs: string): seq<string>
    decreases |qs|
  {
    if qs == [] then []
    else
      var i := IndexOf(qs, '&');
      if i == |qs| then [qs] else [qs[..i]] + Entries(qs[i + 1..])
  }

  /** Splits one entry at its first "=". */
  function SplitEntry(e: string): Param {
    var i := IndexOf(e, '=');
    if i == |e| then (e, "") else (e[..i], e[i + 1..])
  }

  /** Splits each entry and undoes the encoding of both halves. */
  function DecodeEntries(es: seq<string>, dec: string -> string): seq<Param> {
    if es == [] then [] else
      var (k, v) := SplitEntry(es[0]);
      [(dec(k), dec(v))] + DecodeEntries(es[1..], dec)
  }

  /** Reads a query string back into its parameters, with `dec` undoing the encoding. */
  function Decode(qs: string, dec: string -> string): seq<Param> {
    DecodeEntries(Entries(qs), dec)
  }

  /** "k=v" contains no "&" when neither half does. */
  lemma NoAmpersandInEntry(k: string, v: string)
    requires '&' !in k && '&' !in v
    ensures '&' !in k + "=" + v
  {
    var e := k + "=" + v;
    forall j | 0 <= j < |e| ensures e[j] != '&' {
      if j < |k| { assert e[j] == k[j]; }
      else if j > |k| { assert e[j] == v[j - |k| - 1]; }
    }
  }

  /** The first entry of a field followed by more text is the field without its "&". */
  lemma FieldEntries(p: Param, enc: string -> string, rest: string)
    requires '&' !in enc(p.0) && '&' !in enc(p.1)
    ensures Entries(Field(p, enc) + rest) == [enc(p.0) + "=" + enc(p.1)] + Entries(rest)
  {
    var e := enc(p.0) + "=" + enc(p.1);
    NoAmpersandInEntry(enc(p.0), enc(p.1));
    var s := Field(p, enc) + rest;
    assert s == e + ['&'] + rest;
    IndexOfAfter(e, '&', rest);
    assert s[..|e|] == e;
    assert s[|e| + 1..] == rest;
  }

  /** A "k=v" entry splits back into `k` and `v` when `k` has no "=". */
  lemma EntrySplits(k: string, v: string)
    requires '=' !in k
    ensures SplitEntry(k + "=" + v) == (k, v)
  {
    var e := k + "=" + v;
    assert e == k + ['='] + v;
    IndexOfAfter(k, '=', v);
    assert e[..|k|] == k;
    assert e[|k| + 1..] == v;
  }

  /** Decoding text that starts with a field reads that field's parameter first. */
  lemma DecodeFirstField(p: Param, rest: string, enc: string -> string, dec: string -> string)
    requires '&' !in enc(p.0) && '&' !in enc(p.1) && '=' !in enc(p.0)
    requires dec(enc(p.0)) == p.0 && dec(enc(p.1)) == p.1
    ensures Decode(Field(p, enc) + rest, dec) == [p] + Decode(rest, dec)
  {
    FieldEntries(p, enc, rest);
    EntrySplits(enc(p.0), enc(p.1));
    var es := [enc(p.0) + "=" + enc(p.1)] + Entries(rest);
    assert es[1..] == Entries(rest);
  }

  /**
   * Decoding the query string gives back the parameters, in order, when the
   * encoder emits neither "&" nor "=" and `dec` inverts it.
   */
  lemma {:induction false} QueryRoundTrip(ps: seq<Param>, enc: string -> string, dec: string -> string)
    requires forall s :: '&' !in enc(s) && '=' !in enc(s)
    requires forall s :: dec(enc(s)) == s
    ensures Decode(Query(ps, enc), dec) == ps
  {
    if ps != [] {
      DecodeFirstField(ps[0], Query(ps[1..], enc), enc, dec);
      QueryRoundTrip(ps[1..], enc, dec);
    }
  }

  /** The parameters of a connection search, in the order `getConnections` lists them. */
  function ConnectionSearch(origin: string, destination: string, date: string): (ps: seq<Param>)
    ensures |ps| == 3
  {
    [("query[start_station]", origin), ("query[end_station]", destination), ("query[date]", date)]
  }

  /** The search query string carries origin, destination and date, recoverable in that order. */
  lemma ConnectionSearchRoundTrip(origin: string, destination: string, date: string,
                                  enc: string -> string, dec: string -> string)
    requires forall s :: '&' !in enc(s) && '=' !in enc(s)
    requires forall s :: dec(enc(s)) == s
    ensures var d := Decode(Query(ConnectionSearch(origin, destination, date), enc), dec);
      |d| == 3 && d[0].1 == origin && d[1].1 == destination && d[2].1 == date
  {
    QueryRoundTrip(ConnectionSearch(origin, destination, date), enc, dec);
  }
}
