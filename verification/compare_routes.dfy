/**
 * `GET /api/compare?countries=...`: the list parser (split on commas, trim,
 * upper-case, drop empty codes), the two-code minimum and the lookup of
 * each code, which drops unknown codes and keeps duplicates.
 */
module CompareRoutes {
  import opened Wrappers
  import opened Seqs
  import opened JsText
  import opened RiskRecords
  import opened RiskRoutes

  /** `req.query.countries || ''`. */
  function QueryText(q: Option<string>): string
  {
    if q.Some? then q.value else []
  }

  function NormalizeAll(parts: seq<string>): (r: seq<string>)
    ensures |r| == |parts|
    ensures forall i :: 0 <= i < |parts| ==> r[i] == TrimUpper(parts[i])
  {
    if parts == [] then [] else [TrimUpper(parts[0])] + NormalizeAll(parts[1..])
  }

  /** `filter(Boolean)` on strings keeps the non-empty ones. */
  function NonEmpty(s: string): bool
  {
    s != []
  }

  /** The parsed codes, in query order. */
  function ParseCodes(q: Option<string>): seq<string>
  {
    Filter(NormalizeAll(Split(QueryText(q), ',')), NonEmpty)
  }

  lemma PieceClean(piece: string)
    requires ',' !in piece
    ensures var c := TrimUpper(piece);
            ',' !in c && IsUpperCase(c) && (c != [] ==> !IsWhiteSpace(c[0]) && !IsWhiteSpace(c[|c| - 1]))
  {
    TrimUpperClean(piece);
  }

  /** Every parsed code is non-empty, trimmed, upper-case and comma-free, and the codes keep query order. */
  lemma ParsedCodesClean(q: Option<string>)
    ensures forall c :: c in ParseCodes(q) ==>
              c != [] && ',' !in c && IsUpperCase(c) && !IsWhiteSpace(c[0]) && !IsWhiteSpace(c[|c| - 1])
    ensures IsSubsequence(ParseCodes(q), NormalizeAll(Split(QueryText(q), ',')))
  {
    var pieces := Split(QueryText(q), ',');
    var normal := NormalizeAll(pieces);
    forall c | c in ParseCodes(q)
      ensures c != [] && ',' !in c && IsUpperCase(c) && !IsWhiteSpace(c[0]) && !IsWhiteSpace(c[|c| - 1])
    {
      var i :| 0 <= i < |normal| && normal[i] == c;
      PieceClean(pieces[i]);
    }
    FilterIsSubsequence(normal, NonEmpty);
  }

  lemma SplitExample()
    ensures Split("in,,cn,", ',') == ["in", "", "cn", ""]
  {
    assert Split("", ',') == [""];
    assert ","[1..] == "";
    assert Split(",", ',') == ["", ""];
    assert "n,"[1..] == ",";
    var r1: seq<string> := ["", ""];
    assert r1[1..] == [""] && ['n'] + r1[0] == "n";
    assert Split("n,", ',') == ["n", ""];
    assert "cn,"[1..] == "n,";
    var r2: seq<string> := ["n", ""];
    assert r2[1..] == [""] && ['c'] + r2[0] == "cn";
    assert Split("cn,", ',') == ["cn", ""];
    assert ",cn,"[1..] == "cn,";
    assert Split(",cn,", ',') == ["", "cn", ""];
    assert ",,cn,"[1..] == ",cn,";
    assert Split(",,cn,", ',') == ["", "", "cn", ""];
    assert "n,,cn,"[1..] == ",,cn,";
    var r3: seq<string> := ["", "", "cn", ""];
    assert r3[1..] == ["", "cn", ""] && ['n'] + r3[0] == "n";
    assert Split("n,,cn,", ',') == ["n", "", "cn", ""];
    assert "in,,cn,"[1..] == "n,,cn,";
    var r4: seq<string> := ["n", "", "cn", ""];
    assert r4[1..] == ["", "cn", ""] && ['i'] + r4[0] == "in";
  }

  lemma TrimUpperExample()
    ensures TrimUpper("in") == "IN"
    ensures TrimUpper("cn") == "CN"
    ensures TrimUpper("") == ""
  {
    TrimUntouched("in");
    TrimUntouched("cn");
    TrimUntouched("");
  }

  lemma NormalizeAllExample()
    ensures NormalizeAll(["in", "", "cn", ""]) == ["IN", "", "CN", ""]
  {
    TrimUpperExample();
    var parts: seq<string> := ["in", "", "cn", ""];
    assert parts[1..][1..][1..] == [""];
    assert parts[1..][1..] == ["cn", ""];
    assert parts[1..] == ["", "cn", ""];
  }

  lemma FilterExample()
    ensures Filter(["IN", "", "CN", ""], NonEmpty) == ["IN", "CN"]
  {
    var parts: seq<string> := ["IN", "", "CN", ""];
    assert parts[1..] == ["", "CN", ""];
    assert parts[1..][1..] == ["CN", ""];
    assert parts[1..][1..][1..] == [""];
    assert parts[1..][1..][1..][1..] == [];
  }

  /** A missing query parses to nothing; empty segments are dropped. */
  lemma ParseExamples()
    ensures ParseCodes(None) == []
    ensures ParseCodes(Some("in,,cn,")) == ["IN", "CN"]
  {
    assert Split([], ',') == [[]];
    TrimUpperExample();
    SplitExample();
    NormalizeAllExample();
    FilterExample();
  }

  /** One entry of the response; the military and economic documents are not part of this model. */
  datatype CompareEntry = CompareEntry(country: Country, risk: Option<Record>)

  function IsKnown(countries: seq<Country>): string -> bool
  {
    code => FindCountry(countries, code).Some?
  }

  /** The entry of a known country: its document and its latest record by year. */
  function EntryOf(c: Country, recs: seq<Record>): CompareEntry
  {
    CompareEntry(c, LatestOf(recs, c.id, ByYear))
  }

  /** The lookups of `Promise.all`, then `filter(Boolean)`: one entry per known code, in code order. */
  function Lookup(codes: seq<string>, countries: seq<Country>, recs: seq<Record>): (r: seq<CompareEntry>)
    ensures |r| <= |codes|
  {
    if codes == [] then []
    else
      var rest := Lookup(codes[1..], countries, recs);
      match FindCountry(countries, codes[0])
      case None => rest
      case Some(c) => [EntryOf(c, recs)] + rest
  }

  /** The i-th entry belongs to the i-th known code. */
  lemma {:induction false} LookupFollowsKnownCodes(codes: seq<string>, countries: seq<Country>, recs: seq<Record>, i: nat)
    requires i < |Lookup(codes, countries, recs)|
    ensures var r, known := Lookup(codes, countries, recs), Filter(codes, IsKnown(countries));
            && i < |known|
            && FindCountry(countries, known[i]) == Some(r[i].country)
            && r[i] == EntryOf(r[i].country, recs)
  {
    var rest, krest := Lookup(codes[1..], countries, recs), Filter(codes[1..], IsKnown(countries));
    var fc := FindCountry(countries, codes[0]);
    if fc.None? {
      assert Lookup(codes, countries, recs) == rest;
      assert Filter(codes, IsKnown(countries)) == krest;
      LookupFollowsKnownCodes(codes[1..], countries, recs, i);
    } else {
      assert Lookup(codes, countries, recs) == [EntryOf(fc.value, recs)] + rest;
      assert Filter(codes, IsKnown(countries)) == [codes[0]] + krest;
      if i > 0 {
        LookupFollowsKnownCodes(codes[1..], countries, recs, i - 1);
      }
    }
  }

  /** One entry per known code. */
  lemma {:induction false} LookupLength(codes: seq<string>, countries: seq<Country>, recs: seq<Record>)
    ensures |Lookup(codes, countries, recs)| == |Filter(codes, IsKnown(countries))|
  {
    if codes != [] {
      LookupLength(codes[1..], countries, recs);
    }
  }

  /** The handler: a 400 error for fewer than two codes, otherwise the entries of the known codes. */
  function Compare(q: Option<string>, countries: seq<Country>, recs: seq<Record>): Result<seq<CompareEntry>, HttpError>
  {
    var codes := ParseCodes(q);
    if |codes| < 2 then Failure(HttpError(400, "Provide at least 2 ISO codes"))
    else Success(Lookup(codes, countries, recs))
  }

  /** Each entry comes from a known code, with its country's latest record by year. */
  lemma LookupSound(codes: seq<string>, countries: seq<Country>, recs: seq<Record>, e: CompareEntry)
    requires e in Lookup(codes, countries, recs)
    ensures e.country in countries
    ensures exists code :: code in codes && (e.country.iso3 == code || e.country.iso2 == code)
    ensures e.risk == LatestOf(recs, e.country.id, ByYear)
  {
    var out := Lookup(codes, countries, recs);
    var known := Filter(codes, IsKnown(countries));
    var i :| 0 <= i < |out| && out[i] == e;
    LookupFollowsKnownCodes(codes, countries, recs, i);
    assert known[i] in codes;
  }

  /** The error depends on the query alone, and otherwise every entry comes from a known code, with its latest record by year. */
  lemma CompareOutcome(q: Option<string>, countries: seq<Country>, recs: seq<Record>)
    ensures Compare(q, countries, recs).Failure? <==> |ParseCodes(q)| < 2
    ensures Compare(q, countries, recs).Failure? ==>
              Compare(q, countries, recs).error == HttpError(400, "Provide at least 2 ISO codes")
    ensures Compare(q, countries, recs).Success? ==>
              var out := Compare(q, countries, recs).value;
              && |out| <= |ParseCodes(q)|
              && forall e :: e in out ==>
                   e.country in countries &&
                   (exists code :: code in ParseCodes(q) && (e.country.iso3 == code || e.country.iso2 == code)) &&
                   (e.risk.None? <==> forall x :: x in recs ==> x.country != e.country.id) &&
                   (e.risk.Some? ==> IsLatestIn(e.risk.value, recs, ByYear) && e.risk.value.country == e.country.id)
  {
    var codes := ParseCodes(q);
    if |codes| >= 2 {
      var out := Lookup(codes, countries, recs);
      forall e | e in out
        ensures e.country in countries
        ensures exists code :: code in codes && (e.country.iso3 == code || e.country.iso2 == code)
        ensures e.risk.None? <==> forall x :: x in recs ==> x.country != e.country.id
        ensures e.risk.Some? ==> IsLatestIn(e.risk.value, recs, ByYear) && e.risk.value.country == e.country.id
      {
        LookupSound(codes, countries, recs, e);
      }
    }
  }

  /** A query with no white space in a code, and one unknown code, loses that code only. */
  lemma UnknownCodeDropped(countries: seq<Country>, recs: seq<Record>, a: string, b: string, z: string)
    requires FindCountry(countries, a).Some? && FindCountry(countries, b).Some? && FindCountry(countries, z).None?
    ensures Lookup([a, z, b], countries, recs) ==
              [EntryOf(FindCountry(countries, a).value, recs), EntryOf(FindCountry(countries, b).value, recs)]
  {
    assert [a, z, b][1..] == [z, b];
    assert [z, b][1..] == [b];
    assert [b][1..] == [];
    assert Lookup([b], countries, recs) == [EntryOf(FindCountry(countries, b).value, recs)];
    assert Lookup([z, b], countries, recs) == Lookup([b], countries, recs);
  }

  /** A code asked for twice is looked up twice. */
  lemma DuplicatesKept(countries: seq<Country>, recs: seq<Record>, code: string)
    requires FindCountry(countries, code).Some?
    ensures |Lookup([code, code], countries, recs)| == 2
  {
    assert [code, code][1..] == [code];
    assert [code][1..] == [];
  }
}
