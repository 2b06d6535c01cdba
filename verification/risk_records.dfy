/**
 * The stored time-series record (one risk assessment of one country for one
 * period) and the selection of the most recent record per country, which the
 * alert, statistics, heat-map and simulation handlers all perform.
 */
module RiskRecords {
  import opened Wrappers
  import opened RiskEngine

  type CountryId = nat

  /** A stored record, with the store's defaults (month 1, components 50) already applied. */
  datatype Record = Record(
    country: CountryId,
    iso3: string,
    year: int,
    month: int,
    militaryRisk: real,
    economicRisk: real,
    politicalRisk: real,
    allianceRisk: real,
    cyberRisk: real,
    socialRisk: real,
    overallConflictProb: real,
    riskTier: Tier)

  /** A country document: its store id and its ISO codes. */
  datatype Country = Country(id: CountryId, name: string, iso3: string, iso2: string, region: string)

  /** Which sort key picks "latest": `{year: -1, month: -1}` or `{year: -1}` alone. */
  datatype Recency = ByYearMonth | ByYear

  /** `a` sorts strictly before `b` under the descending recency key. */
  predicate Newer(a: Record, b: Record, ord: Recency)
  {
    match ord
    case ByYearMonth => a.year > b.year || (a.year == b.year && a.month > b.month)
    case ByYear => a.year > b.year
  }

  lemma NewerIsStrictOrder(a: Record, b: Record, c: Record, ord: Recency)
    ensures !Newer(a, a, ord)
    ensures Newer(a, b, ord) ==> !Newer(b, a, ord)
    ensures Newer(a, b, ord) && Newer(b, c, ord) ==> Newer(a, c, ord)
    ensures !Newer(a, b, ord) && !Newer(b, c, ord) ==> !Newer(a, c, ord)
  {
  }

  /** `r` is a most recent record of its country among `recs`. */
  ghost predicate IsLatestIn(r: Record, recs: seq<Record>, ord: Recency)
  {
    r in recs && forall x :: x in recs && x.country == r.country ==> !Newer(x, r, ord)
  }

  /**
   * `findOne({country: id}).sort(key)`: a most recent record of the country,
   * or nothing when it has none. Among equally recent records the first one
   * encountered is kept.
   */
  function LatestOf(recs: seq<Record>, id: CountryId, ord: Recency): (r: Option<Record>)
    ensures r.None? <==> forall x :: x in recs ==> x.country != id
    ensures r.Some? ==> r.value.country == id && IsLatestIn(r.value, recs, ord)
  {
    if recs == [] then None
    else
      var rest := LatestOf(recs[1..], id, ord);
      assert recs == [recs[0]] + recs[1..];
      if recs[0].country != id then rest
      else if rest.Some? && Newer(rest.value, recs[0], ord) then rest
      else Some(recs[0])
  }

  /** The set of countries that have at least one record (`distinct('country')`). */
  function Countries(recs: seq<Record>): set<CountryId>
  {
    set r | r in recs :: r.country
  }

  ghost predicate DistinctCountries(s: seq<Record>)
  {
    forall i, j :: 0 <= i < j < |s| ==> s[i].country != s[j].country
  }

  /** Index of the record of country `c` in `acc`, or -1 when there is none. */
  function IndexOfCountry(acc: seq<Record>, c: CountryId): (i: int)
    ensures -1 <= i < |acc|
    ensures i >= 0 ==> acc[i].country == c
    ensures i < 0 ==> forall a :: a in acc ==> a.country != c
  {
    if acc == [] then -1
    else if acc[|acc| - 1].country == c then |acc| - 1
    else IndexOfCountry(acc[..|acc| - 1], c)
  }

  /**
   * Puts `r` into the running per-country maxima `acc`: a country seen for
   * the first time is appended; a known one is replaced only by a strictly
   * more recent record, so the first-encountered record wins ties.
   */
  function Upsert(acc: seq<Record>, r: Record, ord: Recency): seq<Record>
  {
    var i := IndexOfCountry(acc, r.country);
    if i < 0 then acc + [r]
    else if Newer(r, acc[i], ord) then acc[i := r]
    else acc
  }

  lemma UpsertShape(acc: seq<Record>, r: Record, ord: Recency)
    requires DistinctCountries(acc)
    ensures DistinctCountries(Upsert(acc, r, ord))
    ensures Countries(Upsert(acc, r, ord)) == Countries(acc) + {r.country}
  {
    var out := Upsert(acc, r, ord);
    var i := IndexOfCountry(acc, r.country);
    if i >= 0 {
      assert r.country in Countries(acc) by { assert acc[i] in acc; }
      if Newer(r, acc[i], ord) {
        forall c | c in Countries(acc) ensures c in Countries(out) {
          var a :| a in acc && a.country == c;
          var j :| 0 <= j < |acc| && acc[j] == a;
          assert out[j].country == c;
          assert out[j] in out;
        }
        assert out[i] in out;
      }
    }
  }

  /** Every record kept by `Upsert` is a most recent one of its country among `seen + [r]`. */
  lemma UpsertKeepsLatest(acc: seq<Record>, seen: seq<Record>, r: Record, ord: Recency)
    requires forall o :: o in acc ==> IsLatestIn(o, seen, ord)
    requires DistinctCountries(acc)
    requires Countries(acc) == Countries(seen)
    ensures forall o :: o in Upsert(acc, r, ord) ==> IsLatestIn(o, seen + [r], ord)
  {
    var out := Upsert(acc, r, ord);
    var i := IndexOfCountry(acc, r.country);
    forall o | o in out ensures IsLatestIn(o, seen + [r], ord) {
      forall x | x in seen + [r] && x.country == o.country ensures !Newer(x, o, ord) {
        if o == r {
          if x in seen {
            // x's country is already known, so `r` met an earlier maximum
            assert x.country in Countries(acc);
            assert i >= 0;
            assert acc[i] in acc;
            assert !Newer(x, acc[i], ord);
            NewerIsStrictOrder(x, acc[i], r, ord);
          }
        } else {
          assert o in acc;
          if x == r {
            var j :| 0 <= j < |out| && out[j] == o;
            assert acc[i].country == o.country ==> acc[i] == o;
          }
        }
      }
    }
  }

  /**
   * The per-country latest records: the stage pair
   * `$sort` by recency, `$group` by country taking `$first`.
   */
  function LatestPerCountry(recs: seq<Record>, ord: Recency): (out: seq<Record>)
    ensures DistinctCountries(out)
    ensures Countries(out) == Countries(recs)
    ensures forall o :: o in out ==> IsLatestIn(o, recs, ord)
  {
    if recs == [] then []
    else
      var init := recs[..|recs| - 1];
      var r := recs[|recs| - 1];
      assert recs == init + [r];
      var acc := LatestPerCountry(init, ord);
      UpsertShape(acc, r, ord);
      UpsertKeepsLatest(acc, init, r, ord);
      assert Countries(recs) == Countries(init) + {r.country};
      Upsert(acc, r, ord)
  }

  lemma {:induction false} CountriesAtMostLength(s: seq<Record>)
    ensures |Countries(s)| <= |s|
  {
    if s != [] {
      CountriesAtMostLength(s[1..]);
      assert Countries(s) == {s[0].country} + Countries(s[1..]);
    }
  }

  lemma {:induction false} DistinctCard(s: seq<Record>)
    requires DistinctCountries(s)
    ensures |Countries(s)| == |s|
  {
    if s != [] {
      var t := s[1..];
      assert DistinctCountries(t) by {
        forall i, j | 0 <= i < j < |t| ensures t[i].country != t[j].country {
          assert t[i] == s[i + 1] && t[j] == s[j + 1];
        }
      }
      DistinctCard(t);
      assert s[0].country !in Countries(t);
      assert Countries(s) == {s[0].country} + Countries(t);
    }
  }

  lemma DuplicateCard(s: seq<Record>, i: nat, j: nat)
    requires i < j < |s| && s[i].country == s[j].country
    ensures |Countries(s)| < |s|
  {
    var t := s[..j] + s[j + 1..];
    assert Countries(s) == Countries(t) by {
      assert s == s[..j] + [s[j]] + s[j + 1..];
      assert s[i] in t;
    }
    CountriesAtMostLength(t);
  }

  /** A record list has distinct countries exactly when it has as many countries as records. */
  lemma DistinctCountriesCard(s: seq<Record>)
    ensures DistinctCountries(s) <==> |Countries(s)| == |s|
  {
    if DistinctCountries(s) {
      DistinctCard(s);
    } else {
      var i, j :| 0 <= i < j < |s| && s[i].country == s[j].country;
      DuplicateCard(s, i, j);
    }
  }

  /** One latest record per monitored country: as many as there are distinct countries. */
  lemma LatestPerCountryCount(recs: seq<Record>, ord: Recency)
    ensures |LatestPerCountry(recs, ord)| == |Countries(recs)|
  {
    DistinctCountriesCard(LatestPerCountry(recs, ord));
  }

  /** Records for A dated (2020, 1), (2021, 1), (2020, 12): the latest is (2021, 1). */
  lemma LatestExample()
    ensures var a1 := Record(1, "AAA", 2020, 1, 50.0, 50.0, 50.0, 50.0, 50.0, 50.0, 50.0, Moderate);
            var a2 := a1.(year := 2021);
            var a3 := a1.(month := 12);
            LatestPerCountry([a1, a2, a3], ByYearMonth) == [a2]
  {
    var a1 := Record(1, "AAA", 2020, 1, 50.0, 50.0, 50.0, 50.0, 50.0, 50.0, 50.0, Moderate);
    var a2 := a1.(year := 2021);
    var a3 := a1.(month := 12);
    assert [a1, a2, a3][..2] == [a1, a2];
    assert [a1, a2][..1] == [a1];
    assert LatestPerCountry([a1], ByYearMonth) == [a1];
    assert LatestPerCountry([a1, a2], ByYearMonth) == [a2];
  }
}
