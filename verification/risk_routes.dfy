/**
 * The risk endpoints: the heatmap (every country with its latest record,
 * sorted in place by score), the high-alert list (Critical and High records
 * sorted by score, de-duplicated per country with a `seen` set) and the
 * what-if simulation (validation, lookups, baseline against scenario).
 */
module RiskRoutes {
  import opened Wrappers
  import opened Seqs
  import opened JsText
  import opened RiskEngine
  import opened RiskRecords

  // --------------------------------------------------------------- heatmap

  /** One heatmap entry; the score fields are `null` when the country has no record. */
  datatype HeatRow = HeatRow(
    country: Country,
    overallConflictProb: Option<real>,
    riskTier: Option<Tier>,
    militaryRisk: Option<real>,
    economicRisk: Option<real>,
    politicalRisk: Option<real>)

  /** The row of one country, from its latest record by (year, month). */
  function RowOf(c: Country, recs: seq<Record>): HeatRow
  {
    match LatestOf(recs, c.id, ByYearMonth)
    case None => HeatRow(c, None, None, None, None, None)
    case Some(r) =>
      HeatRow(c, Some(r.overallConflictProb), Some(r.riskTier),
              Some(r.militaryRisk), Some(r.economicRisk), Some(r.politicalRisk))
  }

  /** The rows before sorting, one per country document, in document order. */
  function Rows(countries: seq<Country>, recs: seq<Record>): (rows: seq<HeatRow>)
    ensures |rows| == |countries|
    ensures forall i :: 0 <= i < |countries| ==> rows[i] == RowOf(countries[i], recs)
  {
    if countries == [] then [] else [RowOf(countries[0], recs)] + Rows(countries[1..], recs)
  }

  /** The comparator's key `overallConflictProb || 0`: a missing score ranks as 0. */
  function HeatKey(row: HeatRow): real
  {
    if row.overallConflictProb.Some? then row.overallConflictProb.value else 0.0
  }

  /** A row carries the latest record of its country, or nothing when the country has none. */
  lemma RowOfIsLatest(c: Country, recs: seq<Record>)
    ensures var row := RowOf(c, recs);
            && row.country == c
            && (row.overallConflictProb.None? <==> forall x :: x in recs ==> x.country != c.id)
            && (row.overallConflictProb.None? ==> HeatKey(row) == 0.0 && row.riskTier.None?)
            && (row.overallConflictProb.Some? ==>
                  exists r :: IsLatestIn(r, recs, ByYearMonth) && r.country == c.id &&
                              row.overallConflictProb == Some(r.overallConflictProb) && row.riskTier == Some(r.riskTier))
  {
    var l := LatestOf(recs, c.id, ByYearMonth);
    if l.Some? {
      assert IsLatestIn(l.value, recs, ByYearMonth);
    }
  }

  /** The rows `a[lo..hi]` are in descending key order. */
  ghost predicate SortedSegment(a: array<HeatRow>, lo: int, hi: int)
    requires 0 <= lo <= hi <= a.Length
    reads a
  {
    forall p, q :: lo <= p < q < hi ==> HeatKey(a[p]) >= HeatKey(a[q])
  }

  /** `s[..hi + 1]` is in descending key order apart from `s[j]`, which outranks everything after it. */
  ghost predicate SortedExcept(s: seq<HeatRow>, hi: int, j: int)
    requires 0 <= j <= hi < |s|
  {
    && (forall p, q :: 0 <= p < q <= hi && p != j && q != j ==> HeatKey(s[p]) >= HeatKey(s[q]))
    && (forall q :: j < q <= hi ==> HeatKey(s[j]) > HeatKey(s[q]))
  }

  function Swapped(s: seq<HeatRow>, j: int): seq<HeatRow>
    requires 0 < j < |s|
  {
    s[j - 1 := s[j]][j := s[j - 1]]
  }

  lemma SwapStep(s: seq<HeatRow>, hi: int, j: int)
    requires 0 < j <= hi < |s|
    requires SortedExcept(s, hi, j) && HeatKey(s[j - 1]) < HeatKey(s[j])
    ensures SortedExcept(Swapped(s, j), hi, j - 1)
    ensures multiset(Swapped(s, j)) == multiset(s)
    ensures Swapped(s, j)[hi + 1..] == s[hi + 1..]
  {
  }

  lemma SettledStep(s: seq<HeatRow>, hi: int, j: int)
    requires 0 <= j <= hi < |s|
    requires SortedExcept(s, hi, j) && (j == 0 || HeatKey(s[j - 1]) >= HeatKey(s[j]))
    ensures forall p, q :: 0 <= p < q <= hi ==> HeatKey(s[p]) >= HeatKey(s[q])
  {
  }

  /** One insertion step: moves `a[i]` left past the rows with a smaller key. */
  method InsertAt(a: array<HeatRow>, i: int)
    requires 0 <= i < a.Length
    requires SortedSegment(a, 0, i)
    modifies a
    ensures SortedSegment(a, 0, i + 1)
    ensures multiset(a[..]) == old(multiset(a[..]))
    ensures a[i + 1..] == old(a[i + 1..])
  {
    var j := i;
    while j > 0 && HeatKey(a[j - 1]) < HeatKey(a[j])
      invariant 0 <= j <= i
      invariant SortedExcept(a[..], i, j)
      invariant multiset(a[..]) == old(multiset(a[..]))
      invariant a[i + 1..] == old(a[i + 1..])
    {
      ghost var s := a[..];
      SwapStep(s, i, j);
      a[j - 1], a[j] := a[j], a[j - 1];
      assert a[..] == Swapped(s, j);
      j := j - 1;
    }
    SettledStep(a[..], i, j);
  }

  /** `result.sort((a, b) => key(b) - key(a))` in place: an insertion sort by descending key. */
  method SortHeatmap(a: array<HeatRow>)
    modifies a
    ensures SortedDesc(a[..], HeatKey)
    ensures multiset(a[..]) == old(multiset(a[..]))
  {
    for i := 0 to a.Length
      invariant SortedSegment(a, 0, i)
      invariant multiset(a[..]) == old(multiset(a[..]))
    {
      InsertAt(a, i);
    }
    assert forall p :: 0 <= p < a.Length ==> a[..][p] == a[p];
  }

  /** `GET /api/risk/heatmap`: every country once, highest score first, missing scores counted as 0. */
  method Heatmap(countries: seq<Country>, recs: seq<Record>) returns (rows: seq<HeatRow>)
    ensures multiset(rows) == multiset(Rows(countries, recs))
    ensures |rows| == |countries|
    ensures SortedDesc(rows, HeatKey)
  {
    var a := new HeatRow[|countries|](i requires 0 <= i < |countries| => RowOf(countries[i], recs));
    assert a[..] == Rows(countries, recs);
    SortHeatmap(a);
    rows := a[..];
    assert |rows| == |multiset(rows)|;
  }

  /** Every country document contributes exactly its own row. */
  lemma HeatmapCoversCountries(countries: seq<Country>, recs: seq<Record>, rows: seq<HeatRow>, c: Country)
    requires multiset(rows) == multiset(Rows(countries, recs))
    ensures c in countries <==> RowOf(c, recs) in rows
  {
    var all := Rows(countries, recs);
    assert RowOf(c, recs) in rows <==> RowOf(c, recs) in all by {
      assert RowOf(c, recs) in rows <==> RowOf(c, recs) in multiset(rows);
      assert RowOf(c, recs) in all <==> RowOf(c, recs) in multiset(all);
    }
    if RowOf(c, recs) in all {
      var i :| 0 <= i < |all| && all[i] == RowOf(c, recs);
      assert RowOf(countries[i], recs).country == countries[i];
    }
    if c in countries {
      var i :| 0 <= i < |countries| && countries[i] == c;
      assert all[i] == RowOf(c, recs);
    }
  }

  // ------------------------------------------------------------ high alert

  /** A record with its `country` field populated (absent when no document has its id). */
  datatype Populated = Populated(record: Record, country: Option<Country>)

  /** `populate('country')`: the first country document with the record's id. */
  function Populate(r: Record, countries: seq<Country>): (p: Populated)
    ensures p.record == r
    ensures p.country.Some? ==> p.country.value in countries && p.country.value.id == r.country
    ensures p.country.None? <==> forall c :: c in countries ==> c.id != r.country
  {
    if countries == [] then Populated(r, None)
    else if countries[0].id == r.country then Populated(r, Some(countries[0]))
    else Populate(r, countries[1..])
  }

  function PopulateAll(rs: seq<Record>, countries: seq<Country>): (ps: seq<Populated>)
    ensures |ps| == |rs|
    ensures forall i :: 0 <= i < |rs| ==> ps[i] == Populate(rs[i], countries)
  {
    if rs == [] then [] else [Populate(rs[0], countries)] + PopulateAll(rs[1..], countries)
  }

  /** The `seen` key `s.country?._id?.toString()`: `undefined` (here `None`) for every unpopulated record. */
  function Key(p: Populated): Option<CountryId>
  {
    if p.country.Some? then Some(p.country.value.id) else None
  }

  function PopulatedScore(p: Populated): real
  {
    p.record.overallConflictProb
  }

  /** The `$in: ['Critical', 'High']` match. */
  predicate HighTier(r: Record)
  {
    r.riskTier == Critical || r.riskTier == High
  }

  /** The query result: Critical and High records, populated, highest score first. */
  function Candidates(recs: seq<Record>, countries: seq<Country>): seq<Populated>
  {
    SortDesc(PopulateAll(Filter(recs, HighTier), countries), PopulatedScore)
  }

  /** The `filter` with the `seen` set, started from the keys already in `seen`. */
  function Dedup(s: seq<Populated>, seen: set<Option<CountryId>>): seq<Populated>
  {
    if s == [] then []
    else if Key(s[0]) in seen then Dedup(s[1..], seen)
    else [s[0]] + Dedup(s[1..], seen + {Key(s[0])})
  }

  /** The high-alert list the handler sends. */
  function HighAlertList(recs: seq<Record>, countries: seq<Country>): seq<Populated>
  {
    Dedup(Candidates(recs, countries), {})
  }

  ghost predicate DistinctKeys(s: seq<Populated>)
  {
    forall i, j :: 0 <= i < j < |s| ==> Key(s[i]) != Key(s[j])
  }

  lemma {:induction false} DedupSound(s: seq<Populated>, seen: set<Option<CountryId>>)
    ensures forall x :: x in Dedup(s, seen) ==> x in s && Key(x) !in seen
    ensures DistinctKeys(Dedup(s, seen))
  {
    if s != [] {
      var seen' := if Key(s[0]) in seen then seen else seen + {Key(s[0])};
      DedupSound(s[1..], seen');
      var rest := Dedup(s[1..], seen');
      assert forall x :: x in rest ==> x in s;
      if Key(s[0]) !in seen {
        var out := [s[0]] + rest;
        forall i, j | 0 <= i < j < |out| ensures Key(out[i]) != Key(out[j]) {
          if i == 0 {
            assert out[j] in rest;
          } else {
            assert out[i] == rest[i - 1] && out[j] == rest[j - 1];
          }
        }
      }
    }
  }

  lemma {:induction false} DedupSorted(s: seq<Populated>, seen: set<Option<CountryId>>)
    requires SortedDesc(s, PopulatedScore)
    ensures SortedDesc(Dedup(s, seen), PopulatedScore)
  {
    if s != [] {
      var seen' := if Key(s[0]) in seen then seen else seen + {Key(s[0])};
      assert SortedDesc(s[1..], PopulatedScore);
      DedupSorted(s[1..], seen');
      DedupSound(s[1..], seen');
      var rest := Dedup(s[1..], seen');
      if Key(s[0]) !in seen {
        var out := [s[0]] + rest;
        forall i, j | 0 <= i < j < |out| ensures PopulatedScore(out[i]) >= PopulatedScore(out[j]) {
          if i == 0 {
            assert out[j] in s[1..];
            var q :| 0 <= q < |s[1..]| && s[1..][q] == out[j];
            assert s[q + 1] == out[j];
          } else {
            assert out[i] == rest[i - 1] && out[j] == rest[j - 1];
          }
        }
      }
    }
  }

  /** For every unseen key the list keeps an entry whose score is at least that of any entry with the key. */
  lemma {:induction false} DedupKeepsBest(s: seq<Populated>, seen: set<Option<CountryId>>, x: Populated)
    requires SortedDesc(s, PopulatedScore)
    requires x in s && Key(x) !in seen
    ensures exists y :: y in Dedup(s, seen) && Key(y) == Key(x) && PopulatedScore(y) >= PopulatedScore(x)
  {
    var out := Dedup(s, seen);
    if x == s[0] {
      assert out[0] == x;
    } else if Key(s[0]) !in seen && Key(x) == Key(s[0]) {
      var q :| 0 <= q < |s| && s[q] == x;
      assert out[0] == s[0];
      assert PopulatedScore(s[0]) >= PopulatedScore(s[q]);
    } else {
      var seen' := if Key(s[0]) in seen then seen else seen + {Key(s[0])};
      assert SortedDesc(s[1..], PopulatedScore);
      assert x in s[1..];
      DedupKeepsBest(s[1..], seen', x);
      var y :| y in Dedup(s[1..], seen') && Key(y) == Key(x) && PopulatedScore(y) >= PopulatedScore(x);
      assert y in out;
    }
  }

  lemma CandidatesShape(recs: seq<Record>, countries: seq<Country>)
    ensures SortedDesc(Candidates(recs, countries), PopulatedScore)
    ensures forall p :: p in Candidates(recs, countries) <==>
              p.record in recs && HighTier(p.record) && p == Populate(p.record, countries)
  {
    var ps := PopulateAll(Filter(recs, HighTier), countries);
    forall p ensures p in Candidates(recs, countries) <==> p in ps {
      SortDescMembership(ps, PopulatedScore, p);
    }
    forall p ensures p in ps <==> p.record in recs && HighTier(p.record) && p == Populate(p.record, countries) {
      var hs := Filter(recs, HighTier);
      if p in ps {
        var i :| 0 <= i < |ps| && ps[i] == p;
        assert hs[i] in hs;
      }
      if p.record in recs && HighTier(p.record) && p == Populate(p.record, countries) {
        assert p.record in hs;
        var i :| 0 <= i < |hs| && hs[i] == p.record;
        assert ps[i] == p;
      }
    }
  }

  /** The high-alert list: Critical and High records only, one per key, highest first, and for every key an entry as high as any record with that key. */
  lemma HighAlertListShape(recs: seq<Record>, countries: seq<Country>)
    ensures var out := HighAlertList(recs, countries);
            && (forall p :: p in out ==> p.record in recs && HighTier(p.record) && p == Populate(p.record, countries))
            && DistinctKeys(out)
            && SortedDesc(out, PopulatedScore)
            && forall r :: r in recs && HighTier(r) ==>
                 exists p :: p in out && Key(p) == Key(Populate(r, countries)) && p.record.overallConflictProb >= r.overallConflictProb
  {
    var scores := Candidates(recs, countries);
    var out := Dedup(scores, {});
    CandidatesShape(recs, countries);
    DedupSound(scores, {});
    DedupSorted(scores, {});
    forall r | r in recs && HighTier(r)
      ensures exists p :: p in out && Key(p) == Key(Populate(r, countries)) && p.record.overallConflictProb >= r.overallConflictProb
    {
      DedupKeepsBest(scores, {}, Populate(r, countries));
    }
  }

  /** `GET /api/risk/high-alert`: the first record per `seen` key in score order. */
  method HighAlert(recs: seq<Record>, countries: seq<Country>) returns (unique: seq<Populated>)
    ensures unique == HighAlertList(recs, countries)
  {
    var scores := Candidates(recs, countries);
    var seen: set<Option<CountryId>> := {};
    unique := [];
    for i := 0 to |scores|
      invariant unique + Dedup(scores[i..], seen) == Dedup(scores, {})
    {
      var id := Key(scores[i]);
      assert scores[i..][1..] == scores[i + 1..];
      assert Dedup(scores[i..], seen) ==
        if id in seen then Dedup(scores[i + 1..], seen) else [scores[i]] + Dedup(scores[i + 1..], seen + {id});
      if id !in seen {
        assert unique + ([scores[i]] + Dedup(scores[i + 1..], seen + {id})) ==
               (unique + [scores[i]]) + Dedup(scores[i + 1..], seen + {id});
        seen := seen + {id};
        unique := unique + [scores[i]];
      }
    }
    assert scores[|scores|..] == [];
  }

  /** A populated entry is one of its country's own records, and no other populated entry has that country. */
  lemma HighAlertPerCountry(recs: seq<Record>, countries: seq<Country>, p: Populated)
    requires p in HighAlertList(recs, countries) && p.country.Some?
    ensures p.country.value.id == p.record.country && p.country.value in countries
    ensures forall q :: q in HighAlertList(recs, countries) && q != p ==> q.record.country != p.record.country || q.country.None?
  {
    var scores := Candidates(recs, countries);
    CandidatesShape(recs, countries);
    DedupSound(scores, {});
    var out := HighAlertList(recs, countries);
    forall q | q in out && q != p && q.country.Some? ensures q.record.country != p.record.country {
      var i :| 0 <= i < |out| && out[i] == p;
      var j :| 0 <= j < |out| && out[j] == q;
      assert i != j;
    }
  }

  // -------------------------------------------------------------- simulate

  datatype HttpError = HttpError(status: int, message: string)

  /** The response data: both assessments, the rounded score change and the scenario as sent. */
  datatype SimResponse = SimResponse(baseline: Assessment, simulated: Assessment, delta: real, scenario: Option<Overrides>)

  /** `findOne({$or: [{iso3: code}, {iso2: code}]})`: the first document matching either code. */
  function FindCountry(countries: seq<Country>, code: string): (c: Option<Country>)
    ensures c.Some? ==> c.value in countries && (c.value.iso3 == code || c.value.iso2 == code)
    ensures c.None? <==> forall d :: d in countries ==> d.iso3 != code && d.iso2 != code
  {
    if countries == [] then None
    else if countries[0].iso3 == code || countries[0].iso2 == code then Some(countries[0])
    else FindCountry(countries[1..], code)
  }

  /** The validation and lookups before any scoring: the record to simulate on, or the error response. */
  function SimTarget(iso: Option<string>, countries: seq<Country>, recs: seq<Record>): Result<Record, HttpError>
  {
    if iso.None? || iso.value == [] then Failure(HttpError(400, "iso is required"))
    else
      match FindCountry(countries, ToUpper(iso.value))
      case None => Failure(HttpError(404, "Country not found"))
      case Some(c) =>
        match LatestOf(recs, c.id, ByYear)
        case None => Failure(HttpError(404, "No risk data for this country"))
        case Some(r) => Success(r)
  }

  /** The error cases in order, and the record chosen otherwise. */
  lemma SimTargetCases(iso: Option<string>, countries: seq<Country>, recs: seq<Record>)
    ensures SimTarget(iso, countries, recs) == Failure(HttpError(400, "iso is required")) <==> iso.None? || iso.value == []
    ensures SimTarget(iso, countries, recs) == Failure(HttpError(404, "Country not found")) <==>
              iso.Some? && iso.value != [] && forall d :: d in countries ==> d.iso3 != ToUpper(iso.value) && d.iso2 != ToUpper(iso.value)
    ensures SimTarget(iso, countries, recs) == Failure(HttpError(404, "No risk data for this country")) <==>
              iso.Some? && iso.value != [] && FindCountry(countries, ToUpper(iso.value)).Some? &&
              forall x :: x in recs ==> x.country != FindCountry(countries, ToUpper(iso.value)).value.id
    ensures SimTarget(iso, countries, recs).Success? <==>
              iso.Some? && iso.value != [] && FindCountry(countries, ToUpper(iso.value)).Some? &&
              exists x :: x in recs && x.country == FindCountry(countries, ToUpper(iso.value)).value.id
    ensures SimTarget(iso, countries, recs).Success? ==>
              iso.Some? && iso.value != [] &&
              exists c :: c in countries && (c.iso3 == ToUpper(iso.value) || c.iso2 == ToUpper(iso.value)) &&
                          c.id == SimTarget(iso, countries, recs).value.country &&
                          IsLatestIn(SimTarget(iso, countries, recs).value, recs, ByYear)
  {
    if iso.Some? && iso.value != [] {
      var fc := FindCountry(countries, ToUpper(iso.value));
      if fc.Some? {
        var l := LatestOf(recs, fc.value.id, ByYear);
        if l.Some? {
          assert IsLatestIn(l.value, recs, ByYear);
        }
      }
    }
  }

  /** The stored components as the engine's input. */
  function BaseScores(r: Record): Scores
  {
    Scores(Num(r.militaryRisk), Num(r.economicRisk), Num(r.politicalRisk),
           Num(r.allianceRisk), Num(r.cyberRisk), Num(r.socialRisk))
  }

  /** `overrides || {}`. */
  function OverridesOrEmpty(o: Option<Overrides>): Overrides
  {
    if o.Some? then o.value else NoOverrides
  }

  /** `parseFloat((simulated.overallConflictProb - baseline.overallConflictProb).toFixed(2))`. */
  function Delta(baseline: Assessment, simulated: Assessment): real
  {
    Round2(simulated.overallConflictProb - baseline.overallConflictProb)
  }

  /** Equal scores give a zero change. */
  lemma DeltaOfEqualScores(baseline: Assessment, simulated: Assessment)
    requires baseline.overallConflictProb == simulated.overallConflictProb
    ensures Delta(baseline, simulated) == 0.0
  {
  }

  /** Two assessments of the same input differ at most in their random field. */
  lemma SameInputSameScore(a1: Assessment, a2: Assessment, s: Scores, r1: real, r2: real)
    requires Assesses(a1, s, r1) && Assesses(a2, s, r2)
    ensures a1.overallConflictProb == a2.overallConflictProb && a1.riskTier == a2.riskTier
  {
  }

  /** The success response: baseline and scenario assessments of the stored components, and their rounded difference. */
  method Respond(base: Scores, overrides: Option<Overrides>, randomBase: real, randomSim: real) returns (resp: SimResponse)
    ensures Assesses(resp.baseline, base, randomBase)
    ensures Assesses(resp.simulated, Adjusted(base, OverridesOrEmpty(overrides)), randomSim)
    ensures resp.delta == Delta(resp.baseline, resp.simulated)
    ensures resp.scenario == overrides
    ensures OverridesOrEmpty(overrides) == NoOverrides ==>
              resp.delta == 0.0 &&
              resp.simulated.overallConflictProb == resp.baseline.overallConflictProb &&
              resp.simulated.riskTier == resp.baseline.riskTier
  {
    var baseline := ComputeRisk(base, randomBase);
    var simulated := SimulateScenario(base, OverridesOrEmpty(overrides), randomSim);
    var delta := Delta(baseline, simulated);
    if OverridesOrEmpty(overrides) == NoOverrides {
      AdjustedLeavesOthers(base, NoOverrides);
      SameInputSameScore(baseline, simulated, base, randomBase, randomSim);
      DeltaOfEqualScores(baseline, simulated);
    }
    resp := SimResponse(baseline, simulated, delta, overrides);
  }

  /** `POST /api/risk/simulate`; the two random draws are those of the baseline and the scenario. */
  method Simulate(iso: Option<string>, overrides: Option<Overrides>, countries: seq<Country>, recs: seq<Record>,
                  randomBase: real, randomSim: real)
    returns (res: Result<SimResponse, HttpError>)
    ensures SimTarget(iso, countries, recs).Failure? ==> res == Failure(SimTarget(iso, countries, recs).error)
    ensures SimTarget(iso, countries, recs).Success? ==>
              var base := BaseScores(SimTarget(iso, countries, recs).value);
              && res.Success?
              && Assesses(res.value.baseline, base, randomBase)
              && Assesses(res.value.simulated, Adjusted(base, OverridesOrEmpty(overrides)), randomSim)
              && res.value.delta == Delta(res.value.baseline, res.value.simulated)
              && res.value.scenario == overrides
    ensures res.Success? && OverridesOrEmpty(overrides) == NoOverrides ==>
              res.value.delta == 0.0 &&
              res.value.simulated.overallConflictProb == res.value.baseline.overallConflictProb &&
              res.value.simulated.riskTier == res.value.baseline.riskTier
  {
    var target := SimTarget(iso, countries, recs);
    if target.Failure? {
      return Failure(target.error);
    }
    var resp := Respond(BaseScores(target.value), overrides, randomBase, randomSim);
    res := Success(resp);
  }
}
