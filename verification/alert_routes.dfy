/**
 * The alert endpoints as functions over a snapshot of the stored records:
 * the alert feed (latest record per country, at or above a threshold,
 * highest first, joined with its country document) and the per-tier
 * statistics of the latest records.
 */
module AlertRoutes {
  import opened Wrappers
  import opened Seqs
  import opened RiskEngine
  import opened RiskRecords

  // ------------------------------------------------------------ alert feed

  /** `parseFloat(req.query.threshold || 60)`; `None` is an absent or empty parameter. */
  function Threshold(query: Option<real>): real
  {
    if query.Some? then query.value else 60.0
  }

  lemma ThresholdDefault()
    ensures Threshold(None) == 60.0
    ensures forall t :: Threshold(Some(t)) == t
  {
  }

  /** A record joined with its country document (`countryData`). */
  datatype Alert = Alert(record: Record, countryData: Country)

  function Score(r: Record): real
  {
    r.overallConflictProb
  }

  function AlertScore(a: Alert): real
  {
    a.record.overallConflictProb
  }

  /** `$lookup` of the country documents with the record's country id, then `$unwind`. */
  function Attach(r: Record, countries: seq<Country>): seq<Alert>
  {
    if countries == [] then []
    else (if countries[0].id == r.country then [Alert(r, countries[0])] else []) + Attach(r, countries[1..])
  }

  function Unwind(rs: seq<Record>, countries: seq<Country>): seq<Alert>
  {
    if rs == [] then [] else Attach(rs[0], countries) + Unwind(rs[1..], countries)
  }

  /** The `$match` on the score. */
  function AtOrAbove(threshold: real): Record -> bool
  {
    (r: Record) => r.overallConflictProb >= threshold
  }

  /** The alert pipeline of `GET /api/alerts`. */
  function AlertFeed(recs: seq<Record>, countries: seq<Country>, threshold: real): seq<Alert>
  {
    var latest := LatestPerCountry(recs, ByYearMonth);
    var matched := Filter(latest, AtOrAbove(threshold));
    Unwind(SortDesc(matched, Score), countries)
  }

  lemma {:induction false} AttachMembership(r: Record, countries: seq<Country>, a: Alert)
    ensures a in Attach(r, countries) <==> a.record == r && a.countryData in countries && a.countryData.id == r.country
  {
    if countries != [] {
      AttachMembership(r, countries[1..], a);
      assert countries == [countries[0]] + countries[1..];
    }
  }

  lemma {:induction false} UnwindMembership(rs: seq<Record>, countries: seq<Country>, a: Alert)
    ensures a in Unwind(rs, countries) <==> a.record in rs && a.countryData in countries && a.countryData.id == a.record.country
  {
    if rs != [] {
      UnwindMembership(rs[1..], countries, a);
      AttachMembership(rs[0], countries, a);
      assert rs == [rs[0]] + rs[1..];
    }
  }

  lemma {:induction false} UnwindSorted(rs: seq<Record>, countries: seq<Country>)
    requires SortedDesc(rs, Score)
    ensures SortedDesc(Unwind(rs, countries), AlertScore)
  {
    if rs != [] {
      var head, tail := Attach(rs[0], countries), Unwind(rs[1..], countries);
      assert SortedDesc(rs[1..], Score);
      UnwindSorted(rs[1..], countries);
      forall a | a in head ensures a.record == rs[0] {
        AttachMembership(rs[0], countries, a);
      }
      forall b | b in tail ensures AlertScore(b) <= Score(rs[0]) {
        UnwindMembership(rs[1..], countries, b);
        var j :| 0 <= j < |rs[1..]| && rs[1..][j] == b.record;
        assert rs[j + 1] == b.record;
      }
      var out := head + tail;
      forall i, j | 0 <= i < j < |out| ensures AlertScore(out[i]) >= AlertScore(out[j]) {
        if j < |head| {
          assert out[i] in head && out[j] in head;
        } else if i < |head| {
          assert out[i] in head && out[j] in tail;
        } else {
          assert out[i] == tail[i - |head|] && out[j] == tail[j - |head|];
        }
      }
    }
  }

  /** Every alert is a latest record of its country, at or above the threshold, with its own country document. */
  lemma AlertFeedSound(recs: seq<Record>, countries: seq<Country>, threshold: real, a: Alert)
    requires a in AlertFeed(recs, countries, threshold)
    ensures a.record.overallConflictProb >= threshold
    ensures IsLatestIn(a.record, recs, ByYearMonth)
    ensures a.countryData in countries && a.countryData.id == a.record.country
  {
    var latest := LatestPerCountry(recs, ByYearMonth);
    var matched := Filter(latest, AtOrAbove(threshold));
    UnwindMembership(SortDesc(matched, Score), countries, a);
    SortDescMembership(matched, Score, a.record);
  }

  /** Every latest record at or above the threshold appears once per matching country document. */
  lemma AlertFeedComplete(recs: seq<Record>, countries: seq<Country>, threshold: real, r: Record, c: Country)
    requires r in LatestPerCountry(recs, ByYearMonth) && r.overallConflictProb >= threshold
    requires c in countries && c.id == r.country
    ensures Alert(r, c) in AlertFeed(recs, countries, threshold)
  {
    var latest := LatestPerCountry(recs, ByYearMonth);
    var matched := Filter(latest, AtOrAbove(threshold));
    SortDescMembership(matched, Score, r);
    UnwindMembership(SortDesc(matched, Score), countries, Alert(r, c));
  }

  /** The feed is ordered by score, highest first. */
  lemma AlertFeedSorted(recs: seq<Record>, countries: seq<Country>, threshold: real)
    ensures SortedDesc(AlertFeed(recs, countries, threshold), AlertScore)
  {
    var latest := LatestPerCountry(recs, ByYearMonth);
    var matched := Filter(latest, AtOrAbove(threshold));
    UnwindSorted(SortDesc(matched, Score), countries);
  }

  ghost predicate UniqueIds(countries: seq<Country>)
  {
    forall i, j :: 0 <= i < j < |countries| ==> countries[i].id != countries[j].id
  }

  lemma {:induction false} AttachNone(r: Record, countries: seq<Country>)
    requires forall c :: c in countries ==> c.id != r.country
    ensures Attach(r, countries) == []
  {
    if countries != [] {
      AttachNone(r, countries[1..]);
    }
  }

  lemma {:induction false} AttachAtMostOne(r: Record, countries: seq<Country>)
    requires UniqueIds(countries)
    ensures |Attach(r, countries)| <= 1
  {
    if countries != [] {
      var rest := countries[1..];
      assert UniqueIds(rest) by {
        forall i, j | 0 <= i < j < |rest| ensures rest[i].id != rest[j].id {
          assert rest[i] == countries[i + 1] && rest[j] == countries[j + 1];
        }
      }
      AttachAtMostOne(r, rest);
      if countries[0].id == r.country {
        forall c | c in rest ensures c.id != r.country {
          var j :| 0 <= j < |rest| && rest[j] == c;
          assert countries[j + 1] == c;
        }
        AttachNone(r, rest);
      }
    }
  }

  lemma {:induction false} UnwindDistinct(rs: seq<Record>, countries: seq<Country>)
    requires DistinctCountries(rs) && UniqueIds(countries)
    ensures forall i, j :: 0 <= i < j < |Unwind(rs, countries)| ==>
              Unwind(rs, countries)[i].record.country != Unwind(rs, countries)[j].record.country
  {
    if rs != [] {
      var head, tail := Attach(rs[0], countries), Unwind(rs[1..], countries);
      assert DistinctCountries(rs[1..]) by {
        forall i, j | 0 <= i < j < |rs[1..]| ensures rs[1..][i].country != rs[1..][j].country {
          assert rs[1..][i] == rs[i + 1] && rs[1..][j] == rs[j + 1];
        }
      }
      UnwindDistinct(rs[1..], countries);
      AttachAtMostOne(rs[0], countries);
      forall b | b in tail ensures b.record.country != rs[0].country {
        UnwindMembership(rs[1..], countries, b);
        var j :| 0 <= j < |rs[1..]| && rs[1..][j] == b.record;
        assert rs[j + 1] == b.record;
      }
      var out := head + tail;
      forall i, j | 0 <= i < j < |out| ensures out[i].record.country != out[j].record.country {
        if i < |head| {
          assert i == 0 && j >= 1 && out[j] in tail;
          AttachMembership(rs[0], countries, out[i]);
        } else {
          assert out[i] == tail[i - |head|] && out[j] == tail[j - |head|];
        }
      }
    }
  }

  lemma {:induction false} FilterKeepsDistinct(s: seq<Record>, p: Record -> bool)
    requires DistinctCountries(s)
    ensures DistinctCountries(Filter(s, p))
  {
    if s != [] {
      assert DistinctCountries(s[1..]) by {
        forall i, j | 0 <= i < j < |s[1..]| ensures s[1..][i].country != s[1..][j].country {
          assert s[1..][i] == s[i + 1] && s[1..][j] == s[j + 1];
        }
      }
      FilterKeepsDistinct(s[1..], p);
      var rest := Filter(s[1..], p);
      forall y | y in rest ensures y.country != s[0].country {
        var j :| 0 <= j < |s[1..]| && s[1..][j] == y;
        assert s[j + 1] == y;
      }
    }
  }

  /** With unique country ids, the feed holds at most one alert per country. */
  lemma AlertFeedOnePerCountry(recs: seq<Record>, countries: seq<Country>, threshold: real)
    requires UniqueIds(countries)
    ensures var out := AlertFeed(recs, countries, threshold);
            forall i, j :: 0 <= i < j < |out| ==> out[i].record.country != out[j].record.country
  {
    var latest := LatestPerCountry(recs, ByYearMonth);
    var matched := Filter(latest, AtOrAbove(threshold));
    FilterKeepsDistinct(latest, AtOrAbove(threshold));
    var sorted := SortDesc(matched, Score);
    DistinctCountriesCard(matched);
    assert Countries(sorted) == Countries(matched) by {
      forall c ensures c in Countries(sorted) <==> c in Countries(matched) {
        if c in Countries(sorted) {
          var r: Record :| r in sorted && r.country == c;
          SortDescMembership(matched, Score, r);
        }
        if c in Countries(matched) {
          var r: Record :| r in matched && r.country == c;
          SortDescMembership(matched, Score, r);
        }
      }
    }
    DistinctCountriesCard(sorted);
    UnwindDistinct(sorted, countries);
  }

  // ------------------------------------------------------------ statistics

  /** One `$group` bucket of the statistics pipeline. */
  datatype TierGroup = TierGroup(tier: Tier, count: nat, avgRisk: real)

  datatype TierStats = TierStats(byTier: seq<TierGroup>, totalMonitored: nat)

  const AllTiers: seq<Tier> := [Low, Moderate, High, Critical]

  function ScoreSum(rs: seq<Record>): real
  {
    if rs == [] then 0.0 else rs[0].overallConflictProb + ScoreSum(rs[1..])
  }

  function Members(latest: seq<Record>, t: Tier): seq<Record>
  {
    Filter(latest, (r: Record) => r.riskTier == t)
  }

  /** Groups by stored tier: a count and a mean score for every tier that occurs. */
  function GroupByTier(latest: seq<Record>, tiers: seq<Tier>): seq<TierGroup>
  {
    if tiers == [] then []
    else
      GroupOf(latest, tiers[0]) + GroupByTier(latest, tiers[1..])
  }

  /** `GET /api/alerts/stats`: latest record per country by year only, grouped by tier. */
  function Stats(recs: seq<Record>): TierStats
  {
    TierStats(GroupByTier(LatestPerCountry(recs, ByYear), AllTiers), |Countries(recs)|)
  }

  /** The bucket of tier `t`, absent when no latest record has that tier. */
  function GroupOf(latest: seq<Record>, t: Tier): seq<TierGroup>
  {
    var members := Members(latest, t);
    if |members| > 0 then [TierGroup(t, |members|, ScoreSum(members) / |members| as real)] else []
  }

  lemma GroupOfShape(latest: seq<Record>, t: Tier, g: TierGroup)
    requires g in GroupOf(latest, t)
    ensures g.tier == t
    ensures g.count >= 1 && g.count == |Members(latest, t)|
    ensures g.avgRisk == ScoreSum(Members(latest, t)) / g.count as real
  {
    var members := Members(latest, t);
    assert g == TierGroup(t, |members|, ScoreSum(members) / |members| as real);
  }

  lemma {:induction false} GroupByTierShape(latest: seq<Record>, tiers: seq<Tier>, g: TierGroup)
    requires g in GroupByTier(latest, tiers)
    ensures g.tier in tiers
    ensures g.count >= 1 && g.count == |Members(latest, g.tier)|
    ensures g.avgRisk == ScoreSum(Members(latest, g.tier)) / g.count as real
  {
    if tiers != [] {
      assert GroupByTier(latest, tiers) == GroupOf(latest, tiers[0]) + GroupByTier(latest, tiers[1..]);
      if g in GroupOf(latest, tiers[0]) {
        GroupOfShape(latest, tiers[0], g);
      } else {
        GroupByTierShape(latest, tiers[1..], g);
      }
    }
  }

  /** Each group counts at least one record, and its average is the mean score of its tier's latest records. */
  lemma StatsGroups(recs: seq<Record>, g: TierGroup)
    requires g in Stats(recs).byTier
    ensures g.count >= 1
    ensures g.count == |Members(LatestPerCountry(recs, ByYear), g.tier)|
    ensures g.avgRisk == ScoreSum(Members(LatestPerCountry(recs, ByYear), g.tier)) / g.count as real
  {
    GroupByTierShape(LatestPerCountry(recs, ByYear), AllTiers, g);
  }

  /** Every tier that occurs among the latest records has a group. */
  lemma {:induction false} GroupByTierComplete(latest: seq<Record>, tiers: seq<Tier>, r: Record)
    requires r in latest && r.riskTier in tiers
    ensures exists g :: g in GroupByTier(latest, tiers) && g.tier == r.riskTier
  {
    if tiers[0] == r.riskTier {
      var members := Members(latest, tiers[0]);
      assert r in members;
      var g := TierGroup(tiers[0], |members|, ScoreSum(members) / |members| as real);
      assert g in GroupByTier(latest, tiers);
    } else {
      GroupByTierComplete(latest, tiers[1..], r);
      var g :| g in GroupByTier(latest, tiers[1..]) && g.tier == r.riskTier;
      assert g in GroupByTier(latest, tiers);
    }
  }

  function CountSum(groups: seq<TierGroup>): nat
  {
    if groups == [] then 0 else groups[0].count + CountSum(groups[1..])
  }

  lemma {:induction false} CountSumAppend(a: seq<TierGroup>, b: seq<TierGroup>)
    ensures CountSum(a + b) == CountSum(a) + CountSum(b)
  {
    if a != [] {
      assert (a + b)[0] == a[0];
      assert (a + b)[1..] == a[1..] + b;
      CountSumAppend(a[1..], b);
    } else {
      assert a + b == b;
    }
  }

  function TierCountSum(latest: seq<Record>, tiers: seq<Tier>): nat
  {
    if tiers == [] then 0 else |Members(latest, tiers[0])| + TierCountSum(latest, tiers[1..])
  }

  lemma {:induction false} GroupCountsAreTierCounts(latest: seq<Record>, tiers: seq<Tier>)
    ensures CountSum(GroupByTier(latest, tiers)) == TierCountSum(latest, tiers)
  {
    if tiers != [] {
      CountSumAppend(GroupOf(latest, tiers[0]), GroupByTier(latest, tiers[1..]));
      GroupCountsAreTierCounts(latest, tiers[1..]);
    }
  }

  lemma MembersStep(latest: seq<Record>, t: Tier)
    requires latest != []
    ensures |Members(latest, t)| == (if latest[0].riskTier == t then 1 else 0) + |Members(latest[1..], t)|
  {
  }

  lemma FourTiers(latest: seq<Record>)
    ensures TierCountSum(latest, AllTiers) ==
      |Members(latest, Low)| + |Members(latest, Moderate)| + |Members(latest, High)| + |Members(latest, Critical)|
  {
    assert [Critical][1..] == [];
    assert TierCountSum(latest, [Critical]) == |Members(latest, Critical)|;
    assert [High, Critical][1..] == [Critical];
    assert TierCountSum(latest, [High, Critical]) == |Members(latest, High)| + |Members(latest, Critical)|;
    assert [Moderate, High, Critical][1..] == [High, Critical];
    assert AllTiers[1..] == [Moderate, High, Critical];
  }

  /** The four tiers partition any record list. */
  lemma {:induction false} TiersPartition(latest: seq<Record>)
    ensures TierCountSum(latest, AllTiers) == |latest|
  {
    FourTiers(latest);
    if latest != [] {
      TiersPartition(latest[1..]);
      FourTiers(latest[1..]);
      MembersStep(latest, Low);
      MembersStep(latest, Moderate);
      MembersStep(latest, High);
      MembersStep(latest, Critical);
    }
  }

  /** The per-tier counts add up to the number of monitored countries. */
  lemma StatsCountsSumToTotal(recs: seq<Record>)
    ensures CountSum(Stats(recs).byTier) == Stats(recs).totalMonitored
  {
    var latest := LatestPerCountry(recs, ByYear);
    GroupCountsAreTierCounts(latest, AllTiers);
    TiersPartition(latest);
    LatestPerCountryCount(recs, ByYear);
  }
}
