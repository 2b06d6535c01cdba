/**
 * The rule-based conflict-risk engine: a weighted composite of six component
 * scores, clamped to [0, 100] and rounded to two places; a tier from fixed
 * thresholds; a percentage attribution of the composite; a templated
 * explanation; and scenario simulation that perturbs components and rescores.
 *
 * Numbers are reals: the engine's arithmetic is exact here, with the
 * `toFixed(2)` rounding written out as `Round2`.
 */
module RiskEngine {
  import opened Wrappers
  import opened Seqs
  import opened JsText

  // ---------------------------------------------------------------- factors

  /** The keys of the engine's weight table, in their declaration order. */
  datatype Factor =
    | MilitaryEscalation
    | EconomicStress
    | PoliticalInstability
    | BorderTension
    | CyberVulnerability
    | AllianceIsolation

  const Factors: seq<Factor> :=
    [MilitaryEscalation, EconomicStress, PoliticalInstability, BorderTension, CyberVulnerability, AllianceIsolation]

  /** Position of a key in the weight table (the iteration order of `Object.entries`). */
  function KeyOrder(k: Factor): nat
  {
    match k
    case MilitaryEscalation => 0
    case EconomicStress => 1
    case PoliticalInstability => 2
    case BorderTension => 3
    case CyberVulnerability => 4
    case AllianceIsolation => 5
  }

  function Weight(k: Factor): real
  {
    match k
    case MilitaryEscalation => 0.25
    case EconomicStress => 0.20
    case PoliticalInstability => 0.20
    case BorderTension => 0.15
    case CyberVulnerability => 0.10
    case AllianceIsolation => 0.10
  }

  /** Human-readable factor names used in explanations. */
  function Label(k: Factor): string
  {
    match k
    case MilitaryEscalation => "Military Escalation"
    case EconomicStress => "Economic Stress"
    case PoliticalInstability => "Political Instability"
    case BorderTension => "Border & Alliance Tensions"
    case CyberVulnerability => "Cyber Vulnerability"
    case AllianceIsolation => "Alliance Isolation"
  }

  lemma FactorsAreTheKeys()
    ensures |Factors| == 6
    ensures forall i :: 0 <= i < |Factors| ==> KeyOrder(Factors[i]) == i
    ensures forall k: Factor :: k in Factors
  {
    forall k: Factor ensures k in Factors {
      assert Factors[KeyOrder(k)] == k;
    }
  }

  function WeightSum(ks: seq<Factor>): real
  {
    if ks == [] then 0.0 else Weight(ks[0]) + WeightSum(ks[1..])
  }

  lemma WeightsSumToOne()
    ensures WeightSum(Factors) == 1.0
  {
    assert Factors[1..][1..][1..][1..][1..][1..] == [];
  }

  // ----------------------------------------------------------------- inputs

  /**
   * A component value as JavaScript sees it: absent (`undefined`), a value
   * that is not a number (`NaN`, produced by arithmetic on `undefined`), or a
   * number. JSON `null` acts as 0 in every operation of the engine and is
   * written `Num(0.0)`.
   */
  datatype Field = Undefined | NaN | Num(x: real)

  /** The engine's argument object: `militaryRisk`, `economicRisk`, ... */
  datatype Scores = Scores(
    militaryRisk: Field,
    economicRisk: Field,
    politicalRisk: Field,
    allianceRisk: Field,
    cyberRisk: Field,
    socialRisk: Field)

  /** The argument `{}`: every component absent. */
  const EmptyScores := Scores(Undefined, Undefined, Undefined, Undefined, Undefined, Undefined)

  /** A destructuring default: only `undefined` is replaced, by 50. */
  function WithDefault(f: Field): (r: Field)
    ensures r != Undefined
    ensures f == Undefined ==> r == Num(50.0)
    ensures f != Undefined ==> r == f
  {
    if f.Undefined? then Num(50.0) else f
  }

  /** `f || 0`: the numeric value, with every falsy value (NaN, 0) as 0. */
  function Numeric(f: Field): real
  {
    if f.Num? then f.x else 0.0
  }

  datatype Entry = Entry(factor: Factor, value: Field)

  /** The `inputs` object: the defaulted components keyed by factor, in key order. */
  function Inputs(s: Scores): (es: seq<Entry>)
    ensures |es| == |Factors|
    ensures forall i :: 0 <= i < |es| ==> es[i].factor == Factors[i] && es[i].value != Undefined
    ensures es[0].value == WithDefault(s.militaryRisk) && es[1].value == WithDefault(s.economicRisk)
    ensures es[2].value == WithDefault(s.politicalRisk) && es[3].value == WithDefault(s.allianceRisk)
    ensures es[4].value == WithDefault(s.cyberRisk) && es[5].value == WithDefault(s.socialRisk)
  {
    [ Entry(MilitaryEscalation, WithDefault(s.militaryRisk)),
      Entry(EconomicStress, WithDefault(s.economicRisk)),
      Entry(PoliticalInstability, WithDefault(s.politicalRisk)),
      Entry(BorderTension, WithDefault(s.allianceRisk)),
      Entry(CyberVulnerability, WithDefault(s.cyberRisk)),
      Entry(AllianceIsolation, WithDefault(s.socialRisk)) ]
  }

  lemma InputsHaveDistinctFactors(s: Scores)
    ensures forall i, j :: 0 <= i < j < |Inputs(s)| ==> KeyOrder(Inputs(s)[i].factor) < KeyOrder(Inputs(s)[j].factor)
  {
    FactorsAreTheKeys();
  }

  // -------------------------------------------------------------- composite

  function Contribution(e: Entry): real
  {
    Weight(e.factor) * Numeric(e.value)
  }

  /** The weighted sum `reduce((sum, [k, w]) => sum + w * (inputs[k] || 0), 0)`. */
  function RawTotal(es: seq<Entry>): real
  {
    if es == [] then 0.0 else Contribution(es[0]) + RawTotal(es[1..])
  }

  /** The raw total is the weighted sum of the six defaulted components. */
  lemma {:induction false} RawTotalIsWeightedSum(s: Scores)
    ensures RawTotal(Inputs(s)) ==
      0.25 * Numeric(WithDefault(s.militaryRisk)) + 0.20 * Numeric(WithDefault(s.economicRisk))
      + 0.20 * Numeric(WithDefault(s.politicalRisk)) + 0.15 * Numeric(WithDefault(s.allianceRisk))
      + 0.10 * Numeric(WithDefault(s.cyberRisk)) + 0.10 * Numeric(WithDefault(s.socialRisk))
  {
    var es := Inputs(s);
    assert es[1..][1..][1..][1..][1..][1..] == [];
    assert RawTotal(es[1..][1..][1..][1..][1..]) == Contribution(es[5]);
    assert RawTotal(es[1..][1..][1..][1..]) == Contribution(es[4]) + Contribution(es[5]);
    assert RawTotal(es[1..][1..][1..]) == Contribution(es[3]) + Contribution(es[4]) + Contribution(es[5]);
    assert RawTotal(es[1..][1..]) == Contribution(es[2]) + Contribution(es[3]) + Contribution(es[4]) + Contribution(es[5]);
  }

  function Min(a: real, b: real): real { if a <= b then a else b }
  function Max(a: real, b: real): real { if a >= b then a else b }

  /** `Math.min(Math.max(x, 0), 100)`. */
  function Clamp(x: real): (r: real)
    ensures 0.0 <= r <= 100.0
    ensures 0.0 <= x <= 100.0 ==> r == x
    ensures x < 0.0 ==> r == 0.0
    ensures x > 100.0 ==> r == 100.0
  {
    Min(Max(x, 0.0), 100.0)
  }

  /** The clamped composite, before rounding; the tier is taken from this value. */
  function Composite(s: Scores): real
  {
    Clamp(RawTotal(Inputs(s)))
  }

  // --------------------------------------------------------------- rounding

  function RoundHalfUp2(x: real): real
  {
    ((x * 100.0 + 0.5).Floor as real) / 100.0
  }

  /** `parseFloat(x.toFixed(2))`: to two places, halves away from zero. */
  function Round2(x: real): real
  {
    if x < 0.0 then -RoundHalfUp2(-x) else RoundHalfUp2(x)
  }

  lemma Round2Error(x: real)
    ensures x - 0.005 <= Round2(x) <= x + 0.005
  {
  }

  /** Rounding keeps a value inside any range with integer ends. */
  lemma Round2KeepsRange(x: real, lo: int, hi: int)
    requires lo as real <= x <= hi as real
    ensures lo as real <= Round2(x) <= hi as real
  {
    if x < 0.0 {
      HalfUpKeepsRange(-x, if hi > 0 then 0 else -hi, -lo);
    } else {
      HalfUpKeepsRange(x, if lo < 0 then 0 else lo, hi);
    }
  }

  lemma HalfUpKeepsRange(x: real, lo: int, hi: int)
    requires 0 <= lo && lo as real <= x <= hi as real
    ensures lo as real <= RoundHalfUp2(x) <= hi as real
  {
    var n := (x * 100.0 + 0.5).Floor;
    assert n as real <= x * 100.0 + 0.5 < n as real + 1.0;
    var top, bottom := 100 * hi, 100 * lo;
    assert top as real == hi as real * 100.0;
    assert bottom as real == lo as real * 100.0;
    assert n <= top;
    assert n >= bottom;
    assert RoundHalfUp2(x) == n as real / 100.0;
  }

  lemma Round2IsOdd(x: real)
    ensures Round2(-x) == -Round2(x)
  {
  }

  // ------------------------------------------------------------------ tiers

  datatype Tier = Low | Moderate | High | Critical

  function TierName(t: Tier): string
  {
    match t
    case Low => "Low"
    case Moderate => "Moderate"
    case High => "High"
    case Critical => "Critical"
  }

  /** Severity rank: Low < Moderate < High < Critical. */
  function Rank(t: Tier): nat
  {
    match t
    case Low => 0
    case Moderate => 1
    case High => 2
    case Critical => 3
  }

  /** The threshold cascade `< 30 ? Low : < 60 ? Moderate : < 80 ? High : Critical`. */
  function TierOf(score: real): Tier
  {
    if score < 30.0 then Low
    else if score < 60.0 then Moderate
    else if score < 80.0 then High
    else Critical
  }

  /** The tier bands as a table: [0,30) Low, [30,60) Moderate, [60,80) High, [80,100] Critical. */
  predicate InBand(x: real, t: Tier)
  {
    match t
    case Low => x < 30.0
    case Moderate => 30.0 <= x < 60.0
    case High => 60.0 <= x < 80.0
    case Critical => 80.0 <= x
  }

  lemma TierOfMatchesBands(x: real, t: Tier)
    ensures TierOf(x) == t <==> InBand(x, t)
  {
  }

  lemma TierOfIsMonotone(x: real, y: real)
    requires x <= y
    ensures Rank(TierOf(x)) <= Rank(TierOf(y))
  {
  }

  // ------------------------------------------------------------ attribution

  /** `total || 1`: the raw total, or 1 when it is 0. */
  function Divisor(es: seq<Entry>): real
  {
    var t := RawTotal(es);
    if t == 0.0 then 1.0 else t
  }

  /** One entry's share of the composite, in percent, before rounding. */
  function Share(es: seq<Entry>, e: Entry): real
  {
    Contribution(e) / Divisor(es) * 100.0
  }

  function ShareTotal(es: seq<Entry>, ps: seq<Entry>): real
  {
    if ps == [] then 0.0 else Share(es, ps[0]) + ShareTotal(es, ps[1..])
  }

  lemma {:induction false} ShareTotalScales(es: seq<Entry>, ps: seq<Entry>)
    ensures ShareTotal(es, ps) == RawTotal(ps) / Divisor(es) * 100.0
  {
    if ps != [] {
      ShareTotalScales(es, ps[1..]);
      SumOfPercentages(Contribution(ps[0]), RawTotal(ps[1..]), Divisor(es));
    }
  }

  lemma SumOfPercentages(a: real, b: real, d: real)
    requires d != 0.0
    ensures a / d * 100.0 + b / d * 100.0 == (a + b) / d * 100.0
  {
  }

  lemma DivisorNonZero(es: seq<Entry>)
    ensures Divisor(es) != 0.0
    ensures RawTotal(es) != 0.0 ==> Divisor(es) == RawTotal(es)
  {
  }

  /** Whenever the raw total is not 0, the unrounded shares add up to exactly 100. */
  lemma SharesSumToHundred(s: Scores)
    requires RawTotal(Inputs(s)) != 0.0
    ensures ShareTotal(Inputs(s), Inputs(s)) == 100.0
  {
    var es := Inputs(s);
    ShareTotalScales(es, es);
    WholeIsHundredPercent(RawTotal(es));
  }

  lemma WholeIsHundredPercent(t: real)
    requires t != 0.0
    ensures t / t * 100.0 == 100.0
  {
  }

  /** With a raw total of 0 the divisor is 1; with no negative component every share is then 0. */
  lemma ZeroTotalShares(s: Scores)
    requires RawTotal(Inputs(s)) == 0.0
    ensures forall e :: e in Inputs(s) ==> Share(Inputs(s), e) == Contribution(e) * 100.0
    ensures (forall e :: e in Inputs(s) ==> Numeric(e.value) >= 0.0) ==>
              forall e :: e in Inputs(s) ==> Share(Inputs(s), e) == 0.0
  {
    var es := Inputs(s);
    if forall e :: e in es ==> Numeric(e.value) >= 0.0 {
      forall e | e in es ensures Contribution(e) == 0.0 {
        NonNegativePartsOfZero(es, e);
      }
    }
  }

  lemma {:induction false} NonNegativePartsOfZero(ps: seq<Entry>, e: Entry)
    requires forall p :: p in ps ==> Numeric(p.value) >= 0.0
    requires e in ps
    ensures 0.0 <= Contribution(e) <= RawTotal(ps)
  {
    assert ps == [ps[0]] + ps[1..];
    ContributionsNonNegative(ps[1..]);
    if e != ps[0] {
      NonNegativePartsOfZero(ps[1..], e);
    }
  }

  lemma {:induction false} ContributionsNonNegative(ps: seq<Entry>)
    requires forall p :: p in ps ==> Numeric(p.value) >= 0.0
    ensures RawTotal(ps) >= 0.0
  {
    if ps != [] {
      ContributionsNonNegative(ps[1..]);
    }
  }

  /** With no negative component and a positive total, every share lies in [0, 100]. */
  lemma ShareBounds(s: Scores, e: Entry)
    requires forall p :: p in Inputs(s) ==> Numeric(p.value) >= 0.0
    requires RawTotal(Inputs(s)) > 0.0
    requires e in Inputs(s)
    ensures 0.0 <= Share(Inputs(s), e) <= 100.0
  {
    var es := Inputs(s);
    NonNegativePartsOfZero(es, e);
    PercentOfWhole(Contribution(e), RawTotal(es));
  }

  lemma PercentOfWhole(c: real, t: real)
    requires 0.0 <= c <= t && t > 0.0
    ensures 0.0 <= c / t * 100.0 <= 100.0
  {
    assert c / t <= 1.0;
  }

  // ------------------------------------------------------------ explanation

  /** The value the explanation ranks and tests (the comparator `b - a`, and `v > 55`). */
  function SortValue(e: Entry): real
  {
    Numeric(e.value)
  }

  predicate Salient(e: Entry)
  {
    SortValue(e) > 55.0
  }

  /** `a` comes before `b` in the explanation's ranking: higher value, ties in key order. */
  predicate Precedes(a: Entry, b: Entry)
  {
    SortValue(a) > SortValue(b) || (SortValue(a) == SortValue(b) && KeyOrder(a.factor) < KeyOrder(b.factor))
  }

  ghost predicate RankedOrder(s: seq<Entry>)
  {
    forall i, j :: 0 <= i < j < |s| ==> Precedes(s[i], s[j])
  }

  ghost predicate KeyOrdered(s: seq<Entry>)
  {
    forall i, j :: 0 <= i < j < |s| ==> KeyOrder(s[i].factor) < KeyOrder(s[j].factor)
  }

  /** The components picked for the explanation: salient ones, highest first, at most three. */
  function TopFactors(es: seq<Entry>): seq<Entry>
  {
    Pick(SortDesc(es, SortValue))
  }

  /** `.filter(([, v]) => v > 55).slice(0, 3)` on the sorted entries. */
  function Pick(ordered: seq<Entry>): seq<Entry>
  {
    var salient := Filter(ordered, Salient);
    if |salient| <= 3 then salient else salient[..3]
  }

  /** Different factors have labels that differ even once lower-cased (their first letters differ). */
  lemma LowerLabelsDiffer()
    ensures forall k1: Factor, k2: Factor :: k1 != k2 ==> ToLower(Label(k1)) != ToLower(Label(k2))
  {
    forall k1: Factor, k2: Factor | k1 != k2 ensures ToLower(Label(k1)) != ToLower(Label(k2)) {
      assert ToLower(Label(k1))[0] == LowerChar(Label(k1)[0]);
      assert ToLower(Label(k2))[0] == LowerChar(Label(k2)[0]);
    }
  }

  /** The labels of the picked entries; entries of different factors are named differently in the sentence. */
  function Labels(top: seq<Entry>): (r: seq<string>)
    ensures |r| == |top|
    ensures forall i :: 0 <= i < |top| ==> r[i] == Label(top[i].factor)
    ensures forall i, j :: 0 <= i < j < |top| && top[i].factor != top[j].factor ==> ToLower(r[i]) != ToLower(r[j])
  {
    LowerLabelsDiffer();
    seq(|top|, i requires 0 <= i < |top| => Label(top[i].factor))
  }

  function StableSentence(tier: string): string
  {
    "Country is at " + tier + " risk with generally stable indicators."
  }

  /** `generateExplanation(inputs, tier)`. */
  function Explanation(es: seq<Entry>, tier: string): string
  {
    var top := TopFactors(es);
    if |top| == 0 then StableSentence(tier)
    else tier + " risk driven primarily by " + ToLower(Join(Labels(top), ", ")) + "."
  }

  lemma {:induction false} InsertRanked(x: Entry, t: seq<Entry>)
    requires RankedOrder(t)
    requires forall y :: y in t ==> KeyOrder(x.factor) < KeyOrder(y.factor)
    ensures RankedOrder(Insert(x, t, SortValue))
  {
    if t != [] && SortValue(t[0]) > SortValue(x) {
      var rest := Insert(x, t[1..], SortValue);
      assert t == [t[0]] + t[1..];
      InsertRanked(x, t[1..]);
      forall y | y in rest ensures Precedes(t[0], y) {
        assert y in multiset(rest);
        if y != x {
          assert y in multiset(t[1..]);
          var j :| 0 <= j < |t[1..]| && t[1..][j] == y;
          assert t[j + 1] == y;
        }
      }
    } else {
      forall y | y in t ensures Precedes(x, y) {
        var j :| 0 <= j < |t| && t[j] == y;
        if j > 0 {
          assert Precedes(t[0], t[j]);
        }
      }
    }
  }

  lemma {:induction false} SortRanked(s: seq<Entry>)
    requires KeyOrdered(s)
    ensures RankedOrder(SortDesc(s, SortValue))
  {
    if s != [] {
      SortRanked(s[1..]);
      var t := SortDesc(s[1..], SortValue);
      forall y | y in t ensures KeyOrder(s[0].factor) < KeyOrder(y.factor) {
        assert y in multiset(t);
        var j :| 0 <= j < |s[1..]| && s[1..][j] == y;
        assert s[j + 1] == y;
      }
      InsertRanked(s[0], t);
    }
  }

  lemma {:induction false} FilterRanked(s: seq<Entry>)
    requires RankedOrder(s)
    ensures RankedOrder(Filter(s, Salient))
  {
    if s != [] {
      FilterRanked(s[1..]);
      var rest := Filter(s[1..], Salient);
      forall y | y in rest ensures Precedes(s[0], y) {
        var j :| 0 <= j < |s[1..]| && s[1..][j] == y;
        assert s[j + 1] == y;
      }
    }
  }

  /** The salient entries after ranking: exactly the salient inputs, in ranked order. */
  lemma {:induction false} SalientRanked(es: seq<Entry>)
    requires KeyOrdered(es)
    ensures RankedOrder(Filter(SortDesc(es, SortValue), Salient))
    ensures forall e :: e in Filter(SortDesc(es, SortValue), Salient) <==> e in es && Salient(e)
  {
    SortRanked(es);
    FilterRanked(SortDesc(es, SortValue));
    forall e ensures e in SortDesc(es, SortValue) <==> e in es {
      SortDescMembership(es, SortValue, e);
    }
  }

  /** The first three of a ranked list: ranked, and ahead of everything left out. */
  lemma FirstThreeRanked(salient: seq<Entry>)
    requires RankedOrder(salient)
    ensures var top := if |salient| <= 3 then salient else salient[..3];
            && |top| <= 3
            && (forall e :: e in top ==> e in salient)
            && RankedOrder(top)
            && (forall e :: e in salient && e !in top ==> |top| == 3 && forall t :: t in top ==> Precedes(t, e))
            && (top == [] <==> salient == [])
  {
    var top := if |salient| <= 3 then salient else salient[..3];
    forall e | e in salient && e !in top
      ensures |top| == 3 && forall t :: t in top ==> Precedes(t, e)
    {
      var j :| 0 <= j < |salient| && salient[j] == e;
      forall t | t in top ensures Precedes(t, e) {
        var i :| 0 <= i < |top| && top[i] == t;
        assert salient[i] == t;
      }
    }
    if salient != [] {
      assert top[0] == salient[0];
    }
  }

  lemma {:induction false} TopFactorsOf(es: seq<Entry>)
    requires KeyOrdered(es)
    ensures |TopFactors(es)| <= 3
    ensures forall e :: e in TopFactors(es) ==> e in es && Salient(e)
    ensures RankedOrder(TopFactors(es))
    ensures forall e :: e in es && Salient(e) && e !in TopFactors(es) ==>
              |TopFactors(es)| == 3 && forall t :: t in TopFactors(es) ==> Precedes(t, e)
    ensures TopFactors(es) == [] <==> forall e :: e in es ==> !Salient(e)
  {
    var salient := Filter(SortDesc(es, SortValue), Salient);
    SalientRanked(es);
    FirstThreeRanked(salient);
    if salient != [] {
      assert salient[0] in salient;
    }
  }

  /**
   * The explanation's selection: at most three entries, each a salient
   * component, ranked by value with ties in key order; and every salient
   * component left out is outranked by all three that were picked.
   */
  lemma TopFactorsSelection(s: Scores)
    ensures |TopFactors(Inputs(s))| <= 3
    ensures forall e :: e in TopFactors(Inputs(s)) ==> e in Inputs(s) && Salient(e)
    ensures RankedOrder(TopFactors(Inputs(s)))
    ensures forall e :: e in Inputs(s) && Salient(e) && e !in TopFactors(Inputs(s)) ==>
              |TopFactors(Inputs(s))| == 3 && forall t :: t in TopFactors(Inputs(s)) ==> Precedes(t, e)
    ensures TopFactors(Inputs(s)) == [] <==> forall e :: e in Inputs(s) ==> !Salient(e)
  {
    InputsHaveDistinctFactors(s);
    TopFactorsOf(Inputs(s));
  }

  /**
   * What holds whatever order the sort produces (with a NaN component the
   * comparator `b - a` is inconsistent and the order is up to the engine):
   * at most three entries, each a salient input; and when at most three
   * inputs are salient, exactly those are picked.
   */
  lemma TopFactorsAnyOrder(es: seq<Entry>, ordered: seq<Entry>)
    requires multiset(ordered) == multiset(es)
    ensures |Pick(ordered)| <= 3
    ensures forall e :: e in Pick(ordered) ==> e in es && Salient(e)
    ensures |Filter(es, Salient)| <= 3 ==> forall e :: e in Pick(ordered) <==> e in es && Salient(e)
  {
    FilterPermutation(ordered, es, Salient);
    forall e ensures e in ordered <==> e in es {
      assert e in ordered <==> e in multiset(ordered);
      assert e in es <==> e in multiset(es);
    }
  }

  /** For every tier name, the "driven primarily by" sentence differs from the stable one (at the third character). */
  lemma DrivenSentenceIsNotStable(t: Tier, names: string)
    ensures TierName(t) + " risk driven primarily by " + names + "." != StableSentence(TierName(t))
  {
    var tier := TierName(t);
    assert (tier + " risk driven primarily by " + names + ".")[2] == tier[2];
    assert StableSentence(tier)[2] == 'u';
  }

  lemma {:induction false} ExplanationStableIffOf(es: seq<Entry>, t: Tier)
    requires KeyOrdered(es)
    ensures Explanation(es, TierName(t)) == StableSentence(TierName(t)) <==> forall e :: e in es ==> !Salient(e)
  {
    TopFactorsOf(es);
    var top := TopFactors(es);
    if top != [] {
      DrivenSentenceIsNotStable(t, ToLower(Join(Labels(top), ", ")));
    }
  }

  /** The "stable indicators" sentence is produced exactly when no component exceeds 55. */
  lemma ExplanationStableIff(s: Scores, t: Tier)
    ensures Explanation(Inputs(s), TierName(t)) == StableSentence(TierName(t)) <==>
            forall e :: e in Inputs(s) ==> !Salient(e)
  {
    InputsHaveDistinctFactors(s);
    ExplanationStableIffOf(Inputs(s), t);
  }

  // ------------------------------------------------------------- assessment

  const ModelVersion := "rule_based_v1.0"

  datatype Assessment = Assessment(
    overallConflictProb: real,
    riskTier: Tier,
    shapValues: map<Factor, real>,
    explanation: string,
    confidenceInterval: real,
    modelVersion: string)

  /** The reported score: the composite rounded to two places. */
  function RiskScore(s: Scores): (r: real)
    ensures 0.0 <= r <= 100.0
  {
    Round2KeepsRange(Composite(s), 0, 100);
    Round2(Composite(s))
  }

  /** `parseFloat((Math.random() * 5 + 3).toFixed(2))`, the draw given as `random`. */
  function ConfidenceInterval(random: real): (r: real)
    ensures 0.0 <= random < 1.0 ==> 3.0 <= r <= 8.0
  {
    if 0.0 <= random < 1.0 then Round2KeepsRange(random * 5.0 + 3.0, 3, 8); Round2(random * 5.0 + 3.0)
    else Round2(random * 5.0 + 3.0)
  }

  /** `a` is what the engine returns for `s`, given the value `random` drawn from `Math.random()`. */
  ghost predicate Assesses(a: Assessment, s: Scores, random: real)
  {
    var es := Inputs(s);
    && a.overallConflictProb == RiskScore(s)
    && a.riskTier == TierOf(Composite(s))
    && (forall k: Factor :: k in a.shapValues)
    && (forall e :: e in es ==> e.factor in a.shapValues && a.shapValues[e.factor] == Round2(Share(es, e)))
    && a.explanation == Explanation(es, TierName(a.riskTier))
    && a.confidenceInterval == ConfidenceInterval(random)
    && a.modelVersion == ModelVersion
  }

  /** Every assessment scores within [0, 100], and a draw in [0, 1) gives an interval within [3, 8]. */
  lemma AssessmentBounds(a: Assessment, s: Scores, random: real)
    requires Assesses(a, s, random)
    ensures 0.0 <= a.overallConflictProb <= 100.0
    ensures 0.0 <= random < 1.0 ==> 3.0 <= a.confidenceInterval <= 8.0
  {
    assert a.overallConflictProb == RiskScore(s);
    assert a.confidenceInterval == ConfidenceInterval(random);
  }

  /** The attribution loop: one rounded percentage per input key. */
  method Attribution(inputs: seq<Entry>) returns (shap: map<Factor, real>)
    requires KeyOrdered(inputs)
    ensures forall k :: k in shap <==> exists e :: e in inputs && e.factor == k
    ensures forall e :: e in inputs ==> e.factor in shap && shap[e.factor] == Round2(Share(inputs, e))
  {
    var overall := RawTotal(inputs);
    var total := if overall == 0.0 then 1.0 else overall;
    shap := map[];
    for i := 0 to |inputs|
      invariant forall k :: k in shap ==> exists j :: 0 <= j < i && inputs[j].factor == k
      invariant forall j :: 0 <= j < i ==> inputs[j].factor in shap && shap[inputs[j].factor] == Round2(Share(inputs, inputs[j]))
    {
      var pct := Round2(Contribution(inputs[i]) / total * 100.0);
      assert pct == Round2(Share(inputs, inputs[i]));
      shap := shap[inputs[i].factor := pct];
    }
    forall k | k in shap ensures exists e :: e in inputs && e.factor == k {
      var j :| 0 <= j < |inputs| && inputs[j].factor == k;
      assert inputs[j] in inputs;
    }
  }

  lemma AllFactorsPresent(s: Scores, k: Factor)
    ensures exists e :: e in Inputs(s) && e.factor == k
  {
    FactorsAreTheKeys();
    assert Inputs(s)[KeyOrder(k)] in Inputs(s);
  }

  /** `computeRisk(s)`: the random draw of the confidence interval is a parameter. */
  method ComputeRisk(s: Scores, random: real) returns (a: Assessment)
    ensures Assesses(a, s, random)
  {
    var inputs := Inputs(s);
    var overall := RawTotal(inputs);
    var clamped := Min(Max(overall, 0.0), 100.0);
    assert clamped == Composite(s);
    var tier := TierOf(clamped);
    InputsHaveDistinctFactors(s);
    var shap := Attribution(inputs);
    forall k: Factor ensures k in shap {
      AllFactorsPresent(s, k);
    }
    var explanation := Explanation(inputs, TierName(tier));
    a := Assessment(RiskScore(s), tier, shap, explanation, ConfidenceInterval(random), ModelVersion);
  }

  /** `computeRisk({})` scores exactly 50, tier Moderate. */
  lemma EmptyInputScoresFifty()
    ensures Composite(EmptyScores) == 50.0
    ensures RiskScore(EmptyScores) == 50.0
    ensures TierOf(Composite(EmptyScores)) == Moderate
  {
    RawTotalIsWeightedSum(EmptyScores);
  }

  /** Worked example: components 80, 70, 60, 50, 40, 30 give 60.5, tier High. */
  lemma WorkedExample()
    ensures var s := Scores(Num(80.0), Num(70.0), Num(60.0), Num(50.0), Num(40.0), Num(30.0));
            Composite(s) == 60.5 && TierOf(Composite(s)) == High
  {
    var s := Scores(Num(80.0), Num(70.0), Num(60.0), Num(50.0), Num(40.0), Num(30.0));
    RawTotalIsWeightedSum(s);
  }

  // ------------------------------------------------------------- simulation

  /** The four scenario fields; `None` is a field left `undefined`. */
  datatype Overrides = Overrides(
    gdpChangePct: Option<real>,
    militaryBudgetChangePct: Option<real>,
    politicalStabilityChange: Option<real>,
    allianceChange: Option<real>)

  const NoOverrides := Overrides(None, None, None, None)

  function Abs(x: real): real { if x < 0.0 then -x else x }

  /** JavaScript `f + d`: `undefined` and `NaN` give `NaN`. */
  function Plus(f: Field, d: real): Field
  {
    if f.Num? then Num(f.x + d) else NaN
  }

  /** `Math.min(100, f)`: caps above only; `NaN` stays `NaN`. */
  function CapAt100(f: Field): Field
  {
    if f.Num? then Num(Min(100.0, f.x)) else NaN
  }

  /** One rule of the scenario table: when the override is given, add `delta(value)` and cap at 100. */
  function Adjust(f: Field, o: Option<real>, delta: real -> real): Field
  {
    if o.Some? then CapAt100(Plus(f, delta(o.value))) else f
  }

  /** The scenario table: which component each override moves, and by how much. */
  function Adjusted(base: Scores, o: Overrides): Scores
  {
    Scores(
      militaryRisk := Adjust(base.militaryRisk, o.militaryBudgetChangePct, m => m * 1.5),
      economicRisk := Adjust(base.economicRisk, o.gdpChangePct, g => Abs(g) * 2.0),
      politicalRisk := Adjust(base.politicalRisk, o.politicalStabilityChange, p => -p),
      allianceRisk := Adjust(base.allianceRisk, o.allianceChange, c => -c),
      cyberRisk := base.cyberRisk,
      socialRisk := base.socialRisk)
  }

  /** `simulateScenario(base, o)`: copy the scores, apply each given override in turn, rescore. */
  method SimulateScenario(base: Scores, o: Overrides, random: real) returns (a: Assessment)
    ensures Assesses(a, Adjusted(base, o), random)
  {
    var modified := base;
    if o.gdpChangePct.Some? {
      modified := modified.(economicRisk := CapAt100(Plus(modified.economicRisk, Abs(o.gdpChangePct.value) * 2.0)));
    }
    if o.militaryBudgetChangePct.Some? {
      modified := modified.(militaryRisk := CapAt100(Plus(modified.militaryRisk, o.militaryBudgetChangePct.value * 1.5)));
    }
    if o.politicalStabilityChange.Some? {
      modified := modified.(politicalRisk := CapAt100(Plus(modified.politicalRisk, -o.politicalStabilityChange.value)));
    }
    if o.allianceChange.Some? {
      modified := modified.(allianceRisk := CapAt100(Plus(modified.allianceRisk, -o.allianceChange.value)));
    }
    assert modified == Adjusted(base, o);
    a := ComputeRisk(modified, random);
  }

  /** Undefined overrides leave their component alone; cyber and social risk never move. */
  lemma AdjustedLeavesOthers(base: Scores, o: Overrides)
    ensures Adjusted(base, o).cyberRisk == base.cyberRisk
    ensures Adjusted(base, o).socialRisk == base.socialRisk
    ensures o.gdpChangePct.None? ==> Adjusted(base, o).economicRisk == base.economicRisk
    ensures o.militaryBudgetChangePct.None? ==> Adjusted(base, o).militaryRisk == base.militaryRisk
    ensures o.politicalStabilityChange.None? ==> Adjusted(base, o).politicalRisk == base.politicalRisk
    ensures o.allianceChange.None? ==> Adjusted(base, o).allianceRisk == base.allianceRisk
    ensures Adjusted(base, NoOverrides) == base
  {
  }

  /** Only the size of a GDP change matters: g and -g give the same scenario. */
  lemma GdpMagnitudeOnly(base: Scores, o: Overrides, g: real)
    ensures Adjusted(base, o.(gdpChangePct := Some(g))) == Adjusted(base, o.(gdpChangePct := Some(-g)))
  {
  }

  /** A GDP override never lowers an in-range economic score, and caps it at 100. */
  lemma EconomicNeverDecreases(base: Scores, o: Overrides)
    requires base.economicRisk.Num? && base.economicRisk.x <= 100.0
    requires o.gdpChangePct.Some?
    ensures Adjusted(base, o).economicRisk.Num?
    ensures base.economicRisk.x <= Adjusted(base, o).economicRisk.x <= 100.0
  {
  }

  /** Every adjusted numeric component is at most 100. */
  lemma AdjustedCappedAbove(base: Scores, o: Overrides)
    ensures o.gdpChangePct.Some? && Adjusted(base, o).economicRisk.Num? ==> Adjusted(base, o).economicRisk.x <= 100.0
    ensures o.militaryBudgetChangePct.Some? && Adjusted(base, o).militaryRisk.Num? ==> Adjusted(base, o).militaryRisk.x <= 100.0
    ensures o.politicalStabilityChange.Some? && Adjusted(base, o).politicalRisk.Num? ==> Adjusted(base, o).politicalRisk.x <= 100.0
    ensures o.allianceChange.Some? && Adjusted(base, o).allianceRisk.Num? ==> Adjusted(base, o).allianceRisk.x <= 100.0
  {
  }

  /** There is no floor: a political-stability gain of 50 takes a score of 10 to -40. */
  lemma NoLowerBound()
    ensures var base := Scores(Num(10.0), Num(10.0), Num(10.0), Num(10.0), Num(10.0), Num(10.0));
            Adjusted(base, NoOverrides.(politicalStabilityChange := Some(50.0))).politicalRisk == Num(-40.0)
  {
  }

  /** An override on an absent component yields NaN, which then counts as 0 instead of the default 50. */
  lemma OverrideOnAbsentComponent(base: Scores, o: Overrides)
    requires base.economicRisk.Undefined? && o.gdpChangePct.Some?
    ensures Adjusted(base, o).economicRisk == NaN
    ensures Numeric(WithDefault(Adjusted(base, o).economicRisk)) == 0.0
    ensures Numeric(WithDefault(base.economicRisk)) == 50.0
  {
  }
}
