/**
 * The client's shared helpers: the tier colour table, flag emoji from a
 * two-letter code, the badge CSS class and the width of a risk bar.
 */
module ClientUtils {
  import opened Wrappers
  import opened JsText
  import opened RiskEngine

  const DefaultColor := "#7a9cc0"

  /** `RISK_COLORS[tier] || '#7a9cc0'`; `None` is an absent tier. */
  function GetRiskColor(tier: Option<string>): string
  {
    if tier == Some("Critical") then "#ff2244"
    else if tier == Some("High") then "#ff8c00"
    else if tier == Some("Moderate") then "#ffd700"
    else if tier == Some("Low") then "#00ff88"
    else DefaultColor
  }

  /** The four tiers have four different colours, none of them the default, and anything else gets the default. */
  lemma RiskColorTable(s: Option<string>)
    ensures forall t: Tier :: GetRiskColor(Some(TierName(t))) != DefaultColor
    ensures forall t1: Tier, t2: Tier :: t1 != t2 ==> GetRiskColor(Some(TierName(t1))) != GetRiskColor(Some(TierName(t2)))
    ensures (forall t: Tier :: s != Some(TierName(t))) ==> GetRiskColor(s) == DefaultColor
  {
    if forall t: Tier :: s != Some(TierName(t)) {
      assert s != Some(TierName(Critical)) && s != Some(TierName(High));
      assert s != Some(TierName(Moderate)) && s != Some(TierName(Low));
    }
  }

  /** The globe U+1F310. */
  const Globe := 0x1F310

  /** Regional indicator symbol letter A. */
  const RegionalA := 0x1F1E6

  /**
   * `getFlagEmoji(iso2)` as a list of code points: the globe for a missing,
   * empty or not two-character code, else one regional indicator per
   * upper-cased character.
   */
  function GetFlagEmoji(iso2: Option<string>): seq<int>
  {
    if iso2.None? || iso2.value == [] || |iso2.value| != 2 then [Globe]
    else
      var up := ToUpper(iso2.value);
      [RegionalA + up[0] as int - 65, RegionalA + up[1] as int - 65]
  }

  lemma FlagShape(iso2: Option<string>)
    ensures iso2.None? || |iso2.value| != 2 ==> GetFlagEmoji(iso2) == [Globe]
    ensures iso2.Some? && |iso2.value| == 2 ==>
              |GetFlagEmoji(iso2)| == 2 &&
              forall k :: 0 <= k < 2 ==> GetFlagEmoji(iso2)[k] == RegionalA + UpperChar(iso2.value[k]) as int - 65
    ensures (iso2.Some? ==> forall k :: 0 <= k < |iso2.value| ==> iso2.value[k] as int <= 0xFFFF) ==>
              forall k :: 0 <= k < |GetFlagEmoji(iso2)| ==> 0 <= GetFlagEmoji(iso2)[k] <= 0x10FFFF
  {
  }

  lemma UpperLowerChar(c: char)
    ensures UpperChar(LowerChar(c)) == UpperChar(c)
    ensures LowerChar(UpperChar(c)) == LowerChar(c)
  {
  }

  /** Letter case does not matter. */
  lemma FlagCaseInsensitive(s: string)
    ensures GetFlagEmoji(Some(ToUpper(s))) == GetFlagEmoji(Some(s))
    ensures GetFlagEmoji(Some(ToLower(s))) == GetFlagEmoji(Some(s))
  {
    ToUpperIsUpperCase(s);
    if |s| == 2 {
      UpperLowerChar(s[0]);
      UpperLowerChar(s[1]);
    }
  }

  /** The flag of a two-letter code is a pair of regional indicators, and the letters can be read back. */
  lemma FlagOfLetters(iso2: string)
    requires |iso2| == 2
    requires forall k :: 0 <= k < 2 ==> 'A' <= iso2[k] <= 'Z' || 'a' <= iso2[k] <= 'z'
    ensures forall k :: 0 <= k < 2 ==> RegionalA <= GetFlagEmoji(Some(iso2))[k] <= RegionalA + 25
    ensures forall k :: 0 <= k < 2 ==> GetFlagEmoji(Some(iso2))[k] - RegionalA + 65 == UpperChar(iso2[k]) as int
  {
  }

  /** `badgeClass(tier)`. */
  function BadgeClass(tier: Option<string>): string
  {
    if tier.None? || tier.value == [] then "badge"
    else "badge badge-" + ToLower(tier.value)
  }

  lemma BadgeClassShape(tier: Option<string>)
    ensures tier.None? || tier.value == [] ==> BadgeClass(tier) == "badge"
    ensures tier.Some? && tier.value != [] ==>
              var b := BadgeClass(tier);
              |b| == 12 + |tier.value| && b[..12] == "badge badge-" && b[12..] == ToLower(tier.value)
    ensures tier.Some? ==> BadgeClass(Some(ToUpper(tier.value))) == BadgeClass(tier)
  {
    if tier.Some? {
      var t := tier.value;
      assert ToLower(ToUpper(t)) == ToLower(t) by {
        forall k | 0 <= k < |t| ensures ToLower(ToUpper(t))[k] == ToLower(t)[k] {
          UpperLowerChar(t[k]);
        }
      }
    }
  }

  /** The tier badges: `badge badge-low` and so on. */
  lemma BadgeOfTiers()
    ensures BadgeClass(Some(TierName(Critical))) == "badge badge-critical"
    ensures BadgeClass(Some(TierName(Low))) == "badge badge-low"
  {
  }

  /** The `width` of `riskBarStyle`: `Math.min(pct, 100)`. */
  function BarWidth(pct: real): (w: real)
    ensures w <= 100.0
    ensures w == pct <==> pct <= 100.0
    ensures w == 100.0 <==> pct >= 100.0
  {
    Min(pct, 100.0)
  }
}
