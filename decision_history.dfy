/** The history panel: how long ago each past decision was made, and the
    title of the option it recommended. */
module DecisionHistory {
  import opened Strings
  import opened Types
  import AnalyzeRoute

  const MsPerMinute := 60000
  const MsPerHour := 3600000
  const MsPerDay := 86400000

  /** The age bucket `formatTimeAgo` picks for a difference in milliseconds. */
  datatype Age = JustNow | MinutesAgo(minutes: nat) | HoursAgo(hours: nat) | OnDate

  /** The chain of early returns in `formatTimeAgo`: whole minutes (rounded
      down, so a negative difference gives a negative count), then whole
      hours of those minutes. */
  function AgeOf(diffMs: int): Age
  {
    var diffMins := diffMs / MsPerMinute;   // Math.floor: the divisor is positive
    if diffMins < 1 then JustNow
    else if diffMins < 60 then MinutesAgo(diffMins)
    else
      var diffHours := diffMins / 60;
      if diffHours < 24 then HoursAgo(diffHours) else OnDate
  }

  const JustNowText := "Just now"
  const MinutesSuffix := "m ago"
  const HoursSuffix := "h ago"

  /** `formatTimeAgo`; `localeDate` stands for `date.toLocaleDateString()`. */
  function FormatTimeAgo(diffMs: int, localeDate: string): string
  {
    match AgeOf(diffMs)
    case JustNow => JustNowText
    case MinutesAgo(m) => NatToString(m) + MinutesSuffix
    case HoursAgo(h) => NatToString(h) + HoursSuffix
    case OnDate => localeDate
  }

  /** The buckets by milliseconds: under a minute (negative differences
      included) is "just now"; from one minute to under an hour, the whole
      minutes; from one hour to under a day, the whole hours; from a day on,
      the date. */
  lemma AgeThresholds(diffMs: int)
    ensures AgeOf(diffMs) == JustNow <==> diffMs < MsPerMinute
    ensures AgeOf(diffMs).MinutesAgo? <==> MsPerMinute <= diffMs < MsPerHour
    ensures AgeOf(diffMs).HoursAgo? <==> MsPerHour <= diffMs < MsPerDay
    ensures AgeOf(diffMs) == OnDate <==> MsPerDay <= diffMs
    ensures AgeOf(diffMs).MinutesAgo? ==> AgeOf(diffMs).minutes == diffMs / MsPerMinute
    ensures AgeOf(diffMs).HoursAgo? ==> AgeOf(diffMs).hours == diffMs / MsPerHour
  {
  }

  /** The text `formatTimeAgo` shows, bucket by bucket. */
  lemma FormatTimeAgoCases(diffMs: int, localeDate: string)
    ensures diffMs < MsPerMinute ==> FormatTimeAgo(diffMs, localeDate) == JustNowText
    ensures MsPerMinute <= diffMs < MsPerHour ==>
      FormatTimeAgo(diffMs, localeDate) == NatToString(diffMs / MsPerMinute) + MinutesSuffix
    ensures MsPerHour <= diffMs < MsPerDay ==>
      FormatTimeAgo(diffMs, localeDate) == NatToString(diffMs / MsPerHour) + HoursSuffix
    ensures MsPerDay <= diffMs ==> FormatTimeAgo(diffMs, localeDate) == localeDate
  {
    AgeThresholds(diffMs);
  }

  /** The minute count shown lies between 1 and 59 and the hour count
      between 1 and 23. */
  lemma CountsInRange(diffMs: int)
    ensures AgeOf(diffMs).MinutesAgo? ==> 1 <= AgeOf(diffMs).minutes <= 59
    ensures AgeOf(diffMs).HoursAgo? ==> 1 <= AgeOf(diffMs).hours <= 23
  {
  }

  /** The position of a bucket in order of increasing age. */
  function Rank(a: Age): nat
  {
    match a
    case JustNow => 0
    case MinutesAgo(_) => 1
    case HoursAgo(_) => 2
    case OnDate => 3
  }

  /** An older difference never falls into a younger bucket, and within a
      bucket the count does not go down. */
  lemma AgeMonotone(d1: int, d2: int)
    requires d1 <= d2
    ensures Rank(AgeOf(d1)) <= Rank(AgeOf(d2))
    ensures AgeOf(d1).MinutesAgo? && AgeOf(d2).MinutesAgo? ==> AgeOf(d1).minutes <= AgeOf(d2).minutes
    ensures AgeOf(d1).HoursAgo? && AgeOf(d2).HoursAgo? ==> AgeOf(d1).hours <= AgeOf(d2).hours
  {
    AgeThresholds(d1);
    AgeThresholds(d2);
  }

  const OptionWord := "Option"

  /** The "Recommended:" label: the recommended option's title up to its
      first colon, or "Option" when the index points at no option or that
      text is empty. */
  function RecommendedLabel(r: DecisionResult): string
  {
    if 0 <= r.recommendedIndex < |r.options| then
      var head := Split(r.options[r.recommendedIndex].title, ':')[0];
      if head == [] then OptionWord else head
    else OptionWord
  }

  /** The label is never empty and holds no colon; unless it is the default,
      it is the start of the recommended title, running to a colon or to the
      end of the title. */
  lemma LabelSpec(r: DecisionResult)
    ensures RecommendedLabel(r) != [] && ':' !in RecommendedLabel(r)
    ensures !(0 <= r.recommendedIndex < |r.options|) ==> RecommendedLabel(r) == OptionWord
    ensures 0 <= r.recommendedIndex < |r.options| ==>
      var title := r.options[r.recommendedIndex].title;
      var shown := RecommendedLabel(r);
      || (shown == OptionWord && (title == [] || title[0] == ':'))
      || (shown <= title && (|shown| == |title| || title[|shown|] == ':'))
  {
    assert ':' !in OptionWord;
    if 0 <= r.recommendedIndex < |r.options| {
      var title := r.options[r.recommendedIndex].title;
      SplitHead(title, ':');
    }
  }

  /** A title "<tag>: <words>" whose parts hold no colon is labelled with
      its tag. */
  lemma TitleLabel(r: DecisionResult, tag: string, words: string)
    requires 0 <= r.recommendedIndex < |r.options|
    requires r.options[r.recommendedIndex].title == tag + ": " + words
    requires tag != [] && ':' !in tag && ':' !in words
    ensures RecommendedLabel(r) == tag
  {
    AnalyzeRoute.SplitTitle(tag, words);
  }

  /** The labels of the three fallback options are their tags. */
  lemma FallbackTags(r: DecisionResult, e: Maybe<string>)
    requires r.options == AnalyzeRoute.FallbackOptions(e)
    requires r.recommendedIndex == AnalyzeRoute.FallbackIndex(e)
    ensures e == Some("high") ==> RecommendedLabel(r) == AnalyzeRoute.TagA
    ensures e == Some("low") ==> RecommendedLabel(r) == AnalyzeRoute.TagB
    ensures e != Some("high") && e != Some("low") ==> RecommendedLabel(r) == AnalyzeRoute.TagC
  {
    AnalyzeRoute.FallbackOptionsShape(e);
    if e == Some("high") {
      assert ':' !in AnalyzeRoute.TagA && ':' !in AnalyzeRoute.WordsA;
      TitleLabel(r, AnalyzeRoute.TagA, AnalyzeRoute.WordsA);
    } else if e == Some("low") {
      assert ':' !in AnalyzeRoute.TagB && ':' !in AnalyzeRoute.WordsB;
      TitleLabel(r, AnalyzeRoute.TagB, AnalyzeRoute.WordsB);
    } else {
      assert ':' !in AnalyzeRoute.TagC && ':' !in AnalyzeRoute.WordsC;
      TitleLabel(r, AnalyzeRoute.TagC, AnalyzeRoute.WordsC);
    }
  }

  /** A fallback result is labelled with the tag of its recommended
      option: "Option A" for high energy, "Option B" for low energy and
      "Option C" otherwise. */
  lemma FallbackLabel(c: ContextJson, id: string, createdAt: string)
    requires c.question.Some?
    ensures var r := AnalyzeRoute.Assemble(c, AnalyzeRoute.GetMockResponse(c), id, createdAt);
      && (c.energyLevel == Some("high") ==> RecommendedLabel(r) == AnalyzeRoute.TagA)
      && (c.energyLevel == Some("low") ==> RecommendedLabel(r) == AnalyzeRoute.TagB)
      && (c.energyLevel != Some("high") && c.energyLevel != Some("low") ==> RecommendedLabel(r) == AnalyzeRoute.TagC)
  {
    var r := AnalyzeRoute.Assemble(c, AnalyzeRoute.GetMockResponse(c), id, createdAt);
    AnalyzeRoute.FallbackShape(c);
    FallbackTags(r, c.energyLevel);
  }
}
