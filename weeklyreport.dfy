/**
 * The derivations of the weekly report screen
 * (app/src/main/java/com/Madhu/moodtracker/ui/WeeklyReportScreen.kt): the
 * empty-state test, the bar chart of `MoodBarChart` and the summary of
 * `MoodSummaryCards`. Layout is left out; a report is the data the screen shows.
 */
module WeeklyReport {
  import opened Wrappers
  import opened Counting
  import opened Entries
  import opened ViewModel

  /** Compose's `Color.Gray`, as ARGB. */
  const Gray: int := 0xFF888888

  /** `moodColors` of `MoodBarChart`, as ARGB. */
  const MoodColors: map<string, int> := map[
    "Happy" := 0xFF4CAF50,
    "Calm" := 0xFF2196F3,
    "Neutral" := 0xFF9E9E9E,
    "Sad" := 0xFFFF9800,
    "Anxious" := 0xFFF44336
  ]

  /** The chart emoji shown for an unknown name. */
  const ChartEmoji: string := "\U{1F4CA}"

  /** `weeklyData.values.maxOrNull() ?: 1`. */
  function MaxCount(weeklyData: CountMap): (r: int)
    ensures |weeklyData| == 0 ==> r == 1
    ensures |weeklyData| > 0 ==> r in Values(weeklyData)
    ensures forall i :: 0 <= i < |weeklyData| ==> weeklyData[i].value <= r
  {
    var vs := Values(weeklyData);
    assert forall i :: 0 <= i < |weeklyData| ==> weeklyData[i].value in vs;
    MaxOrNull(vs).GetOr(1)
  }

  /** With positive counts the bar scale is at least 1: an empty map falls back to 1. */
  lemma MaxCountPositive(weeklyData: CountMap)
    requires forall i :: 0 <= i < |weeklyData| ==> weeklyData[i].value >= 1
    ensures MaxCount(weeklyData) >= 1
  {
    if |weeklyData| > 0 {
      assert weeklyData[0].value <= MaxCount(weeklyData);
    }
  }

  /** `moodColors[mood] ?: Color.Gray`. */
  function BarColor(mood: string): (c: int)
    ensures mood in MoodColors ==> c == MoodColors[mood]
    ensures c == Gray <==> mood !in MoodColors
  {
    if mood in MoodColors then MoodColors[mood] else Gray
  }

  /** The `when (mood)` of the most-frequent card. */
  function MoodEmoji(mood: string): (e: string)
    ensures e == ChartEmoji <==> mood !in MoodNames
  {
    match mood
    case "Happy" => "\U{1F60A}"
    case "Calm" => "\U{1F642}"
    case "Neutral" => "\U{1F610}"
    case "Sad" => "\U{1F61F}"
    case "Anxious" => "\U{1F62C}"
    case _ => ChartEmoji
  }

  /** The report's emoji for each mood name is the intended face of that mood. */
  lemma ReportEmojisOfNames()
    ensures forall i :: 0 <= i < |MoodNames| ==> MoodEmoji(MoodNames[i]) == IntendedEmojis[i]
  {
    assert MoodEmoji(MoodNames[0]) == IntendedEmojis[0];
    assert MoodEmoji(MoodNames[1]) == IntendedEmojis[1];
    assert MoodEmoji(MoodNames[2]) == IntendedEmojis[2];
    assert MoodEmoji(MoodNames[3]) == IntendedEmojis[3];
    assert MoodEmoji(MoodNames[4]) == IntendedEmojis[4];
  }

  /** Every known name has its own emoji. */
  lemma MoodEmojisDistinct()
    ensures forall i, j :: 0 <= i < j < |MoodNames| ==> MoodEmoji(MoodNames[i]) != MoodEmoji(MoodNames[j])
  {
  }

  /** One row of the bar chart. */
  datatype Bar = Bar(mood: string, count: int, color: int)

  /** The most-frequent card. */
  datatype Highlight = Highlight(mood: string, count: int, emoji: string)

  datatype ReportView =
    | EmptyState
    | Populated(bars: seq<Bar>, maxCount: int, totalEntries: int, mostFrequent: Option<Highlight>)

  /** The most-frequent card for `maxByOrNull { it.value }`, absent for an empty map. */
  function MostFrequent(weeklyData: CountMap): (h: Option<Highlight>)
    ensures h.None? <==> |weeklyData| == 0
    ensures h.Some? ==>
      exists b: nat ::
        && IsFirstMax(weeklyData, b)
        && h.value == Highlight(weeklyData[b].key, weeklyData[b].value, MoodEmoji(weeklyData[b].key))
  {
    match MaxByValue(weeklyData)
    case None => None
    case Some(e) => Some(Highlight(e.key, e.value, MoodEmoji(e.key)))
  }

  /**
   * What the screen shows for `weeklyData`: the empty state exactly when the
   * map is empty; otherwise one bar per entry in map order, coloured by name,
   * the bar scale, the total and the most frequent mood.
   */
  function Report(weeklyData: CountMap): (r: ReportView)
    ensures r.EmptyState? <==> |weeklyData| == 0
    ensures r.Populated? ==>
      && |r.bars| == |weeklyData|
      && (forall i :: 0 <= i < |r.bars| ==>
            r.bars[i] == Bar(weeklyData[i].key, weeklyData[i].value, BarColor(weeklyData[i].key)))
      && r.maxCount == MaxCount(weeklyData)
      && r.totalEntries == Sum(Values(weeklyData))
      && r.mostFrequent == MostFrequent(weeklyData)
      && r.mostFrequent.Some?
  {
    if |weeklyData| == 0 then EmptyState
    else
      Populated(
        seq(|weeklyData|, i requires 0 <= i < |weeklyData| =>
          Bar(weeklyData[i].key, weeklyData[i].value, BarColor(weeklyData[i].key))),
        MaxCount(weeklyData),
        Sum(Values(weeklyData)),
        MostFrequent(weeklyData))
  }

  /**
   * The report of a week's emission: empty exactly when no entry falls in the
   * window; otherwise the total is the number of entries in the window and
   * the bar scale is at least 1.
   */
  lemma WeeklyReportFacts(moods: seq<MoodEntry>)
    ensures var r := Report(WeeklyCounts(moods));
      && (r.EmptyState? <==> |moods| == 0)
      && (r.Populated? ==> r.totalEntries == |moods| && r.maxCount >= 1)
  {
    var m := WeeklyCounts(moods);
    WeeklyCountsSum(moods);
    WeeklyCountsPositive(moods);
    MaxCountPositive(m);
    if |moods| > 0 {
      WeeklyKeySet(moods);
      assert MoodName(moods[0].mood) in Keys(m);
    }
  }
}
