/**
 * `MoodViewModel` (app/src/main/java/com/Madhu/moodtracker/viewmodel/MoodViewModel.kt).
 *
 * The view model republishes two query results as state: `moodEntries`, the
 * latest emission of `allMoods`, and `weeklyMoodData`, the weekly counts of
 * the latest emission of `getMoodsFromDate(sevenDaysAgo)`. Flow collection is
 * modelled synchronously: every mutation is followed by the emission it
 * triggers. The clock read that computes `sevenDaysAgo` and the creation
 * time of new entries are parameters.
 */
module ViewModel {
  import opened Wrappers
  import opened Text
  import opened Entries
  import opened Counting
  import opened Dao
  import opened Repository

  /** The five mood names, in the order of the selector. */
  const MoodNames: seq<string> := ["Happy", "Calm", "Neutral", "Sad", "Anxious"]

  /**
   * `availableMoods` with the code points the source file actually holds:
   * each emoji's UTF-8 bytes read back as Windows-1252 text (the byte 0x90
   * of the Neutral face has no Windows-1252 character and is missing).
   */
  const AvailableMoodsAsWritten: seq<string> := [
    "Happy \U{F0}\U{178}\U{2DC}\U{160}",
    "Calm \U{F0}\U{178}\U{2122}\U{201A}",
    "Neutral \U{F0}\U{178}\U{2DC}",
    "Sad \U{F0}\U{178}\U{2DC}\U{178}",
    "Anxious \U{F0}\U{178}\U{2DC}\U{AC}"
  ]

  /** `availableMoods` as intended: each name followed by a space and its face emoji. */
  const AvailableMoods: seq<string> := [
    "Happy \U{1F60A}",
    "Calm \U{1F642}",
    "Neutral \U{1F610}",
    "Sad \U{1F61F}",
    "Anxious \U{1F62C}"
  ]

  /** `mood.split(" ")[0]`: the text before the first space, or the whole label without one. */
  function MoodName(mood: string): (name: string)
    ensures Space !in name && name <= mood
    ensures |name| < |mood| ==> mood[|name|] == Space
    ensures Space !in mood ==> name == mood
  {
    SplitShape(mood);
    Split(mood)[0]
  }

  /** A label made of a space-free name, one space and a space-free emoji. */
  lemma {:induction false} LabelParts(name: string, emoji: string)
    requires Space !in name && Space !in emoji
    ensures Split(name + [Space] + emoji) == [name, emoji]
    ensures MoodName(name + [Space] + emoji) == name
  {
    SplitAtFirstSpace(name, emoji);
    SplitNoSpace(emoji);
  }

  /**
   * Every label is a name, one space and one more piece, so it splits into
   * exactly two pieces; the names are the five mood names, all distinct.
   */
  predicate WellFormedLabels(labels: seq<string>)
  {
    && |labels| == |MoodNames|
    && (forall i :: 0 <= i < |labels| ==> Space in labels[i])
    && (forall i :: 0 <= i < |labels| ==> |Split(labels[i])| == 2 && MoodName(labels[i]) == MoodNames[i])
    && Distinct(MoodNames)
    && Distinct(labels)
  }

  lemma {:induction false} LabelsFromParts(labels: seq<string>, emojis: seq<string>)
    requires |labels| == |emojis| == |MoodNames|
    requires forall i :: 0 <= i < |labels| ==> labels[i] == MoodNames[i] + [Space] + emojis[i]
    requires forall i :: 0 <= i < |labels| ==> Space !in emojis[i]
    ensures WellFormedLabels(labels)
  {
    assert Distinct(MoodNames);
    forall i | 0 <= i < |labels|
      ensures Space in labels[i] && |Split(labels[i])| == 2 && MoodName(labels[i]) == MoodNames[i]
    {
      assert Space !in MoodNames[i];
      LabelParts(MoodNames[i], emojis[i]);
      assert labels[i][|MoodNames[i]|] == Space;
    }
    forall i, j | 0 <= i < j < |labels| ensures labels[i] != labels[j] {
      assert MoodName(labels[i]) != MoodName(labels[j]);
    }
  }

  const IntendedEmojis: seq<string> := ["\U{1F60A}", "\U{1F642}", "\U{1F610}", "\U{1F61F}", "\U{1F62C}"]

  const GarbledEmojis: seq<string> := [
    "\U{F0}\U{178}\U{2DC}\U{160}", "\U{F0}\U{178}\U{2122}\U{201A}", "\U{F0}\U{178}\U{2DC}",
    "\U{F0}\U{178}\U{2DC}\U{178}", "\U{F0}\U{178}\U{2DC}\U{AC}"
  ]

  lemma AvailableMoodsWellFormed()
    ensures WellFormedLabels(AvailableMoods)
  {
    assert forall i :: 0 <= i < 5 ==> AvailableMoods[i] == MoodNames[i] + [Space] + IntendedEmojis[i];
    LabelsFromParts(AvailableMoods, IntendedEmojis);
  }

  lemma AvailableMoodsAsWrittenWellFormed()
    ensures WellFormedLabels(AvailableMoodsAsWritten)
  {
    assert forall i :: 0 <= i < 5 ==> AvailableMoodsAsWritten[i] == MoodNames[i] + [Space] + GarbledEmojis[i];
    LabelsFromParts(AvailableMoodsAsWritten, GarbledEmojis);
  }

  // ---------------------------------------------------------------------
  // The weekly fold: `moods.groupingBy { it.mood.split(" ")[0] }.eachCount()`.

  /** The grouping key of each entry, in the order the query returned them. */
  function WeeklyKeys(moods: seq<MoodEntry>): (ks: seq<string>)
    ensures |ks| == |moods|
    ensures forall i :: 0 <= i < |moods| ==> ks[i] == MoodName(moods[i].mood)
  {
    if |moods| == 0 then [] else [MoodName(moods[0].mood)] + WeeklyKeys(moods[1..])
  }

  /** The map `loadWeeklyData` publishes for one emission `moods`. */
  function WeeklyCounts(moods: seq<MoodEntry>): (m: CountMap)
    ensures Distinct(Keys(m))
  {
    EachCount(WeeklyKeys(moods))
  }

  /** The keys are exactly the names of the entries in the window. */
  lemma WeeklyKeySet(moods: seq<MoodEntry>)
    ensures forall name :: name in Keys(WeeklyCounts(moods)) <==>
      exists i :: 0 <= i < |moods| && MoodName(moods[i].mood) == name
  {
    var ks := WeeklyKeys(moods);
    forall name ensures name in ks <==> exists i :: 0 <= i < |moods| && MoodName(moods[i].mood) == name {
      if name in ks {
        var i :| 0 <= i < |ks| && ks[i] == name;
        assert MoodName(moods[i].mood) == name;
      }
    }
  }

  /** Each name maps to the number of entries carrying it, which is at least 1. */
  lemma WeeklyCountsPositive(moods: seq<MoodEntry>)
    ensures var m := WeeklyCounts(moods);
      forall i :: 0 <= i < |m| ==> m[i].value == multiset(WeeklyKeys(moods))[m[i].key] >= 1
  {
    var ks := WeeklyKeys(moods);
    assert WeeklyCounts(moods) == EachCount(ks);
    EachCountEntries(ks);
  }

  /** The counts add up to the number of entries in the window. */
  lemma WeeklyCountsSum(moods: seq<MoodEntry>)
    ensures Sum(Values(WeeklyCounts(moods))) == |moods|
  {
    EachCountSum(WeeklyKeys(moods));
  }

  /** The names come in the order they are first met scanning the query result. */
  lemma WeeklyKeyOrder(moods: seq<MoodEntry>)
    ensures FirstSeenOrder(WeeklyKeys(moods), Keys(WeeklyCounts(moods)))
  {
    EachCountOrder(WeeklyKeys(moods));
  }

  // ---------------------------------------------------------------------
  // The view model object.

  class MoodViewModel {
    const repository: MoodRepository
    /** `_moodEntries.value`. */
    var moodEntries: seq<MoodEntry>
    /** `_weeklyMoodData.value`. */
    var weeklyMoodData: CountMap
    /** The cutoff of the weekly collection started by `loadWeeklyData`, if any. */
    var weeklyCutoff: Option<int>

    ghost predicate Valid()
      reads repository.moodDao
    {
      repository.Valid()
    }

    /** The state after every running collection has received the current query results. */
    ghost predicate Published()
      reads this, repository.moodDao
    {
      && moodEntries == repository.AllMoods()
      && (weeklyCutoff.Some? ==> weeklyMoodData == WeeklyCounts(repository.GetMoodsFromDate(weeklyCutoff.value)))
    }

    /** `init`: starts collecting `allMoods`, whose first emission arrives at once. */
    constructor (repository: MoodRepository)
      requires repository.Valid()
      ensures this.repository == repository && Valid()
      ensures moodEntries == repository.AllMoods()
      ensures weeklyMoodData == [] && weeklyCutoff == None
      ensures Published()
    {
      this.repository := repository;
      moodEntries := repository.AllMoods();
      weeklyMoodData := [];
      weeklyCutoff := None;
    }

    /**
     * One emission of each running collection: the published values are
     * replaced by the current query results, with nothing kept from before.
     */
    method Collect()
      modifies this
      ensures Published()
      ensures weeklyCutoff == old(weeklyCutoff)
      ensures weeklyCutoff.None? ==> weeklyMoodData == old(weeklyMoodData)
    {
      moodEntries := repository.AllMoods();
      if weeklyCutoff.Some? {
        weeklyMoodData := WeeklyCounts(repository.GetMoodsFromDate(weeklyCutoff.value));
      }
    }

    /** `addMoodEntry(mood)`: inserts `MoodEntry(mood = mood)` created at `now`. */
    method AddMoodEntry(mood: string, now: int)
      requires Valid()
      modifies this, repository.moodDao
      ensures Valid() && Published() && weeklyCutoff == old(weeklyCutoff)
      ensures old(weeklyCutoff).None? ==> weeklyMoodData == old(weeklyMoodData)
      ensures repository.moodDao.State() == Inserted(old(repository.moodDao.State()), NewEntry(mood, now))
      ensures var id := old(repository.moodDao.highWater) + 1;
        repository.GetMoodById(id) == Some(MoodEntry(id, mood, now, ""))
      ensures |repository.moodDao.rows| == |old(repository.moodDao.rows)| + 1
    {
      InsertNewEntry(repository.moodDao.State(), mood, now);
      var entry := NewEntry(mood, now);
      repository.InsertMood(entry);
      Collect();
    }

    /** `deleteMoodEntry(mood)`. */
    method DeleteMoodEntry(mood: MoodEntry)
      requires Valid()
      modifies this, repository.moodDao
      ensures Valid() && Published() && weeklyCutoff == old(weeklyCutoff)
      ensures old(weeklyCutoff).None? ==> weeklyMoodData == old(weeklyMoodData)
      ensures repository.moodDao.State() == Deleted(old(repository.moodDao.State()), mood)
    {
      repository.DeleteMood(mood);
      Collect();
    }

    /** `updateMoodEntry(mood)`. */
    method UpdateMoodEntry(mood: MoodEntry)
      requires Valid()
      modifies this, repository.moodDao
      ensures Valid() && Published() && weeklyCutoff == old(weeklyCutoff)
      ensures old(weeklyCutoff).None? ==> weeklyMoodData == old(weeklyMoodData)
      ensures repository.moodDao.State() == Updated(old(repository.moodDao.State()), mood)
    {
      repository.UpdateMood(mood);
      Collect();
    }

    /** `getMoodById(id)`: the repository's answer, unchanged. */
    function GetMoodById(id: int): (r: Option<MoodEntry>)
      reads repository.moodDao
      ensures r == repository.GetMoodById(id)
      ensures r.Some? ==> r.value.id == id && r.value in repository.moodDao.rows
    {
      repository.GetMoodById(id)
    }

    /**
     * `loadWeeklyData()` with the cutoff `sevenDaysAgo` already computed:
     * starts collecting the rows since the cutoff and publishes the counts of
     * the first emission.
     */
    method LoadWeeklyData(sevenDaysAgo: int)
      modifies this
      ensures weeklyCutoff == Some(sevenDaysAgo)
      ensures weeklyMoodData == WeeklyCounts(repository.GetMoodsFromDate(sevenDaysAgo))
      ensures moodEntries == old(moodEntries)
    {
      weeklyCutoff := Some(sevenDaysAgo);
      weeklyMoodData := WeeklyCounts(repository.GetMoodsFromDate(sevenDaysAgo));
    }
  }
}
