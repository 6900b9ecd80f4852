/**
 * The edit form of the detail screen
 * (app/src/main/java/com/Madhu/moodtracker/ui/DetailScreen.kt): the three
 * pieces of remembered state, the load effect, the mood cards, the note
 * field and the save action.
 */
module Detail {
  import opened Wrappers
  import opened Text
  import opened Entries
  import opened Dao
  import opened ViewModel
  import opened WeeklyReport

  /** The emoji shown when the selected label has no second piece. */
  const DefaultEmoji: string := "\U{1F60A}"

  /**
   * `selectedMood.split(" ").getOrNull(1) ?: "😊"`: the text between the
   * first and the second space (or the end); the default without a space.
   */
  function DisplayedEmoji(mood: string): (e: string)
    ensures Space !in mood ==> e == DefaultEmoji
    ensures Space in mood ==> Space !in e && MoodName(mood) + [Space] + e <= mood
    ensures Space in mood ==>
      var end := |MoodName(mood)| + 1 + |e|;
      end == |mood| || mood[end] == Space
  {
    SplitShape(mood);
    SecondPiece(mood);
    Piece(mood, 1).GetOr(DefaultEmoji)
  }

  /** `isSelected = mood == selectedMood` for the card of `card`. */
  function CardSelected(card: string, selectedMood: string): bool
  {
    card == selectedMood
  }

  /** After choosing the card of `labels[i]`, exactly that card is marked. */
  lemma ExactlyOneCardSelected(labels: seq<string>, i: nat)
    requires WellFormedLabels(labels) && i < |labels|
    ensures forall j :: 0 <= j < |labels| ==> (CardSelected(labels[j], labels[i]) <==> j == i)
  {
  }

  /** Both the labels as written and the intended labels mark exactly the chosen card. */
  lemma ExactlyOneCardSelectedForAvailableMoods(i: nat)
    requires i < |AvailableMoods|
    ensures forall j :: 0 <= j < |AvailableMoodsAsWritten| ==>
      (CardSelected(AvailableMoodsAsWritten[j], AvailableMoodsAsWritten[i]) <==> j == i)
    ensures forall j :: 0 <= j < |AvailableMoods| ==>
      (CardSelected(AvailableMoods[j], AvailableMoods[i]) <==> j == i)
  {
    AvailableMoodsAsWrittenWellFormed();
    ExactlyOneCardSelected(AvailableMoodsAsWritten, i);
    AvailableMoodsWellFormed();
    ExactlyOneCardSelected(AvailableMoods, i);
  }

  /**
   * Saving a loaded entry with a new mood and note: afterwards the row reads
   * back with the new mood and note, and with the id and timestamp it had.
   */
  lemma SaveKeepsIdentity(t: Table, entry: MoodEntry, mood: string, note: string)
    requires t.Valid() && MoodById(t, entry.id) == Some(entry)
    ensures var saved := MoodById(Updated(t, CopyWith(entry, mood, note)), entry.id);
      && saved.Some?
      && saved.value.mood == mood && saved.value.note == note
      && saved.value.id == entry.id && saved.value.timestamp == entry.timestamp
  {
    UpdateEffect(t, CopyWith(entry, mood, note));
  }

  /** The big emoji of a label made of a name, one space and an emoji is that emoji. */
  lemma LabelEmoji(name: string, emoji: string)
    requires Space !in name && Space !in emoji
    ensures DisplayedEmoji(name + [Space] + emoji) == emoji
  {
    LabelParts(name, emoji);
    assert Piece(name + [Space] + emoji, 1) == Some(emoji);
  }

  /** With the labels as written, the big emoji shows the garbled text, not the face the report uses. */
  lemma GarbledEmojiShown()
    ensures forall i :: 0 <= i < |AvailableMoodsAsWritten| ==>
      && DisplayedEmoji(AvailableMoodsAsWritten[i]) == GarbledEmojis[i]
      && DisplayedEmoji(AvailableMoodsAsWritten[i]) != MoodEmoji(MoodName(AvailableMoodsAsWritten[i]))
  {
    ReportEmojisOfNames();
    forall i | 0 <= i < |AvailableMoodsAsWritten|
      ensures DisplayedEmoji(AvailableMoodsAsWritten[i]) == GarbledEmojis[i]
      ensures MoodEmoji(MoodName(AvailableMoodsAsWritten[i])) == IntendedEmojis[i]
      ensures GarbledEmojis[i] != IntendedEmojis[i]
    {
      assert AvailableMoodsAsWritten[i] == MoodNames[i] + [Space] + GarbledEmojis[i];
      assert Space !in MoodNames[i] && Space !in GarbledEmojis[i];
      LabelEmoji(MoodNames[i], GarbledEmojis[i]);
      LabelParts(MoodNames[i], GarbledEmojis[i]);
      assert GarbledEmojis[i][0] != IntendedEmojis[i][0];
    }
  }

  /** With the intended labels, the big emoji is the face the report shows for the same name. */
  lemma DetailEmojiMatchesReport()
    ensures forall i :: 0 <= i < |AvailableMoods| ==>
      && DisplayedEmoji(AvailableMoods[i]) == IntendedEmojis[i]
      && DisplayedEmoji(AvailableMoods[i]) == MoodEmoji(MoodName(AvailableMoods[i]))
  {
    ReportEmojisOfNames();
    forall i | 0 <= i < |AvailableMoods|
      ensures DisplayedEmoji(AvailableMoods[i]) == IntendedEmojis[i]
      ensures MoodEmoji(MoodName(AvailableMoods[i])) == IntendedEmojis[i]
    {
      assert AvailableMoods[i] == MoodNames[i] + [Space] + IntendedEmojis[i];
      assert Space !in MoodNames[i] && Space !in IntendedEmojis[i];
      LabelEmoji(MoodNames[i], IntendedEmojis[i]);
      LabelParts(MoodNames[i], IntendedEmojis[i]);
    }
  }

  class DetailForm {
    /** `moodEntry`: the loaded entry, null until the load effect finds one. */
    var moodEntry: Option<MoodEntry>
    /** `noteText`: the text of the note field. */
    var noteText: string
    /** `selectedMood`: the label of the chosen card. */
    var selectedMood: string

    constructor ()
      ensures moodEntry == None && noteText == "" && selectedMood == ""
    {
      moodEntry, noteText, selectedMood := None, "", "";
    }

    /** `LaunchedEffect(moodId)`: loads the entry; a found entry fills the form. */
    method Load(vm: MoodViewModel, moodId: int)
      modifies this
      ensures moodEntry == vm.GetMoodById(moodId)
      ensures moodEntry.Some? ==> noteText == moodEntry.value.note && selectedMood == moodEntry.value.mood
      ensures moodEntry.None? ==> noteText == old(noteText) && selectedMood == old(selectedMood)
    {
      var entry := vm.GetMoodById(moodId);
      moodEntry := entry;
      if entry.Some? {
        noteText := entry.value.note;
        selectedMood := entry.value.mood;
      }
    }

    /** The `onClick` of a mood card. */
    method SelectMood(mood: string)
      modifies this`selectedMood
      ensures selectedMood == mood
    {
      selectedMood := mood;
    }

    /** The `onValueChange` of the note field. */
    method EditNote(text: string)
      modifies this`noteText
      ensures noteText == text
    {
      noteText := text;
    }

    /**
     * The save button: with an entry loaded, sends `entry.copy(mood =
     * selectedMood, note = noteText)` to `updateMoodEntry` and navigates
     * back; with none, does nothing.
     */
    method Save(vm: MoodViewModel) returns (navigateBack: bool)
      requires vm.Valid()
      modifies vm, vm.repository.moodDao
      ensures vm.Valid()
      ensures vm.weeklyCutoff == old(vm.weeklyCutoff)
      ensures old(vm.weeklyCutoff).None? ==> vm.weeklyMoodData == old(vm.weeklyMoodData)
      ensures navigateBack <==> moodEntry.Some?
      ensures moodEntry.Some? ==>
        && vm.repository.moodDao.State()
             == Updated(old(vm.repository.moodDao.State()), CopyWith(moodEntry.value, selectedMood, noteText))
        && vm.Published()
      ensures moodEntry.None? ==> unchanged(vm, vm.repository.moodDao)
    {
      match moodEntry
      case None =>
        navigateBack := false;
      case Some(entry) =>
        var updatedEntry := CopyWith(entry, selectedMood, noteText);
        vm.UpdateMoodEntry(updatedEntry);
        navigateBack := true;
    }
  }
}
