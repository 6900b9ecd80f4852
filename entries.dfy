/**
 * The `mood_entries` row, the Kotlin data class `MoodEntry`
 * (app/src/main/java/com/Madhu/moodtracker/data/MoodEntry.kt).
 *
 * `id` is the auto-generated primary key, where 0 means "not yet assigned";
 * `mood` is the combined label (name, a space, an emoji); `timestamp` is the
 * creation time in milliseconds; `note` is free text. The default
 * `System.currentTimeMillis()` of `timestamp` is a clock read, so the
 * creation time is always passed in.
 */
module Entries {

  datatype MoodEntry = MoodEntry(id: int := 0, mood: string, timestamp: int, note: string := "")

  /** `MoodEntry(mood = mood)` evaluated at time `now`. */
  function NewEntry(mood: string, now: int): (e: MoodEntry)
    ensures e.id == 0 && e.note == ""
    ensures e.mood == mood && e.timestamp == now
  {
    MoodEntry(mood := mood, timestamp := now)
  }

  /** `entry.copy(mood = mood, note = note)`. */
  function CopyWith(entry: MoodEntry, mood: string, note: string): (e: MoodEntry)
    ensures e.id == entry.id && e.timestamp == entry.timestamp
    ensures e.mood == mood && e.note == note
  {
    entry.(mood := mood, note := note)
  }

  /** Data-class equality compares all four properties. */
  lemma StructuralEquality(a: MoodEntry, b: MoodEntry)
    ensures a == b <==> (a.id == b.id && a.mood == b.mood && a.timestamp == b.timestamp && a.note == b.note)
  {
  }
}
