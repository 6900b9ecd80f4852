# Mood tracker core, modelled in Dafny

This project models the part of the mood-journal Android app that has behaviour. That part includes:

- the `mood_entries` table behind the Room DAO `MoodDao`;
- the repository that forwards to the DAO;
- the view model that republishes query results;
- the weekly aggregation (`groupingBy { name }.eachCount()`);
- the derivations of the weekly report screen;
- the edit form of the detail screen.

Modules follow the source files:

- `Entries` (`entries.dfy`): `MoodEntry`: defaults, `copy`, structural equality
- `Dao` (`dao.dfy`): the table as a value (`Table`) and the six DAO operations on it, stated and proved; the class `MoodDao` that holds the table and changes it in place
- `Repository` (`repository.dfy`): `MoodRepository`, which forwards every call to its DAO
- `ViewModel` (`viewmodel.dfy`): `availableMoods`, the weekly counting fold, and the class `MoodViewModel` with its two published fields
- `WeeklyReport` (`weeklyreport.dfy`): empty state, bars, bar scale, colours, total, most frequent mood and its emoji
- `Detail` (`detail.dfy`): the form state (`moodEntry`, `noteText`, `selectedMood`), load, card selection, note edit, save, header emoji
- `Text` (`text.dfy`): Kotlin's `split(" ")`, `getOrNull`, and their inverse `joinToString(" ")`
- `Counting` (`counting.dfy`): the insertion-ordered `Map<String, Int>` of `eachCount`, plus `sum`, `maxOrNull` and `maxByOrNull`
- `Wrappers` (`wrappers.dfy`): nullable results and `?:`

Design decisions:

- **Id allocation.** `@PrimaryKey(autoGenerate = true)` gives an AUTOINCREMENT key. The table therefore keeps a high-water mark: the largest id it has ever held. Inserting an entry whose id is 0 gives it the id one above that mark, as SQLite's AUTOINCREMENT does, and `ViewModel.MoodViewModel.AddMoodEntry` promises exactly that id. That id is fresh and above every id the table has held, so ids are never reused.
- **Row order.** The row order decides only the tie order of the two list queries, and no contract promises that order. `ORDER BY timestamp DESC` is modelled by a stable insertion sort. Its contracts promise a newest-first permutation and nothing about ties.
- **Flows.** Each Flow emission is the query result over the current table. In `MoodViewModel`, every mutation is followed by the emission it triggers (`Collect`). Each emission replaces both published values wholesale.
- **Clock.** `System.currentTimeMillis()` and the `Calendar` cutoff are parameters: `now` and `sevenDaysAgo`.

Two further points:

- Equal timestamps: the SQL fixes no tie order, so none is promised.
- A label outside the five moods is rejected by neither the DAO nor the view model, nor by the model.

## Model

| member | source | states |
|---|---|---|
| `Entries.NewEntry` | app/src/main/java/com/Madhu/moodtracker/data/MoodEntry.kt:10-16 | `MoodEntry(mood = mood)` has id 0 (not yet assigned), an empty note, the given label, and the creation time passed in |
| `Entries.CopyWith` | app/src/main/java/com/Madhu/moodtracker/data/MoodEntry.kt:10-16 | `copy(mood, note)` sets mood and note and keeps id and timestamp |
| `Entries.StructuralEquality` | app/src/main/java/com/Madhu/moodtracker/data/MoodEntry.kt:10-16 | two entries are equal exactly when all four fields are equal |
| `Dao.Lookup` | app/src/main/java/com/Madhu/moodtracker/data/MoodDao.kt:11-12 | `WHERE id = :id` returns a row of the table carrying that id, and null exactly when no row carries it |
| `Dao.LookupFinds` | app/src/main/java/com/Madhu/moodtracker/data/MoodDao.kt:11-12 | with a unique key, every row is found under its own id |
| `Dao.Since` | app/src/main/java/com/Madhu/moodtracker/data/MoodDao.kt:23 | `WHERE timestamp >= :startTime` keeps each row at or after the cutoff with its multiplicity and drops every other row |
| `Dao.OrderByTimestampDesc` | app/src/main/java/com/Madhu/moodtracker/data/MoodDao.kt:8 | `ORDER BY timestamp DESC` is a permutation of its input with timestamps never increasing |
| `Dao.Without` | app/src/main/java/com/Madhu/moodtracker/data/MoodDao.kt:20-21 | delete by primary key keeps exactly the rows with another id, and keeps the key unique |
| `Dao.Replaced` | app/src/main/java/com/Madhu/moodtracker/data/MoodDao.kt:17-18 | update by primary key replaces each row with the entry's id by the entry and keeps every other row in place |
| `Dao.Stored` | app/src/main/java/com/Madhu/moodtracker/data/MoodDao.kt:14-15 | the row an insert stores is the entry itself for a non-zero id; for id 0 it is the entry under a generated id above the high-water mark |
| `Dao.AllMoods` | app/src/main/java/com/Madhu/moodtracker/data/MoodDao.kt:8-9 | `getAllMoods` is a newest-first permutation of the table |
| `Dao.MoodById` | app/src/main/java/com/Madhu/moodtracker/data/MoodDao.kt:11-12 | `getMoodById` gives the row with that id, or null exactly when there is none |
| `Dao.MoodsFromDate` | app/src/main/java/com/Madhu/moodtracker/data/MoodDao.kt:23-24 | `getMoodsFromDate` is newest first and holds exactly the rows with `timestamp >= startTime` |
| `Dao.Inserted` | app/src/main/java/com/Madhu/moodtracker/data/MoodDao.kt:14-15 | insert with REPLACE keeps the table valid (unique key, no id 0, no id above the mark) and makes the stored row the one found under its id |
| `Dao.Updated` | app/src/main/java/com/Madhu/moodtracker/data/MoodDao.kt:17-18 | update keeps the table valid and the high-water mark unchanged |
| `Dao.Deleted` | app/src/main/java/com/Madhu/moodtracker/data/MoodDao.kt:20-21 | delete keeps the table valid and the high-water mark unchanged |
| `Dao.UniqueRowsOnce` | app/src/main/java/com/Madhu/moodtracker/data/MoodDao.kt:8-9 | under a unique key every row occurs exactly once |
| `Dao.AllMoodsExactlyOnce` | app/src/main/java/com/Madhu/moodtracker/data/MoodDao.kt:8-9 | `getAllMoods` returns every row exactly once, newest first |
| `Dao.MoodsFromDateMembers` | app/src/main/java/com/Madhu/moodtracker/data/MoodDao.kt:23-24 | an entry is in `getMoodsFromDate(t)` if and only if it is a row with `timestamp >= t` |
| `Dao.MoodsFromDateWithinAll` | app/src/main/java/com/Madhu/moodtracker/data/MoodDao.kt:8-24 | `getMoodsFromDate(t)` is a sub-multiset of `getAllMoods` |
| `Dao.MoodsFromDateMonotone` | app/src/main/java/com/Madhu/moodtracker/data/MoodDao.kt:23-24 | an earlier cutoff never yields fewer rows |
| `Dao.InsertEffect` | app/src/main/java/com/Madhu/moodtracker/data/MoodDao.kt:14-15 | insert: the stored row is found under its id; a generated id was free before; the row count grows by one for a new id and stays the same when an existing row is replaced; every other id looks up as before |
| `Dao.UpdateEffect` | app/src/main/java/com/Madhu/moodtracker/data/MoodDao.kt:17-18 | update: the count is unchanged; the entry's id then finds the entry if a row had that id, and null otherwise; other ids look up as before; with no match the table is unchanged |
| `Dao.DeleteEffect` | app/src/main/java/com/Madhu/moodtracker/data/MoodDao.kt:20-21 | delete: the id then looks up null; the count drops by one exactly when a row matched; other ids look up as before; with no match the table is unchanged |
| `Dao.GeneratedIdsAreFresh` | app/src/main/java/com/Madhu/moodtracker/data/MoodEntry.kt:11-12 | a generated id is above every id in the table before the insert and the largest id after it |
| `Dao.InsertNewEntry` | app/src/main/java/com/Madhu/moodtracker/data/MoodDao.kt:14-15 | inserting an entry with id 0 adds one row, found under the id one above the mark, with the entry's label, time and note |
| `Dao.WithoutSize` | app/src/main/java/com/Madhu/moodtracker/data/MoodDao.kt:20-21 | under a unique key, delete removes one row when the id is present and none otherwise |
| `Dao.MoodDao.GetAllMoods` | app/src/main/java/com/Madhu/moodtracker/data/MoodDao.kt:8-9 | one emission of `getAllMoods`: a newest-first permutation of the rows |
| `Dao.MoodDao.GetMoodById` | app/src/main/java/com/Madhu/moodtracker/data/MoodDao.kt:11-12 | the row with that id, or null exactly when none has it |
| `Dao.MoodDao.GetMoodsFromDate` | app/src/main/java/com/Madhu/moodtracker/data/MoodDao.kt:23-24 | newest first, holding each row at or after the cutoff exactly as often as the table does (once, under the unique key) and no other row |
| `Dao.MoodDao.InsertMood` | app/src/main/java/com/Madhu/moodtracker/data/MoodDao.kt:14-15 | the new table is `Inserted` of the old; the stored row is then found; id 0 adds a row; an existing id keeps the count; other ids are unchanged |
| `Dao.MoodDao.UpdateMood` | app/src/main/java/com/Madhu/moodtracker/data/MoodDao.kt:17-18 | the new table is `Updated` of the old; the count is unchanged; only the matching id changes; with no match the rows are unchanged |
| `Dao.MoodDao.DeleteMood` | app/src/main/java/com/Madhu/moodtracker/data/MoodDao.kt:20-21 | the new table is `Deleted` of the old; the id then looks up null; other ids are unchanged; with no match the rows are unchanged |
| `Repository.MoodRepository.AllMoods` | app/src/main/java/com/Madhu/moodtracker/data/MoodRepository.kt:6 | `allMoods` is the DAO's `getAllMoods` result |
| `Repository.MoodRepository.GetMoodById` | app/src/main/java/com/Madhu/moodtracker/data/MoodRepository.kt:8-10 | exactly the DAO's answer for the same id, null included |
| `Repository.MoodRepository.GetMoodsFromDate` | app/src/main/java/com/Madhu/moodtracker/data/MoodRepository.kt:24-26 | the DAO's query at the same cutoff: each row at or after it with its multiplicity, and no other row |
| `Repository.MoodRepository.InsertMood` | app/src/main/java/com/Madhu/moodtracker/data/MoodRepository.kt:12-14 | the table effect of the DAO's insert of the same entry |
| `Repository.MoodRepository.UpdateMood` | app/src/main/java/com/Madhu/moodtracker/data/MoodRepository.kt:16-18 | the table effect of the DAO's update of the same entry |
| `Repository.MoodRepository.DeleteMood` | app/src/main/java/com/Madhu/moodtracker/data/MoodRepository.kt:20-22 | the table effect of the DAO's delete of the same entry |
| `ViewModel.MoodName` | app/src/main/java/com/Madhu/moodtracker/viewmodel/MoodViewModel.kt:74 | `split(" ")[0]` is the space-free text before the first space, and the whole label when it has no space |
| `ViewModel.AvailableMoodsWellFormed` | app/src/main/java/com/Madhu/moodtracker/viewmodel/MoodViewModel.kt:24-30 | each of the five labels contains a space and splits into exactly two pieces; its name is Happy, Calm, Neutral, Sad or Anxious in that order; names and labels are distinct |
| `ViewModel.AvailableMoodsAsWrittenWellFormed` | app/src/main/java/com/Madhu/moodtracker/viewmodel/MoodViewModel.kt:24-30 | the same holds for the labels with the code points the file holds |
| `ViewModel.WeeklyKeys` | app/src/main/java/com/Madhu/moodtracker/viewmodel/MoodViewModel.kt:73-74 | the key of each emitted entry is its mood name, in query order |
| `ViewModel.WeeklyCounts` | app/src/main/java/com/Madhu/moodtracker/viewmodel/MoodViewModel.kt:72-76 | the weekly map has distinct keys |
| `ViewModel.WeeklyKeySet` | app/src/main/java/com/Madhu/moodtracker/viewmodel/MoodViewModel.kt:73-75 | the keys are exactly the names of the entries in the window |
| `ViewModel.WeeklyCountsPositive` | app/src/main/java/com/Madhu/moodtracker/viewmodel/MoodViewModel.kt:73-75 | each key maps to the number of entries with that name, which is at least 1, so no zero counts appear |
| `ViewModel.WeeklyCountsSum` | app/src/main/java/com/Madhu/moodtracker/viewmodel/MoodViewModel.kt:72-75 | the counts add up to the number of entries in the window |
| `ViewModel.WeeklyKeyOrder` | app/src/main/java/com/Madhu/moodtracker/viewmodel/MoodViewModel.kt:73-76 | the keys are in first-encounter order when scanning the query result |
| `ViewModel.LabelParts` | app/src/main/java/com/Madhu/moodtracker/viewmodel/MoodViewModel.kt:74 | a label of a space-free name, a space and a space-free emoji keys as the name |
| `ViewModel.MoodViewModel.constructor` | app/src/main/java/com/Madhu/moodtracker/viewmodel/MoodViewModel.kt:18-41 | `init` publishes the first emission of `allMoods`; the weekly map starts empty and no weekly collection runs |
| `ViewModel.MoodViewModel.Collect` | app/src/main/java/com/Madhu/moodtracker/viewmodel/MoodViewModel.kt:37-39 | an emission replaces `moodEntries` and, while a weekly collection runs, `weeklyMoodData` with the current query results; nothing is merged |
| `ViewModel.MoodViewModel.AddMoodEntry` | app/src/main/java/com/Madhu/moodtracker/viewmodel/MoodViewModel.kt:43-48 | inserts `MoodEntry(mood = mood)`; the table gains one row, found under the next id with that label, the given time and an empty note; the weekly map changes only through a running weekly collection |
| `ViewModel.MoodViewModel.DeleteMoodEntry` | app/src/main/java/com/Madhu/moodtracker/viewmodel/MoodViewModel.kt:50-54 | the table effect of the DAO's delete, then republication; the weekly map changes only through a running weekly collection |
| `ViewModel.MoodViewModel.UpdateMoodEntry` | app/src/main/java/com/Madhu/moodtracker/viewmodel/MoodViewModel.kt:56-60 | the table effect of the DAO's update, then republication; the weekly map changes only through a running weekly collection |
| `ViewModel.MoodViewModel.GetMoodById` | app/src/main/java/com/Madhu/moodtracker/viewmodel/MoodViewModel.kt:62-64 | the repository's result, unchanged |
| `ViewModel.MoodViewModel.LoadWeeklyData` | app/src/main/java/com/Madhu/moodtracker/viewmodel/MoodViewModel.kt:66-79 | records the cutoff and publishes the weekly counts of the rows since it; `moodEntries` is untouched |
| `Counting.Bump` | app/src/main/java/com/Madhu/moodtracker/viewmodel/MoodViewModel.kt:73-75 | one step of `eachCount`: the key's count grows by one; a new key goes last; other counts stay the same |
| `Counting.EachCount` | app/src/main/java/com/Madhu/moodtracker/viewmodel/MoodViewModel.kt:73-75 | distinct keys, exactly the elements seen, each mapped to its number of occurrences |
| `Counting.EachCountEntries` | app/src/main/java/com/Madhu/moodtracker/viewmodel/MoodViewModel.kt:73-75 | every entry holds its key's number of occurrences, which is at least 1 |
| `Counting.EachCountSum` | app/src/main/java/com/Madhu/moodtracker/viewmodel/MoodViewModel.kt:73-75 | the counts add up to the number of elements |
| `Counting.EachCountOrder` | app/src/main/java/com/Madhu/moodtracker/viewmodel/MoodViewModel.kt:73-76 | the keys are in first-encounter order |
| `Counting.FirstSeenOrderStep` | app/src/main/java/com/Madhu/moodtracker/viewmodel/MoodViewModel.kt:73-75 | scanning one more element keeps first-encounter order, and a new key goes last |
| `Counting.MaxOrNull` | app/src/main/java/com/Madhu/moodtracker/ui/WeeklyReportScreen.kt:118 | `maxOrNull` is null exactly for no values; otherwise it is one of the values and no value exceeds it |
| `Counting.FirstMaxFrom` | app/src/main/java/com/Madhu/moodtracker/ui/WeeklyReportScreen.kt:218 | the scan of `maxByOrNull` ends on the first entry with the largest value |
| `Counting.MaxByValue` | app/src/main/java/com/Madhu/moodtracker/ui/WeeklyReportScreen.kt:218 | `maxByOrNull { it.value }` is null exactly for an empty map; otherwise it is the first entry whose value no entry exceeds |
| `Counting.FirstMaxUnique` | app/src/main/java/com/Madhu/moodtracker/ui/WeeklyReportScreen.kt:218 | the first entry with the largest value is unique |
| `WeeklyReport.MaxCount` | app/src/main/java/com/Madhu/moodtracker/ui/WeeklyReportScreen.kt:118 | the bar scale is 1 for an empty map; otherwise it is the largest count; no count exceeds it |
| `WeeklyReport.MaxCountPositive` | app/src/main/java/com/Madhu/moodtracker/ui/WeeklyReportScreen.kt:118 | with positive counts the bar scale is at least 1 |
| `WeeklyReport.BarColor` | app/src/main/java/com/Madhu/moodtracker/ui/WeeklyReportScreen.kt:119-125 | a known name gets its palette colour; gray is returned exactly for unknown names |
| `WeeklyReport.MoodEmoji` | app/src/main/java/com/Madhu/moodtracker/ui/WeeklyReportScreen.kt:288-295 | the chart emoji is returned exactly for names other than the five mood names |
| `WeeklyReport.MoodEmojisDistinct` | app/src/main/java/com/Madhu/moodtracker/ui/WeeklyReportScreen.kt:288-293 | the five names have five different emoji |
| `WeeklyReport.MostFrequent` | app/src/main/java/com/Madhu/moodtracker/ui/WeeklyReportScreen.kt:218-256 | the most-frequent card is absent exactly for an empty map; otherwise it shows the first entry with the largest count, and that name's emoji |
| `WeeklyReport.Report` | app/src/main/java/com/Madhu/moodtracker/ui/WeeklyReportScreen.kt:74-118 | the empty state is shown exactly when the map is empty; otherwise there is one bar per entry in map order, each with its count and colour, plus the bar scale, the total (the sum of the values) and the most-frequent card `MostFrequent` gives |
| `WeeklyReport.WeeklyReportFacts` | app/src/main/java/com/Madhu/moodtracker/ui/WeeklyReportScreen.kt:74-217 | for a week's emission: empty state exactly when no entry is in the window; otherwise the total is the number of entries in the window and the bar scale is at least 1 |
| `Detail.DisplayedEmoji` | app/src/main/java/com/Madhu/moodtracker/ui/DetailScreen.kt:102 | the header emoji is the space-free text after the first space, up to the next space or the end; "😊" when the label has no space |
| `Detail.LabelEmoji` | app/src/main/java/com/Madhu/moodtracker/ui/DetailScreen.kt:102 | for a name, one space and an emoji, the header emoji is that emoji |
| `Detail.ExactlyOneCardSelected` | app/src/main/java/com/Madhu/moodtracker/ui/DetailScreen.kt:135-137 | for any well-formed label list, selecting the i-th label marks exactly the i-th card |
| `Detail.ExactlyOneCardSelectedForAvailableMoods` | app/src/main/java/com/Madhu/moodtracker/ui/DetailScreen.kt:135-137 | both the labels as written and the intended labels mark exactly the chosen card |
| `Detail.SaveKeepsIdentity` | app/src/main/java/com/Madhu/moodtracker/ui/DetailScreen.kt:58-63 | after saving a loaded entry, its row reads back with the new mood and note and with the original id and timestamp |
| `WeeklyReport.ReportEmojisOfNames` | app/src/main/java/com/Madhu/moodtracker/ui/WeeklyReportScreen.kt:288-293 | the report's emoji for each mood name is that mood's face |
| `Detail.GarbledEmojiShown` | app/src/main/java/com/Madhu/moodtracker/viewmodel/MoodViewModel.kt:24-30 | with the labels as written, every header emoji is mis-encoded text, not the face the report uses |
| `Detail.DetailEmojiMatchesReport` | app/src/main/java/com/Madhu/moodtracker/ui/DetailScreen.kt:102 | with the intended labels, the header emoji equals the report's emoji for the same name |
| `Detail.DetailForm.constructor` | app/src/main/java/com/Madhu/moodtracker/ui/DetailScreen.kt:27-29 | the form starts with no entry, an empty note and no selected mood |
| `Detail.DetailForm.Load` | app/src/main/java/com/Madhu/moodtracker/ui/DetailScreen.kt:32-41 | stores the view model's answer; a found entry sets the note and selection to its note and label; null leaves them as they were |
| `Detail.DetailForm.SelectMood` | app/src/main/java/com/Madhu/moodtracker/ui/DetailScreen.kt:137-150 | clicking a card makes its label the selection, and only `selectedMood` changes |
| `Detail.DetailForm.EditNote` | app/src/main/java/com/Madhu/moodtracker/ui/DetailScreen.kt:187 | editing the note changes only `noteText` |
| `Detail.DetailForm.Save` | app/src/main/java/com/Madhu/moodtracker/ui/DetailScreen.kt:57-66 | with an entry loaded: sends `copy(mood = selectedMood, note = noteText)` to the update, republishes, and navigates back; with none: changes nothing and stays; the weekly cutoff is kept either way, and the weekly map changes only through a running weekly collection |
| `Text.Split` | app/src/main/java/com/Madhu/moodtracker/viewmodel/MoodViewModel.kt:74 | `split(" ")` gives at least one piece, and no piece contains a space |
| `Text.Piece` | app/src/main/java/com/Madhu/moodtracker/ui/DetailScreen.kt:102 | `getOrNull(i)` is present exactly when there are more than `i` pieces, and is then the i-th piece |
| `Text.JoinSplit` | app/src/main/java/com/Madhu/moodtracker/viewmodel/MoodViewModel.kt:74 | joining the pieces with single spaces gives the label back |
| `Text.SplitJoin` | app/src/main/java/com/Madhu/moodtracker/viewmodel/MoodViewModel.kt:74 | splitting space-free pieces joined by spaces gives the pieces back |
| `Text.SplitShape` | app/src/main/java/com/Madhu/moodtracker/viewmodel/MoodViewModel.kt:74 | the first piece is the text before the first space; the rest are the pieces after it |
| `Text.SecondPiece` | app/src/main/java/com/Madhu/moodtracker/ui/DetailScreen.kt:102 | a label with a space has a second piece; it follows the first piece and one space and runs to the next space or the end |

## Left out

- Compose layout, modifiers, typography, colour schemes and icons, including `MainScreen.kt` and `Theme.kt`. They carry no behaviour beyond the derivations modelled above.
- Navigation and the activity (`Navigation.kt`, `MainActivity.kt`). Route parsing is done by the navigation library.
- `MoodDatabase` and Room's generated code are not part of this model. The table is abstract, and the SQLite sort is stood in for by an insertion sort whose tie order is not promised.
- Coroutines, `viewModelScope`, `StateFlow`, and the asynchronous delivery of emissions. Emissions are synchronous snapshots.
- `ViewModel.MoodViewModel.LoadWeeklyData`: each call to `loadWeeklyData` starts one more collection that is never cancelled, each with its own cutoff. The model keeps only the latest cutoff.
- The `Calendar` arithmetic for "seven days ago" (time zone and DST dependent) and `System.currentTimeMillis()`. Both are parameters.
- `getFormattedTimestamp` and `getFormattedDate`. They depend on `SimpleDateFormat`, the locale and the time zone.
- The bar width `count.toFloat() / maxCount`. It is floating point; only `maxCount >= 1` is kept.
- 64-bit `Long` ids and timestamps, and 32-bit `Int` counts, are unbounded integers. Timestamps are only compared; ids are compared and, for a generated id, incremented. A count overflow would need more than 2^31 rows.
- Storage failures and exceptions thrown by the database, including SQLite's SQLITE_FULL failure once the largest 64-bit id has been used.
- The destructuring `val (moodName, emoji) = mood.split(" ")` of the mood cards throws for a label with fewer than two pieces. `ViewModel.AvailableMoodsAsWrittenWellFormed` shows that every label the source holds has exactly two pieces, so that exception is not modelled.
- `Detail.DetailForm.SelectMood`: card clicks and note edits are allowed before an entry is loaded. The screen only shows those controls once one is loaded.

## Findings

| source | as written | input that shows it | evidently intended | confidence | as-written member | corrected member |
|---|---|---|---|---|---|---|
| app/src/main/java/com/Madhu/moodtracker/viewmodel/MoodViewModel.kt:24-30 | the label emoji are UTF-8 bytes read back as Windows-1252 text (`Happy ðŸ˜Š`); the Neutral one also lost a byte | selecting `Happy ðŸ˜Š` makes the detail header show `ðŸ˜Š`, while the report shows 😊 for Happy | each label is its name, a space, and the face the report uses for that name (😊 🙂 😐 😟 😬) | medium, not executed: shown by the code points stored in the file | `Detail.GarbledEmojiShown` (labels `ViewModel.AvailableMoodsAsWritten`) | `Detail.DetailEmojiMatchesReport` (labels `ViewModel.AvailableMoods`; the rest of the model accepts any label) |
