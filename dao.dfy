/**
 * The `mood_entries` table and the six operations of `MoodDao`
 * (app/src/main/java/com/Madhu/moodtracker/data/MoodDao.kt).
 *
 * The table is a sequence of rows whose order carries no meaning, together
 * with the high-water mark that SQLite keeps for an AUTOINCREMENT key (the
 * primary key is `@PrimaryKey(autoGenerate = true)`): a generated id is one
 * more than the largest id the table has ever held, so ids are never reused.
 * The queries are stated as filter-then-order functions on a table value; the
 * class `MoodDao` holds the table and its methods change it in place.
 */
module Dao {
  import opened Wrappers
  import opened Entries

  /** The primary key is unique. */
  predicate UniqueIds(rows: seq<MoodEntry>)
  {
    forall i, j :: 0 <= i < j < |rows| ==> rows[i].id != rows[j].id
  }

  /** `ORDER BY timestamp DESC`: timestamps never increase along the result. */
  predicate NewestFirst(rows: seq<MoodEntry>)
  {
    forall i, j :: 0 <= i < j < |rows| ==> rows[i].timestamp >= rows[j].timestamp
  }

  datatype Table = Table(rows: seq<MoodEntry>, highWater: int) {
    /** Unique keys, no row under the unassigned id 0, and no id above the high-water mark. */
    predicate Valid()
    {
      && UniqueIds(rows)
      && 0 <= highWater
      && (forall e :: e in rows ==> e.id != 0 && e.id <= highWater)
    }
  }

  /** `WHERE id = :id`. */
  function Lookup(rows: seq<MoodEntry>, id: int): (r: Option<MoodEntry>)
    ensures r.Some? ==> r.value in rows && r.value.id == id
    ensures r.None? <==> forall e :: e in rows ==> e.id != id
  {
    if |rows| == 0 then None
    else if rows[0].id == id then Some(rows[0])
    else
      var r := Lookup(rows[1..], id);
      assert rows == [rows[0]] + rows[1..];
      r
  }

  /** With unique keys, a row is found under its own id. */
  lemma {:induction false} LookupFinds(rows: seq<MoodEntry>, e: MoodEntry)
    requires UniqueIds(rows) && e in rows
    ensures Lookup(rows, e.id) == Some(e)
  {
    if rows[0] != e {
      var k :| 0 <= k < |rows| && rows[k] == e;
      assert k != 0;
      assert rows[1..][k - 1] == e;
      LookupFinds(rows[1..], e);
    }
  }

  /** With unique keys, no later row shares the first row's id. */
  lemma TailIds(rows: seq<MoodEntry>)
    requires |rows| > 0
    ensures UniqueIds(rows) ==> forall x :: x in rows[1..] ==> x.id != rows[0].id
  {
    if UniqueIds(rows) {
      forall x | x in rows[1..] ensures x.id != rows[0].id {
        var k :| 0 <= k < |rows[1..]| && rows[1..][k] == x;
        assert rows[k + 1] == x;
      }
    }
  }

  /** With unique keys every row occurs exactly once. */
  lemma {:induction false} UniqueRowsOnce(rows: seq<MoodEntry>)
    requires UniqueIds(rows)
    ensures forall e :: multiset(rows)[e] == if e in rows then 1 else 0
  {
    if |rows| > 0 {
      UniqueRowsOnce(rows[1..]);
      assert rows == [rows[0]] + rows[1..];
      TailIds(rows);
    }
  }

  /** `WHERE timestamp >= :startTime`. */
  function Since(rows: seq<MoodEntry>, startTime: int): (r: seq<MoodEntry>)
    ensures forall e :: multiset(r)[e] == if e.timestamp >= startTime then multiset(rows)[e] else 0
  {
    if |rows| == 0 then []
    else
      assert rows == [rows[0]] + rows[1..];
      var rest := Since(rows[1..], startTime);
      if rows[0].timestamp >= startTime then [rows[0]] + rest else rest
  }

  /** Puts `e` into a newest-first sequence, ahead of rows with the same timestamp. */
  function InsertNewestFirst(e: MoodEntry, s: seq<MoodEntry>): (r: seq<MoodEntry>)
    requires NewestFirst(s)
    ensures |r| == |s| + 1
    ensures r[0] == e || (|s| > 0 && r[0] == s[0])
    ensures NewestFirst(r)
    ensures multiset(r) == multiset(s) + multiset{e}
  {
    if |s| == 0 || e.timestamp >= s[0].timestamp then
      [e] + s
    else
      var rest := InsertNewestFirst(e, s[1..]);
      assert s == [s[0]] + s[1..];
      assert s[0].timestamp >= rest[0].timestamp;
      [s[0]] + rest
  }

  /** `ORDER BY timestamp DESC`: a newest-first permutation of the rows. */
  function OrderByTimestampDesc(rows: seq<MoodEntry>): (r: seq<MoodEntry>)
    ensures NewestFirst(r)
    ensures multiset(r) == multiset(rows)
  {
    if |rows| == 0 then []
    else
      assert rows == [rows[0]] + rows[1..];
      InsertNewestFirst(rows[0], OrderByTimestampDesc(rows[1..]))
  }

  /** `DELETE FROM mood_entries WHERE id = :id`. */
  function Without(rows: seq<MoodEntry>, id: int): (r: seq<MoodEntry>)
    ensures forall e :: e in r <==> e in rows && e.id != id
    ensures UniqueIds(rows) ==> UniqueIds(r)
  {
    if |rows| == 0 then []
    else
      assert rows == [rows[0]] + rows[1..];
      var rest := Without(rows[1..], id);
      if rows[0].id == id then rest
      else
        TailIds(rows);
        [rows[0]] + rest
  }

  /** `UPDATE mood_entries SET … WHERE id = :mood.id`. */
  function Replaced(rows: seq<MoodEntry>, mood: MoodEntry): (r: seq<MoodEntry>)
    ensures |r| == |rows|
    ensures forall i :: 0 <= i < |r| ==> r[i] == if rows[i].id == mood.id then mood else rows[i]
  {
    if |rows| == 0 then []
    else [if rows[0].id == mood.id then mood else rows[0]] + Replaced(rows[1..], mood)
  }

  /** The row `insertMood` stores: an id of 0 is replaced by the next generated id. */
  function Stored(t: Table, mood: MoodEntry): (e: MoodEntry)
    ensures e.mood == mood.mood && e.timestamp == mood.timestamp && e.note == mood.note
    ensures mood.id != 0 ==> e == mood
    ensures mood.id == 0 ==> e.id > t.highWater
  {
    if mood.id == 0 then mood.(id := t.highWater + 1) else mood
  }

  // ---------------------------------------------------------------------
  // The six operations of MoodDao on a table value.

  /** `getAllMoods`: every row, newest first. */
  function AllMoods(t: Table): (r: seq<MoodEntry>)
    ensures NewestFirst(r)
    ensures multiset(r) == multiset(t.rows)
  {
    OrderByTimestampDesc(t.rows)
  }

  /** `getMoodById`: the row with that id, or null. */
  function MoodById(t: Table, id: int): (r: Option<MoodEntry>)
    ensures r.Some? ==> r.value in t.rows && r.value.id == id
    ensures r.None? <==> forall e :: e in t.rows ==> e.id != id
  {
    Lookup(t.rows, id)
  }

  /** `getMoodsFromDate`: the rows at or after `startTime`, newest first. */
  function MoodsFromDate(t: Table, startTime: int): (r: seq<MoodEntry>)
    ensures NewestFirst(r)
    ensures forall e :: multiset(r)[e] == if e.timestamp >= startTime then multiset(t.rows)[e] else 0
  {
    OrderByTimestampDesc(Since(t.rows, startTime))
  }

  /** `insertMood` with `OnConflictStrategy.REPLACE`. */
  function Inserted(t: Table, mood: MoodEntry): (r: Table)
    requires t.Valid()
    ensures r.Valid()
    ensures r.highWater >= t.highWater
    ensures Lookup(r.rows, Stored(t, mood).id) == Some(Stored(t, mood))
  {
    var e := Stored(t, mood);
    var rows := Without(t.rows, e.id) + [e];
    var r := Table(rows, if e.id > t.highWater then e.id else t.highWater);
    LookupFinds(rows, e);
    r
  }

  /** `updateMood`: the row with the entry's id becomes the entry; other rows stay. */
  function Updated(t: Table, mood: MoodEntry): (r: Table)
    requires t.Valid()
    ensures r.Valid()
    ensures r.highWater == t.highWater
  {
    var rows := Replaced(t.rows, mood);
    assert forall e :: e in rows ==> e == mood || e in t.rows;
    assert forall i :: 0 <= i < |rows| ==> rows[i].id == t.rows[i].id;
    Table(rows, t.highWater)
  }

  /** `deleteMood`: the row with the entry's id, if any, is removed. */
  function Deleted(t: Table, mood: MoodEntry): (r: Table)
    requires t.Valid()
    ensures r.Valid()
    ensures r.highWater == t.highWater
  {
    var rows := Without(t.rows, mood.id);
    Table(rows, t.highWater)
  }

  // ---------------------------------------------------------------------
  // What the operations promise.

  /** Under unique keys, the lookup of `id` depends only on which rows carry `id`. */
  lemma LookupDetermined(a: seq<MoodEntry>, b: seq<MoodEntry>, id: int)
    requires UniqueIds(a) && UniqueIds(b)
    requires forall x: MoodEntry :: x.id == id ==> (x in a <==> x in b)
    ensures Lookup(a, id) == Lookup(b, id)
  {
    var ra, rb := Lookup(a, id), Lookup(b, id);
    if ra.Some? {
      LookupFinds(b, ra.value);
    }
    if rb.Some? {
      LookupFinds(a, rb.value);
    }
  }

  lemma {:induction false} WithoutSize(rows: seq<MoodEntry>, id: int)
    requires UniqueIds(rows)
    ensures |Without(rows, id)| == |rows| - if Lookup(rows, id).Some? then 1 else 0
  {
    if |rows| > 0 {
      assert UniqueIds(rows[1..]) by {
        forall i, j | 0 <= i < j < |rows[1..]| ensures rows[1..][i].id != rows[1..][j].id {
          assert rows[1..][i] == rows[i + 1] && rows[1..][j] == rows[j + 1];
        }
      }
      WithoutSize(rows[1..], id);
      if rows[0].id == id {
        TailIds(rows);
        assert Lookup(rows[1..], id).None?;
      }
    }
  }

  lemma {:induction false} WithoutNoMatch(rows: seq<MoodEntry>, id: int)
    requires forall e :: e in rows ==> e.id != id
    ensures Without(rows, id) == rows
  {
    if |rows| > 0 {
      assert rows[0] in rows;
      assert forall e :: e in rows[1..] ==> e in rows;
      WithoutNoMatch(rows[1..], id);
      assert Without(rows, id) == [rows[0]] + Without(rows[1..], id);
      assert rows == [rows[0]] + rows[1..];
    }
  }

  /** `getAllMoods` returns every row exactly once, newest first. */
  lemma AllMoodsExactlyOnce(t: Table)
    requires t.Valid()
    ensures NewestFirst(AllMoods(t))
    ensures forall e :: multiset(AllMoods(t))[e] == if e in t.rows then 1 else 0
  {
    UniqueRowsOnce(t.rows);
  }

  /** `getMoodsFromDate` returns exactly the rows at or after the cutoff. */
  lemma MoodsFromDateMembers(t: Table, startTime: int)
    ensures forall e :: e in MoodsFromDate(t, startTime) <==> e in t.rows && e.timestamp >= startTime
  {
    var r := MoodsFromDate(t, startTime);
    forall e ensures e in r <==> e in t.rows && e.timestamp >= startTime {
      assert e in r <==> e in multiset(r);
      assert e in t.rows <==> e in multiset(t.rows);
    }
  }

  /** The rows since a cutoff are among all rows. */
  lemma MoodsFromDateWithinAll(t: Table, startTime: int)
    ensures multiset(MoodsFromDate(t, startTime)) <= multiset(AllMoods(t))
  {
  }

  /** An earlier cutoff never yields fewer rows. */
  lemma MoodsFromDateMonotone(t: Table, earlier: int, later: int)
    requires earlier <= later
    ensures multiset(MoodsFromDate(t, later)) <= multiset(MoodsFromDate(t, earlier))
  {
  }

  /**
   * `insertMood` stores the entry under its own id, or under a fresh id when it
   * carries 0; an existing row with that id is replaced, so the row count
   * grows only for a new id; every other id looks up as before.
   */
  lemma InsertEffect(t: Table, mood: MoodEntry)
    requires t.Valid()
    ensures var r, e := Inserted(t, mood), Stored(t, mood);
      && MoodById(r, e.id) == Some(e)
      && (mood.id == 0 ==> MoodById(t, e.id).None?)
      && |r.rows| == |t.rows| + (if MoodById(t, e.id).Some? then 0 else 1)
      && (forall id :: id != e.id ==> MoodById(r, id) == MoodById(t, id))
  {
    var r, e := Inserted(t, mood), Stored(t, mood);
    WithoutSize(t.rows, e.id);
    forall id | id != e.id ensures MoodById(r, id) == MoodById(t, id) {
      LookupDetermined(r.rows, t.rows, id);
    }
  }

  /**
   * `updateMood` replaces the row with the entry's id by the entry and leaves
   * every other row; with no such row the table is unchanged.
   */
  lemma UpdateEffect(t: Table, mood: MoodEntry)
    requires t.Valid()
    ensures var r := Updated(t, mood);
      && |r.rows| == |t.rows|
      && MoodById(r, mood.id) == (if MoodById(t, mood.id).Some? then Some(mood) else None)
      && (forall id :: id != mood.id ==> MoodById(r, id) == MoodById(t, id))
      && (MoodById(t, mood.id).None? ==> r == t)
  {
    var r := Updated(t, mood);
    var found := MoodById(t, mood.id);
    if found.Some? {
      var k :| 0 <= k < |t.rows| && t.rows[k] == found.value;
      assert r.rows[k] == mood;
      LookupFinds(r.rows, mood);
    } else {
      assert r.rows == t.rows;
    }
    forall id | id != mood.id ensures MoodById(r, id) == MoodById(t, id) {
      ReplacedKeepsOthers(t.rows, mood, id);
      LookupDetermined(r.rows, t.rows, id);
    }
  }

  /** Replacing the row with `mood`'s id keeps every row under any other id. */
  lemma ReplacedKeepsOthers(rows: seq<MoodEntry>, mood: MoodEntry, id: int)
    requires id != mood.id
    ensures forall x: MoodEntry :: x.id == id ==> (x in Replaced(rows, mood) <==> x in rows)
  {
    var r := Replaced(rows, mood);
    forall x: MoodEntry | x.id == id ensures x in r <==> x in rows {
      if x in rows {
        var k :| 0 <= k < |rows| && rows[k] == x;
        assert r[k] == x;
      }
    }
  }

  /**
   * `deleteMood` removes the row with the entry's id, so that id no longer
   * looks up; every other id looks up as before; with no such row the table
   * is unchanged.
   */
  lemma DeleteEffect(t: Table, mood: MoodEntry)
    requires t.Valid()
    ensures var r := Deleted(t, mood);
      && MoodById(r, mood.id).None?
      && |r.rows| == |t.rows| - (if MoodById(t, mood.id).Some? then 1 else 0)
      && (forall id :: id != mood.id ==> MoodById(r, id) == MoodById(t, id))
      && (MoodById(t, mood.id).None? ==> r == t)
  {
    var r := Deleted(t, mood);
    WithoutSize(t.rows, mood.id);
    if MoodById(t, mood.id).None? {
      WithoutNoMatch(t.rows, mood.id);
    }
    forall id | id != mood.id ensures MoodById(r, id) == MoodById(t, id) {
      LookupDetermined(r.rows, t.rows, id);
    }
  }

  /** A generated id is above every id the table has held, so ids are never reused. */
  lemma GeneratedIdsAreFresh(t: Table, mood: MoodEntry)
    requires t.Valid() && mood.id == 0
    ensures forall e :: e in t.rows ==> e.id < Stored(t, mood).id
    ensures forall e :: e in Inserted(t, mood).rows ==> e.id <= Stored(t, mood).id
  {
  }

  /**
   * Inserting a new entry (id 0) adds one row, found under the next id with
   * the entry's label, time and note.
   */
  lemma InsertNewEntry(t: Table, mood: string, now: int)
    requires t.Valid()
    ensures var r, id := Inserted(t, NewEntry(mood, now)), t.highWater + 1;
      && MoodById(r, id) == Some(MoodEntry(id, mood, now, ""))
      && |r.rows| == |t.rows| + 1
  {
    var entry := NewEntry(mood, now);
    InsertEffect(t, entry);
    assert Stored(t, entry) == MoodEntry(t.highWater + 1, mood, now, "");
  }

  // ---------------------------------------------------------------------
  // The DAO object: the table it changes in place.

  class MoodDao {
    /** The rows of `mood_entries`. */
    var rows: seq<MoodEntry>
    /** The largest id the table has held (SQLite's AUTOINCREMENT sequence). */
    var highWater: int

    function State(): Table
      reads this
    {
      Table(rows, highWater)
    }

    ghost predicate Valid()
      reads this
    {
      State().Valid()
    }

    constructor ()
      ensures Valid() && rows == [] && highWater == 0
    {
      rows, highWater := [], 0;
    }

    /** `getAllMoods()`, one emission of its Flow: every row, newest first. */
    function GetAllMoods(): (r: seq<MoodEntry>)
      reads this
      ensures NewestFirst(r)
      ensures multiset(r) == multiset(rows)
    {
      AllMoods(State())
    }

    /** `getMoodById(id)`: the row with that id, or null. */
    function GetMoodById(id: int): (r: Option<MoodEntry>)
      reads this
      ensures r.Some? ==> r.value in rows && r.value.id == id
      ensures r.None? <==> forall e :: e in rows ==> e.id != id
    {
      MoodById(State(), id)
    }

    /** `getMoodsFromDate(startTime)`, one emission: the rows at or after `startTime`, newest first. */
    function GetMoodsFromDate(startTime: int): (r: seq<MoodEntry>)
      reads this
      ensures NewestFirst(r)
      ensures forall e :: multiset(r)[e] == if e.timestamp >= startTime then multiset(rows)[e] else 0
      ensures forall e :: e in r <==> e in rows && e.timestamp >= startTime
    {
      MoodsFromDateMembers(State(), startTime);
      MoodsFromDate(State(), startTime)
    }

    /** `insertMood(mood)` with the REPLACE conflict strategy. */
    method InsertMood(mood: MoodEntry)
      requires Valid()
      modifies this
      ensures Valid()
      ensures State() == Inserted(old(State()), mood)
      ensures GetMoodById(Stored(old(State()), mood).id) == Some(Stored(old(State()), mood))
      ensures mood.id == 0 ==> |rows| == |old(rows)| + 1
      ensures mood.id != 0 && old(GetMoodById(mood.id)).Some? ==> |rows| == |old(rows)|
      ensures forall id :: id != Stored(old(State()), mood).id ==> GetMoodById(id) == old(GetMoodById(id))
    {
      InsertEffect(State(), mood);
      var t := Inserted(State(), mood);
      rows, highWater := t.rows, t.highWater;
    }

    /** `updateMood(mood)`: the row with `mood.id`, if any, becomes `mood`. */
    method UpdateMood(mood: MoodEntry)
      requires Valid()
      modifies this
      ensures Valid()
      ensures State() == Updated(old(State()), mood)
      ensures |rows| == |old(rows)|
      ensures GetMoodById(mood.id) == if old(GetMoodById(mood.id)).Some? then Some(mood) else None
      ensures forall id :: id != mood.id ==> GetMoodById(id) == old(GetMoodById(id))
      ensures old(GetMoodById(mood.id)).None? ==> rows == old(rows)
    {
      UpdateEffect(State(), mood);
      var t := Updated(State(), mood);
      rows := t.rows;
    }

    /** `deleteMood(mood)`: the row with `mood.id`, if any, is removed. */
    method DeleteMood(mood: MoodEntry)
      requires Valid()
      modifies this
      ensures Valid()
      ensures State() == Deleted(old(State()), mood)
      ensures GetMoodById(mood.id).None?
      ensures forall id :: id != mood.id ==> GetMoodById(id) == old(GetMoodById(id))
      ensures old(GetMoodById(mood.id)).None? ==> rows == old(rows)
    {
      DeleteEffect(State(), mood);
      var t := Deleted(State(), mood);
      rows := t.rows;
    }
  }
}
