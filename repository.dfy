/**
 * `MoodRepository` (app/src/main/java/com/Madhu/moodtracker/data/MoodRepository.kt):
 * it holds the DAO and forwards every call to it unchanged.
 */
module Repository {
  import opened Wrappers
  import opened Entries
  import opened Dao

  class MoodRepository {
    const moodDao: MoodDao

    constructor (moodDao: MoodDao)
      ensures this.moodDao == moodDao
    {
      this.moodDao := moodDao;
    }

    ghost predicate Valid()
      reads moodDao
    {
      moodDao.Valid()
    }

    /** `allMoods`, the DAO's `getAllMoods()` flow: each emission is its current result. */
    function AllMoods(): (r: seq<MoodEntry>)
      reads moodDao
      ensures r == moodDao.GetAllMoods()
      ensures NewestFirst(r) && multiset(r) == multiset(moodDao.rows)
    {
      moodDao.GetAllMoods()
    }

    /** `getMoodById(id)`: exactly the DAO's answer, null included. */
    function GetMoodById(id: int): (r: Option<MoodEntry>)
      reads moodDao
      ensures r == moodDao.GetMoodById(id)
      ensures r.None? <==> forall e :: e in moodDao.rows ==> e.id != id
    {
      moodDao.GetMoodById(id)
    }

    /** `getMoodsFromDate(startTime)`: the DAO's query at the same cutoff. */
    function GetMoodsFromDate(startTime: int): (r: seq<MoodEntry>)
      reads moodDao
      ensures r == moodDao.GetMoodsFromDate(startTime)
      ensures forall e :: multiset(r)[e] == if e.timestamp >= startTime then multiset(moodDao.rows)[e] else 0
      ensures forall e :: e in r <==> e in moodDao.rows && e.timestamp >= startTime
    {
      moodDao.GetMoodsFromDate(startTime)
    }

    /** `insertMood(mood)`: the DAO's insert, with its table effect. */
    method InsertMood(mood: MoodEntry)
      requires Valid()
      modifies moodDao
      ensures Valid()
      ensures moodDao.State() == Inserted(old(moodDao.State()), mood)
    {
      moodDao.InsertMood(mood);
    }

    /** `updateMood(mood)`: the DAO's update, with its table effect. */
    method UpdateMood(mood: MoodEntry)
      requires Valid()
      modifies moodDao
      ensures Valid()
      ensures moodDao.State() == Updated(old(moodDao.State()), mood)
    {
      moodDao.UpdateMood(mood);
    }

    /** `deleteMood(mood)`: the DAO's delete, with its table effect. */
    method DeleteMood(mood: MoodEntry)
      requires Valid()
      modifies moodDao
      ensures Valid()
      ensures moodDao.State() == Deleted(old(moodDao.State()), mood)
    {
      moodDao.DeleteMood(mood);
    }
  }
}
