/**
 * The timeline slice: the story thunks (`selectAllStories`, `insertStory`,
 * `updateStory`, `deleteStory`) over the stories table, and the slice state
 * (`status`, `error`, the story cache) with its reducers.
 *
 * None of the story thunks ever rejects: their error paths call
 * `rejectWithValue` without returning its result, so the thunk goes on and
 * fulfils with the story.
 */
module Timeline {

  import opened Entities
  import Db
  import EntityAdapter

  /** The placeholder text the story thunks use on every error path. */
  const ErrorMessageId: string := "error message id here"

  /** The cache key of a story: its id, with `None` standing for the key `undefined`. */
  function CacheKey(s: Story): Option<int>
  {
    s.id
  }

  /** The text of a rejected action's `error.message`. */
  function RejectionMessage(reason: Reason): Option<string>
  {
    match reason
    case Message(_) => Some("Rejected")
    case Thrown(e) => Some(DbErrorName(e))
  }

  function DbErrorName(e: DbError): string
  {
    match e
    case ConstraintError => "ConstraintError"
    case ModifyError => "ModifyError"
    case AbortError => "AbortError"
    case DataError => "DataError"
  }

  /** The story `insertStory` writes: version bumped, both times stamped. */
  function StampedForInsert(story: Story, now: int): (r: Story)
    ensures story.version.None? ==> r.version == Some(1)
    ensures story.version.Some? ==> r.version == Some(story.version.value + 1)
    ensures r.createAt == Some(now) && r.updatedAt == Some(now)
    ensures r.(version := story.version, createAt := story.createAt, updatedAt := story.updatedAt) == story
  {
    story.(version := Some(NextVersion(story.version)), createAt := Some(now), updatedAt := Some(now))
  }

  /** The story `updateStory` carries once it has an id: update time stamped, version bumped. */
  function StampedForUpdate(story: Story, now: int): (r: Story)
    ensures story.version.None? ==> r.version == Some(1)
    ensures story.version.Some? ==> r.version == Some(story.version.value + 1)
    ensures r.updatedAt == Some(now)
    ensures r.(version := story.version, updatedAt := story.updatedAt) == story
  {
    story.(updatedAt := Some(now), version := Some(NextVersion(story.version)))
  }

  /**
   * The stale-write check of `updateStory`: the stored row exists, has a
   * version, and the bumped version is strictly greater than it.
   */
  predicate StoryWriteAllowed(rows: map<int, Story>, id: int, bumped: int)
  {
    id in rows && rows[id].version.Some? && bumped > rows[id].version.value
  }

  /** Whether `insertStory` writes: the transaction succeeds and the key is free. */
  predicate InsertWrites(rows: map<int, Story>, story: Story, fault: bool)
  {
    !fault && (story.id.None? || story.id.value !in rows)
  }

  /** Whether `updateStory` writes. */
  predicate UpdateWrites(rows: map<int, Story>, story: Story, fault: bool)
  {
    story.id.Some? && !fault && StoryWriteAllowed(rows, story.id.value, NextVersion(story.version))
  }

  /** The stories table after `updateStory`. */
  function RowsAfterUpdate(rows: map<int, Story>, story: Story, now: int, fault: bool): map<int, Story>
  {
    if UpdateWrites(rows, story, fault)
    then rows[story.id.value := MergeStory(rows[story.id.value], StampedForUpdate(story, now))]
    else rows
  }

  class TimelineSlice {
    var status: Status
    var error: Option<string>
    /** The story cache, keyed by `CacheKey`. */
    var entities: map<Option<int>, Story>

    constructor ()
      ensures status == Idle && error == None && entities == map[]
    {
      status := Idle;
      error := None;
      entities := map[];
    }

    /** The `add` reducer: `addOne`. */
    method Add(s: Story)
      modifies this
      ensures status == old(status) && error == old(error)
      ensures entities == EntityAdapter.AddOne(old(entities), CacheKey(s), s)
    {
      entities := EntityAdapter.AddOne(entities, CacheKey(s), s);
    }

    /** The `validate` reducer does nothing. */
    method Validate(s: Story)
      modifies this
      ensures status == old(status) && error == old(error) && entities == old(entities)
    {
    }

    method SetError(message: string)
      modifies this
      ensures error == Some(message)
      ensures status == old(status) && entities == old(entities)
    {
      error := Some(message);
    }

    method ToggleLoading(on: bool)
      modifies this
      ensures status == if on then Loading else Idle
      ensures error == old(error) && entities == old(entities)
    {
      if on {
        status := Loading;
      } else {
        status := Idle;
      }
    }

    /** The `pending` case of each story thunk. */
    method Pending()
      modifies this
      ensures status == Loading
      ensures error == old(error) && entities == old(entities)
    {
      status := Loading;
    }

    /** `selectAllStories` settled: fulfilled upserts every payload story; rejected only fails. */
    method SelectAllSettled(r: Outcome<seq<Story>>)
      modifies this
      ensures r.Fulfilled? ==> status == Succeeded && entities == EntityAdapter.UpsertMany(old(entities), r.payload, CacheKey, MergeStory)
      ensures r.Rejected? ==> status == Failed && entities == old(entities)
      ensures error == old(error)
    {
      if r.Fulfilled? {
        status := Succeeded;
        entities := EntityAdapter.UpsertMany(entities, r.payload, CacheKey, MergeStory);
      } else {
        status := Failed;
      }
    }

    /** `insertStory` settled: fulfilled adds the payload; rejected records the error message. */
    method InsertSettled(r: Outcome<Story>)
      modifies this
      ensures r.Fulfilled? ==> status == Succeeded && error == old(error)
      ensures r.Fulfilled? ==> entities == EntityAdapter.AddOne(old(entities), CacheKey(r.payload), r.payload)
      ensures r.Rejected? ==> status == Failed && error == RejectionMessage(r.reason) && entities == old(entities)
    {
      if r.Fulfilled? {
        status := Succeeded;
        entities := EntityAdapter.AddOne(entities, CacheKey(r.payload), r.payload);
      } else {
        status := Failed;
        error := RejectionMessage(r.reason);
      }
    }

    /** `updateStory` settled: fulfilled merges the payload into its cached story. */
    method UpdateSettled(r: Outcome<Story>)
      modifies this
      ensures r.Fulfilled? ==> status == Succeeded && error == old(error)
      ensures r.Fulfilled? ==> entities == EntityAdapter.UpdateOne(old(entities), CacheKey(r.payload), r.payload, MergeStory)
      ensures r.Rejected? ==> status == Failed && error == RejectionMessage(r.reason) && entities == old(entities)
    {
      if r.Fulfilled? {
        status := Succeeded;
        entities := EntityAdapter.UpdateOne(entities, CacheKey(r.payload), r.payload, MergeStory);
      } else {
        status := Failed;
        error := RejectionMessage(r.reason);
      }
    }

    /** `deleteStory` settled: fulfilled removes the payload's key. */
    method DeleteSettled(r: Outcome<Story>)
      modifies this
      ensures r.Fulfilled? ==> status == Succeeded && error == old(error)
      ensures r.Fulfilled? ==> entities == EntityAdapter.RemoveOne(old(entities), CacheKey(r.payload))
      ensures r.Rejected? ==> status == Failed && error == RejectionMessage(r.reason) && entities == old(entities)
    {
      if r.Fulfilled? {
        status := Succeeded;
        entities := EntityAdapter.RemoveOne(entities, CacheKey(r.payload));
      } else {
        status := Failed;
        error := RejectionMessage(r.reason);
      }
    }
  }

  /**
   * `selectAllStories`: every stored story; when the read fails, the thunk
   * dispatches `setError` and still fulfils, with no stories.
   */
  method SelectAllStories(table: Db.StoryTable, slice: TimelineSlice, fault: bool) returns (r: Outcome<seq<Story>>)
    requires table.Valid()
    modifies slice
    ensures r.Fulfilled?
    ensures fault ==> r.payload == [] && slice.error == Some(ErrorMessageId)
    ensures !fault ==> Db.ListsStories(r.payload, table.rows) && slice.error == old(slice.error)
    ensures slice.status == old(slice.status) && slice.entities == old(slice.entities)
  {
    if fault {
      slice.SetError(ErrorMessageId);
      r := Fulfilled([]);
    } else {
      var all := table.ToArray();
      r := Fulfilled(all);
    }
  }

  /**
   * `insertStory`: stamps the story and adds it; the store's key becomes its
   * id.  A failed write leaves the table alone and still fulfils, with the
   * stamped story and the id it came with.
   */
  method InsertStory(table: Db.StoryTable, story: Story, now: int, fault: bool) returns (r: Outcome<Story>)
    requires table.Valid()
    modifies table
    ensures table.Valid()
    ensures r.Fulfilled?
    ensures r.payload.(id := story.id) == StampedForInsert(story, now)
    ensures InsertWrites(old(table.rows), story, fault) ==>
      && r.payload.id.Some?
      && r.payload.id.value !in old(table.rows)
      && table.rows == old(table.rows)[r.payload.id.value := r.payload]
    ensures !InsertWrites(old(table.rows), story, fault) ==>
      r.payload.id == story.id && table.rows == old(table.rows) && table.nextKey == old(table.nextKey)
  {
    var stamped := StampedForInsert(story, now);
    if fault {
      r := Fulfilled(stamped);
    } else {
      var added := table.Add(stamped);
      if added.Ok? {
        r := Fulfilled(stamped.(id := Some(added.value)));
      } else {
        r := Fulfilled(stamped);
      }
    }
  }

  /**
   * `updateStory`: without an id, fulfils with the story untouched.  Otherwise
   * stamps it and writes it only when the stale-write check passes; it
   * fulfils with the stamped story whether or not it wrote.  A failed
   * transaction dispatches `setError`.
   */
  method UpdateStory(table: Db.StoryTable, slice: TimelineSlice, story: Story, now: int, fault: bool)
    returns (r: Outcome<Story>)
    requires table.Valid()
    modifies table, slice
    ensures table.Valid() && table.nextKey == old(table.nextKey)
    ensures r == Fulfilled(if story.id.None? then story else StampedForUpdate(story, now))
    ensures table.rows == RowsAfterUpdate(old(table.rows), story, now, fault)
    ensures story.id.Some? && fault ==> slice.error == Some(ErrorMessageId)
    ensures !(story.id.Some? && fault) ==> slice.error == old(slice.error)
    ensures slice.status == old(slice.status) && slice.entities == old(slice.entities)
  {
    if story.id.None? {
      r := Fulfilled(story);
      return;
    }
    var id := story.id.value;
    var stamped := StampedForUpdate(story, now);
    if fault {
      slice.SetError(ErrorMessageId);
    } else {
      var record := table.Get(id);
      if record.Some? && record.value.version.Some? && stamped.version.value > record.value.version.value {
        var count := table.Update(id, stamped);
      }
    }
    r := Fulfilled(stamped);
  }

  /** `deleteStory`: removes the row with the story's id, if it has one, and fulfils with the story. */
  method DeleteStory(table: Db.StoryTable, story: Story, fault: bool) returns (r: Outcome<Story>)
    requires table.Valid()
    modifies table
    ensures table.Valid() && table.nextKey == old(table.nextKey)
    ensures r == Fulfilled(story)
    ensures table.rows == if story.id.Some? && !fault then old(table.rows) - {story.id.value} else old(table.rows)
  {
    if story.id.Some? && !fault {
      table.Delete(story.id.value);
    }
    r := Fulfilled(story);
  }

  /** Dispatching `selectAllStories`: pending, the thunk, then its settled case. */
  method DispatchSelectAllStories(table: Db.StoryTable, slice: TimelineSlice, fault: bool) returns (r: Outcome<seq<Story>>)
    requires table.Valid()
    modifies slice
    ensures r.Fulfilled? && slice.status == Succeeded
    ensures slice.entities == EntityAdapter.UpsertMany(old(slice.entities), r.payload, CacheKey, MergeStory)
    ensures fault ==> slice.entities == old(slice.entities) && slice.error == Some(ErrorMessageId)
    ensures !fault ==> Db.ListsStories(r.payload, table.rows) && slice.error == old(slice.error)
  {
    slice.Pending();
    r := SelectAllStories(table, slice, fault);
    slice.SelectAllSettled(r);
  }

  /**
   * Dispatching `insertStory`.  When the write fails for a story without an
   * id, the cache still gains the story, under the key `undefined`.
   */
  method DispatchInsertStory(table: Db.StoryTable, slice: TimelineSlice, story: Story, now: int, fault: bool)
    returns (r: Outcome<Story>)
    requires table.Valid()
    modifies table, slice
    ensures table.Valid()
    ensures r.Fulfilled? && slice.status == Succeeded && slice.error == old(slice.error)
    ensures slice.entities == EntityAdapter.AddOne(old(slice.entities), r.payload.id, r.payload)
    ensures InsertWrites(old(table.rows), story, fault) ==>
      r.payload.id.Some? && table.rows == old(table.rows)[r.payload.id.value := r.payload]
    ensures !InsertWrites(old(table.rows), story, fault) ==> table.rows == old(table.rows)
    ensures fault && story.id.None? ==> None in slice.entities
  {
    slice.Pending();
    r := InsertStory(table, story, now, fault);
    slice.InsertSettled(r);
  }

  /**
   * Dispatching `updateStory`.  When the stale-write check skips the write,
   * the table keeps its row but the cached story still takes the submitted
   * changes: cache and table disagree.
   */
  method DispatchUpdateStory(table: Db.StoryTable, slice: TimelineSlice, story: Story, now: int, fault: bool)
    returns (r: Outcome<Story>)
    requires table.Valid()
    modifies table, slice
    ensures table.Valid()
    ensures r.Fulfilled? && slice.status == Succeeded
    ensures table.rows == RowsAfterUpdate(old(table.rows), story, now, fault)
    ensures slice.entities == EntityAdapter.UpdateOne(old(slice.entities), story.id, r.payload, MergeStory)
    ensures story.id.Some? && !UpdateWrites(old(table.rows), story, fault) && story.id in old(slice.entities) ==>
      && table.rows == old(table.rows)
      && slice.entities[story.id] == MergeStory(old(slice.entities)[story.id], StampedForUpdate(story, now))
  {
    slice.Pending();
    r := UpdateStory(table, slice, story, now, fault);
    slice.UpdateSettled(r);
  }

  /**
   * Dispatching `deleteStory`.  The cache drops the story's key even when the
   * transaction failed and the row is still stored.
   */
  method DispatchDeleteStory(table: Db.StoryTable, slice: TimelineSlice, story: Story, fault: bool)
    returns (r: Outcome<Story>)
    requires table.Valid()
    modifies table, slice
    ensures table.Valid()
    ensures r.Fulfilled? && slice.status == Succeeded && slice.error == old(slice.error)
    ensures story.id !in slice.entities
    ensures forall k :: k in slice.entities ==> k in old(slice.entities) && slice.entities[k] == old(slice.entities)[k]
    ensures table.rows == if story.id.Some? && !fault then old(table.rows) - {story.id.value} else old(table.rows)
  {
    slice.Pending();
    r := DeleteStory(table, story, fault);
    slice.DeleteSettled(r);
  }

  /** The stale-write check in terms of the submitted version: the write goes ahead exactly when it is at least the stored one. */
  lemma WriteAllowedIffNotOlder(rows: map<int, Story>, id: int, submitted: int)
    requires id in rows && rows[id].version.Some?
    ensures StoryWriteAllowed(rows, id, NextVersion(Some(submitted))) <==> submitted >= rows[id].version.value
  {
  }

  /** A story submitted without a version never overwrites a row whose version is at least 1. */
  lemma UnversionedNeverOverwrites(rows: map<int, Story>, story: Story, now: int, fault: bool)
    requires story.id.Some? && story.version.None?
    requires story.id.value in rows && rows[story.id.value].version.Some? && rows[story.id.value].version.value >= 1
    ensures RowsAfterUpdate(rows, story, now, fault) == rows
  {
  }

  /**
   * After the version 2 upgrade every stored story has version 1, so a
   * story submitted without a version can overwrite none of them.
   */
  lemma {:induction false} UpgradedRowsRefuseUnversioned(rows: map<int, Story>, stampedAt: int, story: Story, now: int, fault: bool)
    requires story.version.None?
    ensures var upgraded := map k | k in rows :: Db.StampStory(rows[k], stampedAt);
      RowsAfterUpdate(upgraded, story, now, fault) == upgraded
  {
    var upgraded := map k | k in rows :: Db.StampStory(rows[k], stampedAt);
    if story.id.Some? && story.id.value in upgraded {
      assert upgraded[story.id.value].version == Some(1);
      UnversionedNeverOverwrites(upgraded, story, now, fault);
    }
  }

  /**
   * The optimistic lock: once an update has been written, submitting the
   * same story again is refused by the stale-write check.
   */
  lemma {:induction false} UpdateNotReplayable(rows: map<int, Story>, story: Story, now: int)
    requires UpdateWrites(rows, story, false)
    ensures !UpdateWrites(RowsAfterUpdate(rows, story, now, false), story, false)
    ensures RowsAfterUpdate(rows, story, now, false)[story.id.value].version == Some(NextVersion(story.version))
  {
    var id := story.id.value;
    var after := RowsAfterUpdate(rows, story, now, false);
    assert after[id] == MergeStory(rows[id], StampedForUpdate(story, now));
    assert after[id].version == StampedForUpdate(story, now).version;
  }
}
