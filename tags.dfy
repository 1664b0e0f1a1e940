/**
 * The tag slice: the tag thunks (`selectAllTags`, `fetchTagById`,
 * `insertTag`, `updateTag`, `deleteTag`) over the tags table, and the slice
 * state with its reducers.
 *
 * Inside `updateTag`, the refusals ("Tag does not exist.", "Optimistic lock
 * is hanged.") are returned from the transaction callback, not from the
 * thunk: the transaction commits without writing and the thunk fulfils
 * with the stamped tag.
 */
module Tags {

  import opened Entities
  import Db
  import EntityAdapter

  const ErrorMessageId: string := "error message id here"
  const IdMissing: string := "Tag id is missing."

  /** The cache key of a tag: its id, with `None` standing for `undefined`. */
  function CacheKey(t: Tag): Option<int>
  {
    t.id
  }

  /** The tag `insertTag` writes: version bumped, both times stamped. */
  function StampedForInsert(tag: Tag, now: int): (r: Tag)
    ensures r.version == Some(NextVersion(tag.version))
    ensures r.createAt == Some(now) && r.updatedAt == Some(now)
    ensures r.(version := tag.version, createAt := tag.createAt, updatedAt := tag.updatedAt) == tag
  {
    tag.(version := Some(NextVersion(tag.version)), createAt := Some(now), updatedAt := Some(now))
  }

  /** The tag `updateTag` carries once it has an id: update time stamped, version bumped. */
  function StampedForUpdate(tag: Tag, now: int): (r: Tag)
    ensures r.version == Some(NextVersion(tag.version))
    ensures r.updatedAt == Some(now)
    ensures r.(version := tag.version, updatedAt := tag.updatedAt) == tag
  {
    tag.(updatedAt := Some(now), version := Some(NextVersion(tag.version)))
  }

  /**
   * The check of `updateTag`: the stored row exists, has a version, and the
   * bumped version differs from it.
   */
  predicate TagWriteAllowed(rows: map<int, Tag>, id: int, bumped: int)
  {
    id in rows && rows[id].version.Some? && bumped != rows[id].version.value
  }

  /** Whether `updateTag` writes: the check passes and the name stays unique. */
  predicate UpdateWrites(rows: map<int, Tag>, tag: Tag, fault: bool)
  {
    && tag.id.Some? && !fault
    && TagWriteAllowed(rows, tag.id.value, NextVersion(tag.version))
    && !Db.NameTaken(rows, tag.name, tag.id)
  }

  /** How `updateTag` settles. */
  function UpdateResult(rows: map<int, Tag>, tag: Tag, now: int, fault: bool): (r: Outcome<Tag>)
    ensures r.Fulfilled? ==> r.payload.id.Some? && r.payload == StampedForUpdate(tag, now)
    ensures tag.id.None? ==> r == Rejected(Message(IdMissing))
    ensures r.Fulfilled? <==> tag.id.Some? && !fault && (UpdateWrites(rows, tag, fault) || !TagWriteAllowed(rows, tag.id.value, NextVersion(tag.version)))
  {
    if tag.id.None? then Rejected(Message(IdMissing))
    else if fault then Rejected(Thrown(AbortError))
    else if TagWriteAllowed(rows, tag.id.value, NextVersion(tag.version)) && Db.NameTaken(rows, tag.name, tag.id)
    then Rejected(Thrown(ModifyError))
    else Fulfilled(StampedForUpdate(tag, now))
  }

  /** The tags table after `updateTag`. */
  function RowsAfterUpdate(rows: map<int, Tag>, tag: Tag, now: int, fault: bool): (r: map<int, Tag>)
    ensures r.Keys == rows.Keys
    ensures forall k :: k in rows && Some(k) != tag.id ==> r[k] == rows[k]
  {
    if UpdateWrites(rows, tag, fault)
    then rows[tag.id.value := MergeTag(rows[tag.id.value], StampedForUpdate(tag, now))]
    else rows
  }

  class TagSlice {
    var status: Status
    var error: Option<string>
    var entities: map<Option<int>, Tag>

    constructor ()
      ensures status == Idle && error == None && entities == map[]
    {
      status := Idle;
      error := None;
      entities := map[];
    }

    method SetError(message: string)
      modifies this
      ensures error == Some(message)
      ensures status == old(status) && entities == old(entities)
    {
      error := Some(message);
    }

    /** The pending matcher. */
    method Pending()
      modifies this
      ensures status == Loading
      ensures error == old(error) && entities == old(entities)
    {
      status := Loading;
    }

    /** Every rejected case: `failed`, the cache untouched. */
    method MarkFailed()
      modifies this
      ensures status == Failed
      ensures error == old(error) && entities == old(entities)
    {
      status := Failed;
    }

    method SelectAllSettled(r: Outcome<seq<Tag>>)
      modifies this
      ensures r.Fulfilled? ==> status == Succeeded && entities == EntityAdapter.UpsertMany(old(entities), r.payload, CacheKey, MergeTag)
      ensures r.Rejected? ==> status == Failed && entities == old(entities)
      ensures error == old(error)
    {
      if r.Fulfilled? {
        status := Succeeded;
        entities := EntityAdapter.UpsertMany(entities, r.payload, CacheKey, MergeTag);
      } else {
        MarkFailed();
      }
    }

    /** `fetchTagById` fulfilled upserts the tag when one was found. */
    method FetchByIdSettled(r: Outcome<Option<Tag>>)
      modifies this
      ensures r.Fulfilled? ==> status == Succeeded
      ensures r.Fulfilled? && r.payload.Some? ==>
        entities == EntityAdapter.UpsertOne(old(entities), CacheKey(r.payload.value), r.payload.value, MergeTag)
      ensures r.Fulfilled? && r.payload.None? ==> entities == old(entities)
      ensures r.Rejected? ==> status == Failed && entities == old(entities)
      ensures error == old(error)
    {
      if r.Fulfilled? {
        status := Succeeded;
        if r.payload.Some? {
          var t := r.payload.value;
          entities := EntityAdapter.UpsertOne(entities, CacheKey(t), t, MergeTag);
        }
      } else {
        MarkFailed();
      }
    }

    method InsertSettled(r: Outcome<Tag>)
      modifies this
      ensures r.Fulfilled? ==> status == Succeeded && entities == EntityAdapter.AddOne(old(entities), CacheKey(r.payload), r.payload)
      ensures r.Rejected? ==> status == Failed && entities == old(entities)
      ensures error == old(error)
    {
      if r.Fulfilled? {
        status := Succeeded;
        entities := EntityAdapter.AddOne(entities, CacheKey(r.payload), r.payload);
      } else {
        MarkFailed();
      }
    }

    method UpdateSettled(r: Outcome<Tag>)
      modifies this
      ensures r.Fulfilled? ==> status == Succeeded && entities == EntityAdapter.UpdateOne(old(entities), CacheKey(r.payload), r.payload, MergeTag)
      ensures r.Rejected? ==> status == Failed && entities == old(entities)
      ensures error == old(error)
    {
      if r.Fulfilled? {
        status := Succeeded;
        entities := EntityAdapter.UpdateOne(entities, CacheKey(r.payload), r.payload, MergeTag);
      } else {
        MarkFailed();
      }
    }

    method DeleteSettled(r: Outcome<Tag>)
      modifies this
      ensures r.Fulfilled? ==> status == Succeeded && entities == EntityAdapter.RemoveOne(old(entities), CacheKey(r.payload))
      ensures r.Rejected? ==> status == Failed && entities == old(entities)
      ensures error == old(error)
    {
      if r.Fulfilled? {
        status := Succeeded;
        entities := EntityAdapter.RemoveOne(entities, CacheKey(r.payload));
      } else {
        MarkFailed();
      }
    }
  }

  /** `selectAllTags`: every stored tag, or the transaction's error. */
  method SelectAllTags(table: Db.TagTable, fault: bool) returns (r: Outcome<seq<Tag>>)
    requires table.Valid()
    ensures r.Rejected? <==> fault
    ensures r.Rejected? ==> r.reason == Thrown(AbortError)
    ensures r.Fulfilled? ==> Db.ListsTags(r.payload, table.rows)
    ensures r.Fulfilled? ==> forall i :: 0 <= i < |r.payload| ==> r.payload[i].id.Some?
  {
    if fault {
      r := Rejected(Thrown(AbortError));
    } else {
      var all := table.ToArray();
      r := Fulfilled(all);
    }
  }

  /** `fetchTagById`: the row under `id`, if any, or the transaction's error. */
  method FetchTagById(table: Db.TagTable, id: int, fault: bool) returns (r: Outcome<Option<Tag>>)
    requires table.Valid()
    ensures r.Rejected? <==> fault
    ensures r.Rejected? ==> r.reason == Thrown(AbortError)
    ensures r.Fulfilled? ==> (r.payload.Some? <==> id in table.rows)
    ensures r.Fulfilled? && r.payload.Some? ==> r.payload.value == table.rows[id] && r.payload.value.id == Some(id)
  {
    if fault {
      r := Rejected(Thrown(AbortError));
    } else {
      r := Fulfilled(table.Get(id));
    }
  }

  /**
   * `insertTag`: stamps the tag and adds it; fulfils with the tag under its
   * new key.  A taken key or name, or a failed transaction, rejects with the
   * placeholder message and writes nothing.
   */
  method InsertTag(table: Db.TagTable, tag: Tag, now: int, fault: bool) returns (r: Outcome<Tag>)
    requires table.Valid()
    modifies table
    ensures table.Valid()
    ensures r.Fulfilled? <==> !fault && (tag.id.None? || tag.id.value !in old(table.rows)) && !Db.NameTaken(old(table.rows), tag.name, None)
    ensures r.Rejected? ==> r.reason == Message(ErrorMessageId) && table.rows == old(table.rows) && table.nextKey == old(table.nextKey)
    ensures r.Fulfilled? ==>
      && r.payload.id.Some?
      && r.payload.(id := tag.id) == StampedForInsert(tag, now)
      && r.payload.id.value !in old(table.rows)
      && table.rows == old(table.rows)[r.payload.id.value := r.payload]
  {
    var stamped := StampedForInsert(tag, now);
    if fault {
      r := Rejected(Message(ErrorMessageId));
    } else {
      var added := table.Add(stamped);
      if added.Ok? {
        r := Fulfilled(stamped.(id := Some(added.value)));
      } else {
        r := Rejected(Message(ErrorMessageId));
      }
    }
  }

  /**
   * `updateTag`: rejects without an id; otherwise stamps the tag and writes
   * it when the stored row exists, is versioned and its version differs
   * from the bumped one.  A name clash aborts the transaction and rejects.
   */
  method UpdateTag(table: Db.TagTable, tag: Tag, now: int, fault: bool) returns (r: Outcome<Tag>)
    requires table.Valid()
    modifies table
    ensures table.Valid() && table.nextKey == old(table.nextKey)
    ensures r == UpdateResult(old(table.rows), tag, now, fault)
    ensures table.rows == RowsAfterUpdate(old(table.rows), tag, now, fault)
  {
    if tag.id.None? {
      r := Rejected(Message(IdMissing));
      return;
    }
    var id := tag.id.value;
    var stamped := StampedForUpdate(tag, now);
    if fault {
      r := Rejected(Thrown(AbortError));
      return;
    }
    var record := table.Get(id);
    if record.None? || record.value.version.None? {
      r := Fulfilled(stamped);
    } else if stamped.version.value == record.value.version.value {
      r := Fulfilled(stamped);
    } else {
      var updated := table.Update(id, stamped);
      if updated.Err? {
        r := Rejected(Thrown(updated.error));
      } else {
        r := Fulfilled(stamped);
      }
    }
  }

  /** `deleteTag`: rejects without an id; otherwise removes the row and fulfils with the tag. */
  method DeleteTag(table: Db.TagTable, tag: Tag, fault: bool) returns (r: Outcome<Tag>)
    requires table.Valid()
    modifies table
    ensures table.Valid() && table.nextKey == old(table.nextKey)
    ensures tag.id.None? ==> r == Rejected(Message(IdMissing))
    ensures tag.id.Some? && fault ==> r == Rejected(Thrown(AbortError))
    ensures tag.id.Some? && !fault ==> r == Fulfilled(tag)
    ensures table.rows == if tag.id.Some? && !fault then old(table.rows) - {tag.id.value} else old(table.rows)
  {
    if tag.id.None? {
      r := Rejected(Message(IdMissing));
      return;
    }
    if fault {
      r := Rejected(Thrown(AbortError));
    } else {
      table.Delete(tag.id.value);
      r := Fulfilled(tag);
    }
  }

  /** Dispatching `selectAllTags`; the cache never gains the key `undefined`. */
  method DispatchSelectAllTags(table: Db.TagTable, slice: TagSlice, fault: bool) returns (r: Outcome<seq<Tag>>)
    requires table.Valid()
    modifies slice
    ensures slice.status == if fault then Failed else Succeeded
    ensures fault ==> slice.entities == old(slice.entities)
    ensures !fault ==> r.Fulfilled? && Db.ListsTags(r.payload, table.rows)
    ensures !fault ==> slice.entities == EntityAdapter.UpsertMany(old(slice.entities), r.payload, CacheKey, MergeTag)
    ensures !fault ==> forall k :: k in table.rows ==>
      && Some(k) in slice.entities
      && slice.entities[Some(k)] == (if Some(k) in old(slice.entities)
                                     then MergeTag(old(slice.entities)[Some(k)], table.rows[k])
                                     else table.rows[k])
    ensures None !in old(slice.entities) ==> None !in slice.entities
  {
    slice.Pending();
    r := SelectAllTags(table, fault);
    slice.SelectAllSettled(r);
    if !fault {
      assert EntityAdapter.DistinctKeys(r.payload, CacheKey);
      forall k | k in table.rows
        ensures Some(k) in slice.entities
        ensures slice.entities[Some(k)] == (if Some(k) in old(slice.entities)
                                            then MergeTag(old(slice.entities)[Some(k)], table.rows[k])
                                            else table.rows[k])
      {
        var i :| 0 <= i < |r.payload| && r.payload[i] == table.rows[k];
        assert CacheKey(r.payload[i]) == Some(k);
      }
    }
  }

  /** Dispatching `fetchTagById`: a found tag is upserted into the cache under its id. */
  method DispatchFetchTagById(table: Db.TagTable, slice: TagSlice, id: int, fault: bool) returns (r: Outcome<Option<Tag>>)
    requires table.Valid()
    modifies slice
    ensures slice.status == if fault then Failed else Succeeded
    ensures !fault && id in table.rows ==>
      slice.entities == EntityAdapter.UpsertOne(old(slice.entities), Some(id), table.rows[id], MergeTag)
    ensures !(!fault && id in table.rows) ==> slice.entities == old(slice.entities)
    ensures None !in old(slice.entities) ==> None !in slice.entities
  {
    slice.Pending();
    r := FetchTagById(table, id, fault);
    slice.FetchByIdSettled(r);
  }

  /** Dispatching `insertTag`: a rejected insert leaves both the table and the cache alone. */
  method DispatchInsertTag(table: Db.TagTable, slice: TagSlice, tag: Tag, now: int, fault: bool) returns (r: Outcome<Tag>)
    requires table.Valid()
    modifies table, slice
    ensures table.Valid()
    ensures r.Rejected? ==> slice.status == Failed && slice.entities == old(slice.entities) && table.rows == old(table.rows)
    ensures r.Fulfilled? ==> slice.status == Succeeded && r.payload.id.Some?
    ensures r.Fulfilled? ==> table.rows == old(table.rows)[r.payload.id.value := r.payload]
    ensures r.Fulfilled? ==> slice.entities == EntityAdapter.AddOne(old(slice.entities), r.payload.id, r.payload)
    ensures None !in old(slice.entities) ==> None !in slice.entities
  {
    slice.Pending();
    r := InsertTag(table, tag, now, fault);
    slice.InsertSettled(r);
  }

  /**
   * Dispatching `updateTag`.  When the check skips the write, the table
   * keeps its row but the cached tag still takes the submitted changes.
   */
  method DispatchUpdateTag(table: Db.TagTable, slice: TagSlice, tag: Tag, now: int, fault: bool) returns (r: Outcome<Tag>)
    requires table.Valid()
    modifies table, slice
    ensures table.Valid()
    ensures r == UpdateResult(old(table.rows), tag, now, fault)
    ensures table.rows == RowsAfterUpdate(old(table.rows), tag, now, fault)
    ensures slice.status == if r.Fulfilled? then Succeeded else Failed
    ensures r.Fulfilled? ==> slice.entities == EntityAdapter.UpdateOne(old(slice.entities), tag.id, r.payload, MergeTag)
    ensures r.Rejected? ==> slice.entities == old(slice.entities)
    ensures None !in old(slice.entities) ==> None !in slice.entities
  {
    slice.Pending();
    r := UpdateTag(table, tag, now, fault);
    slice.UpdateSettled(r);
  }

  /** Dispatching `deleteTag`: the cache drops the tag only when the row was deleted. */
  method DispatchDeleteTag(table: Db.TagTable, slice: TagSlice, tag: Tag, fault: bool) returns (r: Outcome<Tag>)
    requires table.Valid()
    modifies table, slice
    ensures table.Valid()
    ensures slice.status == if tag.id.Some? && !fault then Succeeded else Failed
    ensures slice.entities == if tag.id.Some? && !fault then old(slice.entities) - {tag.id} else old(slice.entities)
    ensures table.rows == if tag.id.Some? && !fault then old(table.rows) - {tag.id.value} else old(table.rows)
  {
    slice.Pending();
    r := DeleteTag(table, tag, fault);
    slice.DeleteSettled(r);
  }

  /**
   * The check only refuses a tag whose version is exactly one below the
   * stored one: a copy two or more versions behind is written, and the
   * stored version goes backwards.
   */
  lemma StaleCopyOverwrites(rows: map<int, Tag>, tag: Tag, now: int)
    requires tag.id.Some? && tag.id.value in rows
    requires rows[tag.id.value].version.Some? && tag.version.Some?
    requires tag.version.value + 1 < rows[tag.id.value].version.value
    requires !Db.NameTaken(rows, tag.name, tag.id)
    ensures UpdateResult(rows, tag, now, false).Fulfilled?
    ensures RowsAfterUpdate(rows, tag, now, false)[tag.id.value].version.value < rows[tag.id.value].version.value
  {
  }

  /** The one copy the check refuses is fulfilled all the same, and nothing is written. */
  lemma OneBehindSkipped(rows: map<int, Tag>, tag: Tag, now: int)
    requires tag.id.Some? && tag.id.value in rows
    requires rows[tag.id.value].version == Some(NextVersion(tag.version))
    ensures UpdateResult(rows, tag, now, false) == Fulfilled(StampedForUpdate(tag, now))
    ensures RowsAfterUpdate(rows, tag, now, false) == rows
  {
  }

  /**
   * Once an update has been written, submitting the same tag again is
   * refused by the check: the stored version is now the bumped one.
   */
  lemma {:induction false} UpdateNotReplayable(rows: map<int, Tag>, tag: Tag, now: int)
    requires UpdateWrites(rows, tag, false)
    ensures !UpdateWrites(RowsAfterUpdate(rows, tag, now, false), tag, false)
    ensures RowsAfterUpdate(rows, tag, now, false)[tag.id.value].version == Some(NextVersion(tag.version))
  {
    var id := tag.id.value;
    var after := RowsAfterUpdate(rows, tag, now, false);
    assert after[id] == MergeTag(rows[id], StampedForUpdate(tag, now));
    assert after[id].version == StampedForUpdate(tag, now).version;
  }
}
