/**
 * The embedded store: the `stories` table (primary key `++id`), the `tags`
 * table (primary key `++id`, unique index `&name`), the single-row `settings`
 * table, and the schema version 2 upgrade that stamps every story and tag.
 *
 * Each table is a map from primary key to record.  A record stored under key
 * `k` carries `id == Some(k)`: the key is inbound, so the store writes a key
 * it generates back into the stored record.
 */
module Db {

  import opened Entities
  import Keys

  function Max(a: int, b: int): int
  {
    if a < b then b else a
  }

  /** A story as the version 2 upgrade leaves it. */
  function StampStory(s: Story, now: int): (r: Story)
    ensures r.version == Some(1) && r.createAt == Some(now) && r.updatedAt == Some(now)
    ensures r.(version := s.version, createAt := s.createAt, updatedAt := s.updatedAt) == s
  {
    s.(version := Some(1), createAt := Some(now), updatedAt := Some(now))
  }

  /** A tag as the version 2 upgrade leaves it. */
  function StampTag(t: Tag, now: int): (r: Tag)
    ensures r.version == Some(1) && r.createAt == Some(now) && r.updatedAt == Some(now)
    ensures r.(version := t.version, createAt := t.createAt, updatedAt := t.updatedAt) == t
  {
    t.(version := Some(1), createAt := Some(now), updatedAt := Some(now))
  }

  /** `all` lists every row of `rows` exactly once. */
  ghost predicate ListsStories(all: seq<Story>, rows: map<int, Story>)
  {
    && |all| == |rows|
    && (forall i :: 0 <= i < |all| ==> all[i].id.Some? && all[i].id.value in rows && rows[all[i].id.value] == all[i])
    && (forall i, j :: 0 <= i < j < |all| ==> all[i].id != all[j].id)
    && forall k :: k in rows ==> rows[k] in all
  }

  /** `all` lists every row of `rows` exactly once. */
  ghost predicate ListsTags(all: seq<Tag>, rows: map<int, Tag>)
  {
    && |all| == |rows|
    && (forall i :: 0 <= i < |all| ==> all[i].id.Some? && all[i].id.value in rows && rows[all[i].id.value] == all[i])
    && (forall i, j :: 0 <= i < j < |all| ==> all[i].id != all[j].id)
    && forall k :: k in rows ==> rows[k] in all
  }

  class StoryTable {
    var rows: map<int, Story>
    /** The auto-increment key generator's current number. */
    var nextKey: int

    ghost predicate Valid()
      reads this
    {
      && 1 <= nextKey
      && forall k :: k in rows ==> k < nextKey && rows[k].id == Some(k)
    }

    constructor ()
      ensures Valid() && rows == map[] && nextKey == 1
    {
      rows := map[];
      nextKey := 1;
    }

    function Get(key: int): Option<Story>
      reads this
    {
      if key in rows then Some(rows[key]) else None
    }

    /**
     * `add`: a story without an id gets the generator's next key; a story with
     * an id is stored under it unless that key is taken.
     */
    method Add(s: Story) returns (r: DbResult<int>)
      requires Valid()
      modifies this
      ensures Valid()
      ensures r.Ok? <==> s.id.None? || s.id.value !in old(rows)
      ensures r.Err? ==> r.error == ConstraintError && rows == old(rows) && nextKey == old(nextKey)
      ensures r.Ok? ==> r.value !in old(rows) && rows == old(rows)[r.value := s.(id := Some(r.value))]
      ensures r.Ok? && s.id.None? ==> r.value == old(nextKey) && nextKey == old(nextKey) + 1
      ensures r.Ok? && s.id.Some? ==> r.value == s.id.value && nextKey == Max(old(nextKey), r.value + 1)
    {
      if s.id.None? {
        r := Ok(nextKey);
        rows := rows[nextKey := s.(id := Some(nextKey))];
        nextKey := nextKey + 1;
      } else if s.id.value in rows {
        r := Err(ConstraintError);
      } else {
        r := Ok(s.id.value);
        rows := rows[s.id.value := s];
        nextKey := Max(nextKey, s.id.value + 1);
      }
    }

    /** `update(key, changes)`: merges into the stored row; counts the rows it changed. */
    method Update(key: int, changes: Story) returns (count: int)
      requires Valid()
      requires changes.id == Some(key)
      modifies this
      ensures Valid() && nextKey == old(nextKey)
      ensures count == if key in old(rows) then 1 else 0
      ensures rows == if key in old(rows) then old(rows)[key := MergeStory(old(rows)[key], changes)] else old(rows)
    {
      if key in rows {
        rows := rows[key := MergeStory(rows[key], changes)];
        count := 1;
      } else {
        count := 0;
      }
    }

    /** `delete(key)`: removes the row if there is one. */
    method Delete(key: int)
      requires Valid()
      modifies this
      ensures Valid() && nextKey == old(nextKey)
      ensures rows == old(rows) - {key}
    {
      rows := rows - {key};
    }

    /** `toArray`: every stored story once. */
    method ToArray() returns (all: seq<Story>)
      requires Valid()
      ensures ListsStories(all, rows)
    {
      var ks := Keys.ListKeys(rows.Keys);
      all := Keys.RowsAt(rows, ks);
      forall k | k in rows ensures rows[k] in all {
        var i :| 0 <= i < |ks| && ks[i] == k;
        assert all[i] == rows[k];
      }
    }

    /** The version 2 upgrade of this table: every story stamped, keys untouched. */
    method StampAll(now: int)
      requires Valid()
      modifies this
      ensures Valid() && nextKey == old(nextKey)
      ensures rows.Keys == old(rows).Keys
      ensures forall k :: k in rows ==> rows[k] == StampStory(old(rows)[k], now)
    {
      var pending := rows.Keys;
      while pending != {}
        invariant pending <= rows.Keys && rows.Keys == old(rows).Keys
        invariant Valid() && nextKey == old(nextKey)
        invariant forall k :: k in rows ==>
          rows[k] == if k in pending then old(rows)[k] else StampStory(old(rows)[k], now)
        decreases pending
      {
        Keys.EmptyOrInhabited(pending);
        var k :| k in pending;
        rows := rows[k := StampStory(rows[k], now)];
        pending := pending - {k};
      }
    }
  }

  /** True when a row of `rows` other than the one at `except` carries `name`. */
  predicate NameTaken(rows: map<int, Tag>, name: string, except: Option<int>)
  {
    exists k :: k in rows && Some(k) != except && rows[k].name == name
  }

  class TagTable {
    var rows: map<int, Tag>
    /** The auto-increment key generator's current number. */
    var nextKey: int

    ghost predicate Valid()
      reads this
    {
      && 1 <= nextKey
      && (forall k :: k in rows ==> k < nextKey && rows[k].id == Some(k))
      && forall k, j :: k in rows && j in rows && k != j ==> rows[k].name != rows[j].name
    }

    constructor ()
      ensures Valid() && rows == map[] && nextKey == 1
    {
      rows := map[];
      nextKey := 1;
    }

    function Get(key: int): Option<Tag>
      reads this
    {
      if key in rows then Some(rows[key]) else None
    }

    /** `add`: as for stories, and the unique index refuses a name already stored. */
    method Add(t: Tag) returns (r: DbResult<int>)
      requires Valid()
      modifies this
      ensures Valid()
      ensures r.Ok? <==> (t.id.None? || t.id.value !in old(rows)) && !NameTaken(old(rows), t.name, None)
      ensures r.Err? ==> r.error == ConstraintError && rows == old(rows) && nextKey == old(nextKey)
      ensures r.Ok? ==> r.value !in old(rows) && rows == old(rows)[r.value := t.(id := Some(r.value))]
      ensures r.Ok? && t.id.None? ==> r.value == old(nextKey) && nextKey == old(nextKey) + 1
      ensures r.Ok? && t.id.Some? ==> r.value == t.id.value && nextKey == Max(old(nextKey), r.value + 1)
    {
      if NameTaken(rows, t.name, None) {
        r := Err(ConstraintError);
      } else if t.id.None? {
        r := Ok(nextKey);
        rows := rows[nextKey := t.(id := Some(nextKey))];
        nextKey := nextKey + 1;
      } else if t.id.value in rows {
        r := Err(ConstraintError);
      } else {
        r := Ok(t.id.value);
        rows := rows[t.id.value := t];
        nextKey := Max(nextKey, t.id.value + 1);
      }
    }

    /**
     * `update(key, changes)`: merges into the stored row and yields the number
     * of rows changed; fails when the merged name belongs to another row.
     */
    method Update(key: int, changes: Tag) returns (r: DbResult<int>)
      requires Valid()
      requires changes.id == Some(key)
      modifies this
      ensures Valid() && nextKey == old(nextKey)
      ensures key !in old(rows) ==> r == Ok(0) && rows == old(rows)
      ensures key in old(rows) && NameTaken(old(rows), changes.name, Some(key)) ==>
        r == Err(ModifyError) && rows == old(rows)
      ensures key in old(rows) && !NameTaken(old(rows), changes.name, Some(key)) ==>
        r == Ok(1) && rows == old(rows)[key := MergeTag(old(rows)[key], changes)]
    {
      if key !in rows {
        r := Ok(0);
      } else if NameTaken(rows, changes.name, Some(key)) {
        r := Err(ModifyError);
      } else {
        rows := rows[key := MergeTag(rows[key], changes)];
        r := Ok(1);
      }
    }

    /** `delete(key)`: removes the row if there is one. */
    method Delete(key: int)
      requires Valid()
      modifies this
      ensures Valid() && nextKey == old(nextKey)
      ensures rows == old(rows) - {key}
    {
      rows := rows - {key};
    }

    /** `toArray`: every stored tag once. */
    method ToArray() returns (all: seq<Tag>)
      requires Valid()
      ensures ListsTags(all, rows)
    {
      var ks := Keys.ListKeys(rows.Keys);
      all := Keys.RowsAt(rows, ks);
      forall k | k in rows ensures rows[k] in all {
        var i :| 0 <= i < |ks| && ks[i] == k;
        assert all[i] == rows[k];
      }
    }

    /** The version 2 upgrade of this table: every tag stamped, keys and names untouched. */
    method StampAll(now: int)
      requires Valid()
      modifies this
      ensures Valid() && nextKey == old(nextKey)
      ensures rows.Keys == old(rows).Keys
      ensures forall k :: k in rows ==> rows[k] == StampTag(old(rows)[k], now)
    {
      var pending := rows.Keys;
      while pending != {}
        invariant pending <= rows.Keys && rows.Keys == old(rows).Keys
        invariant Valid() && nextKey == old(nextKey)
        invariant forall k :: k in rows ==>
          rows[k] == if k in pending then old(rows)[k] else StampTag(old(rows)[k], now)
        decreases pending
      {
        Keys.EmptyOrInhabited(pending);
        var k :| k in pending;
        rows := rows[k := StampTag(rows[k], now)];
        pending := pending - {k};
      }
    }
  }

  /**
   * The settings table the settings slice reads and writes; the application
   * keeps a single row in it.  The database declaration models only the
   * stories and tags tables, so this table stands alone.
   */
  class SettingsTable {
    var rows: map<int, Settings>

    ghost predicate Valid()
      reads this
    {
      forall k :: k in rows ==> rows[k].id == Some(k)
    }

    constructor ()
      ensures Valid() && rows == map[]
    {
      rows := map[];
    }

    /** `toCollection().first()`: the row with the lowest key, `None` for an empty table. */
    method First() returns (r: Option<Settings>)
      requires Valid()
      ensures r.None? <==> rows == map[]
      ensures r.Some? ==> r.value.id.Some? && r.value.id.value in rows && rows[r.value.id.value] == r.value
      ensures r.Some? ==> forall k :: k in rows ==> r.value.id.value <= k
    {
      var lowest := Keys.LowestKey(rows.Keys);
      if lowest.None? {
        assert rows == map[];
        r := None;
      } else {
        var k := lowest.value;
        assert k in rows;
        assert rows[k].id == Some(k);
        r := Some(rows[k]);
      }
    }

    /** `update(key, changes)`: merges into the stored row; counts the rows it changed. */
    method Update(key: int, changes: Settings) returns (count: int)
      requires Valid()
      requires changes.id == Some(key)
      modifies this
      ensures Valid()
      ensures count == if key in old(rows) then 1 else 0
      ensures rows == if key in old(rows) then old(rows)[key := MergeSettings(old(rows)[key], changes)] else old(rows)
    {
      if key in rows {
        rows := rows[key := MergeSettings(rows[key], changes)];
        count := 1;
      } else {
        count := 0;
      }
    }
  }

  /** The database: the stories table (`++id`) and the tags table (`++id, &name`). */
  class AppDatabase {
    const stories: StoryTable
    const tags: TagTable

    ghost predicate Valid()
      reads this, stories, tags
    {
      stories.Valid() && tags.Valid()
    }

    constructor ()
      ensures Valid() && fresh(stories) && fresh(tags)
      ensures stories.rows == map[] && tags.rows == map[]
    {
      stories := new StoryTable();
      tags := new TagTable();
    }

    /**
     * The version 2 upgrade: every story and every tag gets version 1 and
     * creation and update times `now`; no row is added, removed or re-keyed and
     * no other property changes.
     */
    method UpgradeToVersion2(now: int)
      requires Valid()
      modifies stories, tags
      ensures Valid()
      ensures stories.rows.Keys == old(stories.rows).Keys && tags.rows.Keys == old(tags.rows).Keys
      ensures forall k :: k in stories.rows ==> stories.rows[k] == StampStory(old(stories.rows)[k], now)
      ensures forall k :: k in tags.rows ==> tags.rows[k] == StampTag(old(tags.rows)[k], now)
      ensures stories.nextKey == old(stories.nextKey) && tags.nextKey == old(tags.nextKey)
    {
      stories.StampAll(now);
      tags.StampAll(now);
    }
  }
}
