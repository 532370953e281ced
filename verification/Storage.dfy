/** Where media bytes live: in a row, or in an object the row's key names. */
module Storage {
  import opened Wrappers

  type RowId = nat
  type Bytes = seq<nat>

  /** An object key; the program draws a fresh UUID, here the next unused number. */
  type Key = nat

  /** `model` is one of the three media tables. */
  datatype Row = Row(model: nat, blob: Option<Bytes>, key: Option<Key>)

  const MODELS := 3

  // ---- Values: what a database and a bucket hold ----------------------------

  datatype Store = Store(rows: map<RowId, Row>, bucket: map<Key, Bytes>, tombstones: seq<Key>, next: Key)

  /** `read`: the row's bytes, from whichever place holds them. */
  function ReadRow(row: Row, bucket: map<Key, Bytes>): Option<Bytes> {
    if row.blob.Some? then row.blob
    else if row.key.Some? && row.key.value in bucket then Some(bucket[row.key.value])
    else None
  }

  /** What every row reads as. */
  function Contents(s: Store): map<RowId, Option<Bytes>> {
    map id | id in s.rows :: ReadRow(s.rows[id], s.bucket)
  }

  ghost predicate References(s: Store, key: Key) {
    exists id <- s.rows :: s.rows[id].key == Some(key)
  }

  /** A row keeps its bytes in one place, and there they are; keys are not
      shared; what is tombstoned is not referenced and not tombstoned twice. */
  ghost predicate Valid(s: Store)
  {
    && (forall id <- s.rows :: s.rows[id].model < MODELS)
    && (forall id <- s.rows :: s.rows[id].key.Some? ==> s.rows[id].blob.None? && s.rows[id].key.value in s.bucket)
    && (forall i <- s.rows, j <- s.rows :: i != j && s.rows[i].key.Some? ==> s.rows[i].key != s.rows[j].key)
    && (forall key <- s.tombstones :: !References(s, key))
    && (forall i, j :: 0 <= i < j < |s.tombstones| ==> s.tombstones[i] != s.tombstones[j])
    && (forall key <- s.bucket :: key < s.next)
    && (forall key <- s.tombstones :: key < s.next)
  }

  /** A new row's bytes go to the bucket under the next key, or into the row. */
  function Stored(s: Store, id: RowId, model: nat, data: Bytes, s3: bool): Store {
    if s3 then Store(s.rows[id := Row(model, None, Some(s.next))], s.bucket[s.next := data], s.tombstones, s.next + 1)
    else s.(rows := s.rows[id := Row(model, Some(data), None)])
  }

  /** A row's bytes move to the bucket under the next key. */
  function MovedToBucket(s: Store, id: RowId): Store
    requires id in s.rows && s.rows[id].blob.Some?
  {
    Store(s.rows[id := s.rows[id].(blob := None, key := Some(s.next))],
          s.bucket[s.next := s.rows[id].blob.value], s.tombstones, s.next + 1)
  }

  /** A row's bytes come back, and its object is left to the sweep. */
  function MovedToDatabase(s: Store, id: RowId): Store
    requires id in s.rows && s.rows[id].key.Some? && s.rows[id].key.value in s.bucket
  {
    var key := s.rows[id].key.value;
    s.(rows := s.rows[id := s.rows[id].(blob := Some(s.bucket[key]), key := None)],
       tombstones := s.tombstones + [key])
  }

  /** Deleting a row fires the trigger. */
  function Deleted(s: Store, id: RowId): Store
    requires id in s.rows
  {
    s.(rows := s.rows - {id},
       tombstones := if s.rows[id].key.Some? then s.tombstones + [s.rows[id].key.value] else s.tombstones)
  }

  /** The object of a tombstone goes, then the tombstone. */
  function Swept(s: Store, i: nat): Store
    requires i < |s.tombstones|
  {
    s.(bucket := s.bucket - {s.tombstones[i]}, tombstones := s.tombstones[..i] + s.tombstones[i + 1..])
  }

  lemma StoredSafe(s: Store, id: RowId, model: nat, data: Bytes, s3: bool)
    requires Valid(s) && id !in s.rows && model < MODELS
    ensures Valid(Stored(s, id, model, data, s3))
    ensures Contents(Stored(s, id, model, data, s3)) == Contents(s)[id := Some(data)]
  {
    var t := Stored(s, id, model, data, s3);
    forall key, i | key in t.tombstones && i in t.rows
      ensures t.rows[i].key != Some(key)
    {
      assert !References(s, key);
    }
  }

  lemma MoveToBucketSafe(s: Store, id: RowId)
    requires Valid(s) && id in s.rows && s.rows[id].blob.Some?
    ensures Valid(MovedToBucket(s, id)) && Contents(MovedToBucket(s, id)) == Contents(s)
  {
    var t := MovedToBucket(s, id);
    forall key, i | key in t.tombstones && i in t.rows
      ensures t.rows[i].key != Some(key)
    {
      assert !References(s, key);
    }
  }

  lemma MoveToDatabaseSafe(s: Store, id: RowId)
    requires Valid(s) && id in s.rows && s.rows[id].key.Some?
    ensures Valid(MovedToDatabase(s, id)) && Contents(MovedToDatabase(s, id)) == Contents(s)
  {
    var t := MovedToDatabase(s, id);
    TombstonedKey(s, t, id);
  }

  lemma DeleteSafe(s: Store, id: RowId)
    requires Valid(s) && id in s.rows
    ensures Valid(Deleted(s, id)) && Contents(Deleted(s, id)) == Contents(s) - {id}
  {
    TombstonedKey(s, Deleted(s, id), id);
  }

  /** Taking the only reference to a key away leaves it unreferenced. */
  lemma TombstonedKey(s: Store, t: Store, id: RowId)
    requires Valid(s) && id in s.rows
    requires forall i <- t.rows :: i in s.rows && (t.rows[i] == s.rows[i] || t.rows[i].key.None?)
    requires id in t.rows ==> t.rows[id].key.None?
    ensures forall key: Key :: References(t, key) ==> References(s, key) && s.rows[id].key != Some(key)
    ensures s.rows[id].key.Some? ==> s.rows[id].key.value !in s.tombstones
  {
    forall key: Key | References(t, key)
      ensures References(s, key) && s.rows[id].key != Some(key)
    {
      var i :| i in t.rows && t.rows[i].key == Some(key);
      assert s.rows[i].key == Some(key);
    }
    if s.rows[id].key.Some? {
      assert References(s, s.rows[id].key.value);
    }
  }

  /** The sweep deletes no object that a row still reads. */
  lemma SweepSafe(s: Store, i: nat)
    requires Valid(s) && i < |s.tombstones|
    ensures Valid(Swept(s, i)) && Contents(Swept(s, i)) == Contents(s)
  {
    var t, key := Swept(s, i), s.tombstones[i];
    forall id | id in s.rows
      ensures s.rows[id].key != Some(key)
    {
      if s.rows[id].key == Some(key) {
        assert References(s, key);
      }
    }
    forall k | k in t.tombstones
      ensures k in s.tombstones && !References(t, k)
    {
      assert t.tombstones == s.tombstones[..i] + s.tombstones[i + 1..];
      assert !References(s, k);
    }
  }

  // ---- The scripts ----------------------------------------------------------

  /** Rows still holding their bytes themselves. */
  ghost function InDatabase(s: Store, model: nat): set<RowId> {
    set id | id in s.rows && s.rows[id].model == model && s.rows[id].blob.Some?
  }

  /** Rows whose bytes are in the bucket. */
  ghost function InBucket(s: Store, model: nat): set<RowId> {
    set id | id in s.rows && s.rows[id].model == model && s.rows[id].key.Some?
  }

  class Media {
    var rows: map<RowId, Row>
    var bucket: map<Key, Bytes>
    var tombstones: seq<Key>
    var next: Key

    ghost function State(): Store
      reads this
    {
      Store(rows, bucket, tombstones, next)
    }

    constructor ()
      ensures Valid(State()) && rows == map[]
    {
      rows, bucket, tombstones, next := map[], map[], [], 0;
    }

    /** `store`, on a row just made: into the bucket, which may refuse the
        upload, or into the row itself. */
    method StoreNew(id: RowId, model: nat, data: Bytes, s3: bool, refused: bool) returns (ok: bool)
      requires Valid(State()) && id !in rows && model < MODELS
      modifies this
      ensures ok <==> !(s3 && refused)
      ensures State() == if ok then Stored(old(State()), id, model, data, s3) else old(State())
      ensures Valid(State()) && tombstones == old(tombstones)
      ensures ok ==> Contents(State()) == Contents(old(State()))[id := Some(data)]
      ensures ok ==> rows.Keys == old(rows).Keys + {id} && rows[id].model == model && (rows[id].key.Some? <==> s3)
    {
      if s3 && refused {
        return false;
      }
      StoredSafe(State(), id, model, data, s3);
      if s3 {
        bucket := bucket[next := data];
        rows := rows[id := Row(model, None, Some(next))];
        next := next + 1;
      } else {
        rows := rows[id := Row(model, Some(data), None)];
      }
      return true;
    }

    method Delete(id: RowId)
      requires Valid(State()) && id in rows
      modifies this
      ensures Valid(State()) && State() == Deleted(old(State()), id)
    {
      DeleteSafe(State(), id);
      if rows[id].key.Some? {
        tombstones := tombstones + [rows[id].key.value];
      }
      rows := rows - {id};
    }

    /** One batch: at most `batch` rows of a model, those in the database or
        those in the bucket, in no particular order. */
    method Select(model: nat, batch: nat, inDatabase: bool) returns (ids: seq<RowId>)
      requires 0 < batch
      ensures forall id <- ids :: id in (if inDatabase then InDatabase(State(), model) else InBucket(State(), model))
      ensures forall i, j :: 0 <= i < j < |ids| ==> ids[i] != ids[j]
      ensures ids == [] ==> (if inDatabase then InDatabase(State(), model) else InBucket(State(), model)) == {}
    {
      ids := [];
      var rest := set id | id in rows && rows[id].model == model
                           && (if inDatabase then rows[id].blob.Some? else rows[id].key.Some?);
      ghost var all := rest;
      while rest != {} && |ids| < batch
        invariant rest <= all && forall id <- ids :: id in all && id !in rest
        invariant forall i, j :: 0 <= i < j < |ids| ==> ids[i] != ids[j]
        invariant ids == [] ==> rest == all
        decreases rest
      {
        var id :| id in rest;
        rest := rest - {id};
        ids := ids + [id];
      }
    }

    method RowToBucket(id: RowId)
      requires Valid(State()) && id in InDatabaseAll(State())
      modifies this
      ensures Valid(State()) && State() == MovedToBucket(old(State()), id)
      ensures Contents(State()) == Contents(old(State()))
    {
      MoveToBucketSafe(State(), id);
      rows := rows[id := rows[id].(key := Some(next))];
      bucket := bucket[next := rows[id].blob.value];
      rows := rows[id := rows[id].(blob := None)];
      next := next + 1;
    }

    method BatchToBucket(ids: seq<RowId>, model: nat)
      requires Valid(State())
      requires forall id <- ids :: id in InDatabase(State(), model)
      requires forall i, j :: 0 <= i < j < |ids| ==> ids[i] != ids[j]
      modifies this
      ensures Valid(State()) && Contents(State()) == Contents(old(State())) && tombstones == old(tombstones)
      ensures forall m :: InDatabase(State(), m) <= old(InDatabase(State(), m))
      ensures forall id <- ids :: id !in InDatabase(State(), model)
      ensures |ids| + |InDatabaseAll(State())| == |old(InDatabaseAll(State()))|
    {
      for i := 0 to |ids|
        invariant Valid(State()) && Contents(State()) == Contents(old(State())) && tombstones == old(tombstones)
        invariant forall m :: InDatabase(State(), m) <= old(InDatabase(State(), m))
        invariant forall j | i <= j < |ids| :: ids[j] in InDatabase(State(), model)
        invariant forall j | 0 <= j < i :: ids[j] !in InDatabase(State(), model)
        invariant i + |InDatabaseAll(State())| == |old(InDatabaseAll(State()))|
      {
        LeavesDatabase(State(), ids[i]);
        RowToBucket(ids[i]);
      }
    }

    /** Every row's bytes leave the database; every row reads as before. */
    method ToBucket(batch: nat) returns (moved: nat)
      requires Valid(State()) && 0 < batch
      modifies this
      ensures Valid(State()) && Contents(State()) == Contents(old(State())) && tombstones == old(tombstones)
      ensures InDatabaseAll(State()) == {} && moved == |old(InDatabaseAll(State()))|
    {
      moved := 0;
      for model := 0 to MODELS
        invariant Valid(State()) && Contents(State()) == Contents(old(State())) && tombstones == old(tombstones)
        invariant moved + |InDatabaseAll(State())| == |old(InDatabaseAll(State()))|
        invariant forall m | 0 <= m < model :: InDatabase(State(), m) == {}
      {
        while true
          invariant Valid(State()) && Contents(State()) == Contents(old(State())) && tombstones == old(tombstones)
          invariant moved + |InDatabaseAll(State())| == |old(InDatabaseAll(State()))|
          invariant forall m | 0 <= m < model :: InDatabase(State(), m) == {}
          decreases InDatabase(State(), model)
        {
          var ids := Select(model, batch, true);
          if ids == [] {
            break;
          }
          assert ids[0] in ids && ids[0] in InDatabase(State(), model);
          BatchToBucket(ids, model);
          moved := moved + |ids|;
        }
      }
      InDatabaseEvery(State());
    }

    method RowToDatabase(id: RowId)
      requires Valid(State()) && id in InBucketAll(State())
      modifies this
      ensures Valid(State()) && State() == MovedToDatabase(old(State()), id)
      ensures Contents(State()) == Contents(old(State()))
    {
      MoveToDatabaseSafe(State(), id);
      var key := rows[id].key.value;
      rows := rows[id := rows[id].(blob := Some(bucket[key]))];
      rows := rows[id := rows[id].(key := None)];
      tombstones := tombstones + [key];
    }

    method BatchToDatabase(ids: seq<RowId>, model: nat)
      requires Valid(State())
      requires forall id <- ids :: id in InBucket(State(), model)
      requires forall i, j :: 0 <= i < j < |ids| ==> ids[i] != ids[j]
      modifies this
      ensures Valid(State()) && Contents(State()) == Contents(old(State())) && bucket == old(bucket)
      ensures forall m :: InBucket(State(), m) <= old(InBucket(State(), m))
      ensures forall id <- ids :: id !in InBucket(State(), model)
      ensures |ids| + |InBucketAll(State())| == |old(InBucketAll(State()))|
    {
      for i := 0 to |ids|
        invariant Valid(State()) && Contents(State()) == Contents(old(State())) && bucket == old(bucket)
        invariant forall m :: InBucket(State(), m) <= old(InBucket(State(), m))
        invariant forall j | i <= j < |ids| :: ids[j] in InBucket(State(), model)
        invariant forall j | 0 <= j < i :: ids[j] !in InBucket(State(), model)
        invariant i + |InBucketAll(State())| == |old(InBucketAll(State()))|
      {
        LeavesBucket(State(), ids[i]);
        RowToDatabase(ids[i]);
      }
    }

    /** Every row's bytes come back; the objects are left to the sweep. */
    method ToDatabase(batch: nat) returns (moved: nat)
      requires Valid(State()) && 0 < batch
      modifies this
      ensures Valid(State()) && Contents(State()) == Contents(old(State())) && bucket == old(bucket)
      ensures InBucketAll(State()) == {} && moved == |old(InBucketAll(State()))|
    {
      moved := 0;
      for model := 0 to MODELS
        invariant Valid(State()) && Contents(State()) == Contents(old(State())) && bucket == old(bucket)
        invariant moved + |InBucketAll(State())| == |old(InBucketAll(State()))|
        invariant forall m | 0 <= m < model :: InBucket(State(), m) == {}
      {
        while true
          invariant Valid(State()) && Contents(State()) == Contents(old(State())) && bucket == old(bucket)
          invariant moved + |InBucketAll(State())| == |old(InBucketAll(State()))|
          invariant forall m | 0 <= m < model :: InBucket(State(), m) == {}
          decreases InBucket(State(), model)
        {
          var ids := Select(model, batch, false);
          if ids == [] {
            break;
          }
          assert ids[0] in ids && ids[0] in InBucket(State(), model);
          BatchToDatabase(ids, model);
          moved := moved + |ids|;
        }
      }
      InBucketEvery(State());
    }

    /** One tombstone's turn, its object deleted. */
    method SweepOne(i: nat)
      requires Valid(State()) && i < |tombstones|
      modifies this
      ensures Valid(State()) && State() == Swept(old(State()), i) && Contents(State()) == Contents(old(State()))
    {
      SweepSafe(State(), i);
      bucket := bucket - {tombstones[i]};
      tombstones := tombstones[..i] + tombstones[i + 1..];
    }

    /** `sweep_tombstones`, oldest first; another sweep has the tombstones of
        `locked`, and the bucket will not delete the objects of `refusing` now. */
    method SweepTombstones(limit: nat, locked: set<Key>, refusing: set<Key>, s3: bool) returns (removed: nat)
      requires Valid(State())
      modifies this
      ensures Valid(State()) && Contents(State()) == Contents(old(State())) && rows == old(rows)
      ensures tombstones == if s3 then Kept(old(tombstones), limit, locked, refusing) else old(tombstones)
      ensures bucket == Remaining(old(bucket), old(tombstones), tombstones)
      ensures removed == |old(tombstones)| - |tombstones|
    {
      removed := 0;
      if !s3 {
        return;
      }
      var i, left := 0, limit;
      while i < |tombstones| && left > 0
        invariant Valid(State()) && Contents(State()) == Contents(old(State())) && rows == old(rows)
        invariant removed + |tombstones| == |old(tombstones)| && i <= |tombstones|
        invariant tombstones[..i] + Kept(tombstones[i..], left, locked, refusing)
               == Kept(old(tombstones), limit, locked, refusing)
        invariant forall key <- tombstones :: key in old(tombstones)
        invariant bucket == Remaining(old(bucket), old(tombstones), tombstones)
        decreases |tombstones| - i
      {
        var key := tombstones[i];
        TurnOf(tombstones, i, left, locked, refusing);
        if key in locked {
          i := i + 1;
        } else if key in refusing {
          i, left := i + 1, left - 1;
        } else {
          NextRemaining(old(bucket), old(tombstones), tombstones, i);
          SweepOne(i);
          removed, left := removed + 1, left - 1;
        }
      }
    }
  }

  function Listed(keys: seq<Key>): set<Key> {
    set key | key in keys
  }

  /** The bucket once the objects of the tombstones that went are deleted. */
  function Remaining(bucket: map<Key, Bytes>, before: seq<Key>, after: seq<Key>): map<Key, Bytes> {
    bucket - (Listed(before) - Listed(after))
  }

  lemma NextRemaining(bucket: map<Key, Bytes>, before: seq<Key>, after: seq<Key>, i: nat)
    requires i < |after| && after[i] in before && forall j, k :: 0 <= j < k < |after| ==> after[j] != after[k]
    ensures Remaining(bucket, before, after) - {after[i]} == Remaining(bucket, before, after[..i] + after[i + 1..])
  {
    GoneKey(after, i);
  }

  /** The tombstones a sweep leaves: those another sweep has, which do not count
      towards the limit, those the bucket refused, and those past the limit. */
  function Kept(keys: seq<Key>, limit: nat, locked: set<Key>, refusing: set<Key>): seq<Key> {
    if keys == [] || limit == 0 then keys
    else if keys[0] in locked then [keys[0]] + Kept(keys[1..], limit, locked, refusing)
    else if keys[0] in refusing then [keys[0]] + Kept(keys[1..], limit - 1, locked, refusing)
    else Kept(keys[1..], limit - 1, locked, refusing)
  }

  /** One turn of the sweep, at place `i`. */
  lemma TurnOf(keys: seq<Key>, i: nat, left: nat, locked: set<Key>, refusing: set<Key>)
    requires i < |keys| && 0 < left
    ensures var rest := keys[..i] + Kept(keys[i..], left, locked, refusing);
            && (keys[i] in locked ==> keys[..i + 1] + Kept(keys[i + 1..], left, locked, refusing) == rest)
            && (keys[i] !in locked && keys[i] in refusing
                ==> keys[..i + 1] + Kept(keys[i + 1..], left - 1, locked, refusing) == rest)
            && (keys[i] !in locked && keys[i] !in refusing
                ==> var fewer := keys[..i] + keys[i + 1..];
                    fewer[..i] + Kept(fewer[i..], left - 1, locked, refusing) == rest)
  {
    assert keys[i..][1..] == keys[i + 1..] && keys[..i + 1] == keys[..i] + [keys[i]];
    var fewer := keys[..i] + keys[i + 1..];
    assert fewer[..i] == keys[..i] && fewer[i..] == keys[i + 1..];
  }

  lemma GoneKey(keys: seq<Key>, i: nat)
    requires i < |keys| && forall j, k :: 0 <= j < k < |keys| ==> keys[j] != keys[k]
    ensures Listed(keys[..i] + keys[i + 1..]) == Listed(keys) - {keys[i]}
  {
    var fewer := keys[..i] + keys[i + 1..];
    forall key | key in keys && key != keys[i]
      ensures key in fewer
    {
      var j :| 0 <= j < |keys| && keys[j] == key;
      assert key == if j < i then fewer[j] else fewer[j - 1];
    }
    forall key | key in fewer
      ensures key in keys && key != keys[i]
    {
      var j :| 0 <= j < |fewer| && fewer[j] == key;
      assert key == if j < i then keys[j] else keys[j + 1];
    }
  }

  ghost function InDatabaseAll(s: Store): set<RowId> {
    set id | id in s.rows && s.rows[id].blob.Some?
  }

  ghost function InBucketAll(s: Store): set<RowId> {
    set id | id in s.rows && s.rows[id].key.Some?
  }

  lemma LeavesDatabase(s: Store, id: RowId)
    requires id in s.rows && s.rows[id].blob.Some?
    ensures forall m :: InDatabase(MovedToBucket(s, id), m) == InDatabase(s, m) - {id}
    ensures InDatabaseAll(MovedToBucket(s, id)) == InDatabaseAll(s) - {id} && id in InDatabaseAll(s)
  {
  }

  lemma LeavesBucket(s: Store, id: RowId)
    requires id in s.rows && s.rows[id].key.Some? && s.rows[id].key.value in s.bucket
    ensures forall m :: InBucket(MovedToDatabase(s, id), m) == InBucket(s, m) - {id}
    ensures InBucketAll(MovedToDatabase(s, id)) == InBucketAll(s) - {id} && id in InBucketAll(s)
  {
  }

  lemma InDatabaseEvery(s: Store)
    requires Valid(s)
    ensures (forall m | 0 <= m < MODELS :: InDatabase(s, m) == {}) ==> InDatabaseAll(s) == {}
  {
    forall id | id in InDatabaseAll(s)
      ensures id in InDatabase(s, s.rows[id].model)
    {
    }
  }

  lemma InBucketEvery(s: Store)
    requires Valid(s)
    ensures (forall m | 0 <= m < MODELS :: InBucket(s, m) == {}) ==> InBucketAll(s) == {}
  {
    forall id | id in InBucketAll(s)
      ensures id in InBucket(s, s.rows[id].model)
    {
    }
  }
}
