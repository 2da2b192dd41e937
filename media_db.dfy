/** The media catalog (server/utils/media-db.ts): an in-memory map from record id
    to media record, in insertion order, with lookups that stamp the access time
    and summary statistics. */
module MediaDb {
  import opened Wrappers
  import opened JsMaps

  /** `'image' | 'video'` */
  datatype MediaType = ImageType | VideoType

  datatype Metadata = Metadata(
    postId: Option<string>,
    username: Option<string>,
    caption: Option<string>,
    downloadedAt: string,
    lastAccessed: string)

  datatype MediaRecord = MediaRecord(
    id: string,
    url: string,
    localPath: string,
    mediaType: MediaType,
    size: int,
    mimeType: string,
    source: string,
    metadata: Metadata)

  /** `record.metadata.lastAccessed = now`: the record stamped with the access time
      `now` (the ISO text of the current instant), and nothing else changed. */
  function Touch(r: MediaRecord, now: string): (t: MediaRecord)
    ensures t.metadata.lastAccessed == now
    ensures t.(metadata := t.metadata.(lastAccessed := r.metadata.lastAccessed)) == r
    ensures t.id == r.id && t.url == r.url && t.size == r.size && t.mediaType == r.mediaType
  {
    r.(metadata := r.metadata.(lastAccessed := now))
  }

  /** `records.forEach(record => db.set(record.id, record))` on `m`. */
  function Loaded(m: JsMap<MediaRecord>, records: seq<MediaRecord>): JsMap<MediaRecord>
    decreases |records|
  {
    if records == [] then m
    else
      var n := |records| - 1;
      Loaded(m, records[..n]).Set(records[n].id, records[n])
  }

  lemma {:induction false} LoadedValid(m: JsMap<MediaRecord>, records: seq<MediaRecord>)
    requires m.Valid()
    ensures Loaded(m, records).Valid()
    decreases |records|
  {
    if records != [] {
      var n := |records| - 1;
      LoadedValid(m, records[..n]);
      SetSpec(Loaded(m, records[..n]), records[n].id, records[n]);
    }
  }

  /** After loading, an id no record carries keeps what it had before. */
  lemma {:induction false} LoadedUntouched(m: JsMap<MediaRecord>, records: seq<MediaRecord>, k: string)
    requires m.Valid()
    requires forall i :: 0 <= i < |records| ==> records[i].id != k
    ensures Loaded(m, records).Get(k) == m.Get(k)
    decreases |records|
  {
    if records != [] {
      var n := |records| - 1;
      LoadedValid(m, records[..n]);
      LoadedUntouched(m, records[..n], k);
      SetSpec(Loaded(m, records[..n]), records[n].id, records[n]);
    }
  }

  /** After loading, an id maps to the last record that carries it. */
  lemma {:induction false} LoadedLastWins(m: JsMap<MediaRecord>, records: seq<MediaRecord>, i: nat)
    requires m.Valid()
    requires i < |records|
    requires forall j :: i < j < |records| ==> records[j].id != records[i].id
    ensures Loaded(m, records).Get(records[i].id) == Some(records[i])
    decreases |records|
  {
    var n := |records| - 1;
    var init := records[..n];
    var k := records[i].id;
    LoadedValid(m, init);
    SetSpec(Loaded(m, init), records[n].id, records[n]);
    if i < n {
      assert init[i] == records[i];
      assert forall j :: i < j < |init| ==> init[j].id != init[i].id by {
        forall j | i < j < |init| ensures init[j].id != init[i].id {
          assert init[j] == records[j];
        }
      }
      LoadedLastWins(m, init, i);
    }
  }

  /** The ids of a list of records. */
  function Ids(records: seq<MediaRecord>): set<string> {
    set i | 0 <= i < |records| :: records[i].id
  }

  /** Loading into an empty catalog keys it by id: it holds exactly the ids of
      the list, so its size is the number of distinct ids. */
  lemma LoadedSize(records: seq<MediaRecord>)
    ensures Loaded(Empty(), records).entries.Keys == Ids(records)
    ensures Loaded(Empty(), records).Size() == |Ids(records)|
  {
    var m := Loaded(Empty(), records);
    LoadedValid(Empty(), records);
    forall k ensures k in m.entries <==> k in Ids(records) {
      if k in Ids(records) {
        var i :| 0 <= i < |records| && records[i].id == k;
        LastWithId(records, k, i);
        var l :| i <= l < |records| && records[l].id == k &&
                 forall j :: l < j < |records| ==> records[j].id != k;
        LoadedLastWins(Empty(), records, l);
      } else {
        LoadedUntouched(Empty(), records, k);
      }
    }
    SizeIsKeyCount(m);
  }

  /** When some record carries `k`, a last one does. */
  lemma {:induction false} LastWithId(records: seq<MediaRecord>, k: string, i: nat)
    requires i < |records| && records[i].id == k
    ensures exists l :: i <= l < |records| && records[l].id == k &&
                        forall j :: l < j < |records| ==> records[j].id != k
    decreases |records| - i
  {
    if exists j :: i < j < |records| && records[j].id == k {
      var j :| i < j < |records| && records[j].id == k;
      LastWithId(records, k, j);
    }
  }

  /** The position of the first record with the given URL. */
  function FirstWithUrl(records: seq<MediaRecord>, url: string): (r: Option<nat>)
    ensures r.Some? ==> r.value < |records| && records[r.value].url == url &&
                        forall j :: 0 <= j < r.value ==> records[j].url != url
    ensures r.None? ==> forall j :: 0 <= j < |records| ==> records[j].url != url
  {
    if records == [] then None
    else if records[0].url == url then Some(0)
    else match FirstWithUrl(records[1..], url)
      case None => None
      case Some(i) => Some(i + 1)
  }

  /** `records.reduce((sum, r) => sum + r.size, 0)` */
  function TotalSize(records: seq<MediaRecord>): int
    decreases |records|
  {
    if records == [] then 0 else TotalSize(records[..|records| - 1]) + records[|records| - 1].size
  }

  /** `records.filter(r => r.type === t).length` */
  function CountOf(records: seq<MediaRecord>, t: MediaType): nat
    decreases |records|
  {
    if records == [] then 0
    else CountOf(records[..|records| - 1], t) + (if records[|records| - 1].mediaType == t then 1 else 0)
  }

  /** The numbers `getStats` reports, with `formattedSize`. */
  datatype Stats = Stats(totalRecords: nat, totalSize: int, imageCount: nat, videoCount: nat,
                         formattedSize: string)

  /** `formatBytes(bytes)`: zero is `0 Bytes`; any other count is rendered by
      `render`, which stands for the logarithm-and-rounding branch. */
  function FormatBytes(bytes: int, render: int -> string): (s: string)
    ensures bytes == 0 ==> s == "0 Bytes"
  {
    if bytes == 0 then "0 Bytes" else render(bytes)
  }

  function StatsOf(records: seq<MediaRecord>, render: int -> string): Stats {
    var total := TotalSize(records);
    Stats(|records|, total, CountOf(records, ImageType), CountOf(records, VideoType), FormatBytes(total, render))
  }

  /** Every record is an image or a video, so the two counts add up to the total. */
  lemma {:induction false} CountsAddUp(records: seq<MediaRecord>)
    ensures CountOf(records, ImageType) + CountOf(records, VideoType) == |records|
    decreases |records|
  {
    if records != [] {
      CountsAddUp(records[..|records| - 1]);
    }
  }

  /** The statistics depend only on the sizes and types of the records, position
      by position. */
  lemma {:induction false} SameShapeSameStats(a: seq<MediaRecord>, b: seq<MediaRecord>, render: int -> string)
    requires |a| == |b|
    requires forall i :: 0 <= i < |a| ==> a[i].size == b[i].size && a[i].mediaType == b[i].mediaType
    ensures StatsOf(a, render) == StatsOf(b, render)
    decreases |a|
  {
    if a != [] {
      var n := |a| - 1;
      SameShapeSameStats(a[..n], b[..n], render);
    }
  }

  /** Adding a record under a new id adds one record, its size, and one to the
      count of its type. */
  lemma AddNewRecordStats(m: JsMap<MediaRecord>, r: MediaRecord, render: int -> string)
    requires m.Valid() && r.id !in m.entries
    ensures var before := StatsOf(m.Values(), render);
            var after := StatsOf(m.Set(r.id, r).Values(), render);
            && after.totalRecords == before.totalRecords + 1
            && after.totalSize == before.totalSize + r.size
            && after.imageCount == before.imageCount + (if r.mediaType == ImageType then 1 else 0)
            && after.videoCount == before.videoCount + (if r.mediaType == VideoType then 1 else 0)
  {
    var m' := m.Set(r.id, r);
    SetSpec(m, r.id, r);
    var vs := m'.Values();
    assert vs[..|vs| - 1] == m.Values();
    assert vs[|vs| - 1] == r;
  }

  /** Stamping the access time of a present record leaves the statistics alone. */
  lemma TouchKeepsStats(m: JsMap<MediaRecord>, id: string, now: string, render: int -> string)
    requires m.Valid() && id in m.entries
    ensures StatsOf(m.Set(id, Touch(m.entries[id], now)).Values(), render) == StatsOf(m.Values(), render)
  {
    var m' := m.Set(id, Touch(m.entries[id], now));
    SetSpec(m, id, Touch(m.entries[id], now));
    SameShapeSameStats(m'.Values(), m.Values(), render);
  }

  /** `MediaDatabase`: the catalog `db`. */
  class MediaDatabase {
    var db: JsMap<MediaRecord>

    ghost predicate Valid()
      reads this
    {
      db.Valid()
    }

    /** A new catalog is empty until `Load` runs. */
    constructor()
      ensures Valid() && db == Empty()
    {
      db := Empty();
    }

    /** `load()`: `stored` is the parsed record list of the database file, `None`
        when the file is missing or cannot be read or parsed, which leaves the
        catalog as it was. */
    method Load(stored: Option<seq<MediaRecord>>)
      requires Valid()
      modifies this
      ensures Valid()
      ensures stored.None? ==> db == old(db)
      ensures stored.Some? ==> db == Loaded(old(db), stored.value)
    {
      if stored.Some? {
        var records := stored.value;
        for i := 0 to |records|
          invariant db == Loaded(old(db), records[..i])
          invariant Valid()
        {
          assert records[..i + 1][..i] == records[..i];
          SetSpec(db, records[i].id, records[i]);
          db := db.Set(records[i].id, records[i]);
        }
        assert records[..|records|] == records;
      }
    }

    /** `addRecord(record)`: the id now maps to the record; other ids keep theirs. */
    method AddRecord(record: MediaRecord)
      requires Valid()
      modifies this
      ensures Valid()
      ensures db == old(db).Set(record.id, record)
      ensures db.Get(record.id) == Some(record)
      ensures forall k :: k != record.id ==> db.Get(k) == old(db).Get(k)
    {
      SetSpec(db, record.id, record);
      db := db.Set(record.id, record);
    }

    /** `getRecord(id)`: nothing, and no change, for an absent id; otherwise the
        record stamped with `now`, which also replaces it in the catalog. */
    method GetRecord(id: string, now: string) returns (r: Option<MediaRecord>)
      requires Valid()
      modifies this
      ensures Valid()
      ensures id !in old(db).entries ==> r.None? && db == old(db)
      ensures id in old(db).entries ==>
                r == Some(Touch(old(db).entries[id], now)) && db == old(db).Set(id, r.value)
    {
      r := db.Get(id);
      if r.Some? {
        var touched := Touch(r.value, now);
        SetSpec(db, id, touched);
        db := db.Set(id, touched);
        r := Some(touched);
      }
    }

    /** `findByUrl(url)`: the first record in insertion order with that URL,
        stamped with `now`, which also replaces it in the catalog; nothing, and no
        change, when no record has it. */
    method FindByUrl(url: string, now: string) returns (r: Option<MediaRecord>)
      requires Valid()
      modifies this
      ensures Valid()
      ensures FirstWithUrl(old(db).Values(), url).None? ==> r.None? && db == old(db)
      ensures FirstWithUrl(old(db).Values(), url).Some? ==>
                var i := FirstWithUrl(old(db).Values(), url).value;
                r == Some(Touch(old(db).Values()[i], now)) &&
                db == old(db).Set(old(db).keys[i], r.value)
    {
      var keys := db.keys;
      ghost var values := db.Values();
      for i := 0 to |keys|
        invariant db == old(db)
        invariant forall j :: 0 <= j < i ==> values[j].url != url
      {
        var record := db.entries[keys[i]];
        if record.url == url {
          var touched := Touch(record, now);
          FirstIsHere(values, url, i);
          SetSpec(db, keys[i], touched);
          db := db.Set(keys[i], touched);
          return Some(touched);
        }
      }
      NoneFound(values, url);
      return None;
    }

    /** `getAllRecords()`: one record per key, in insertion order. */
    method GetAllRecords() returns (records: seq<MediaRecord>)
      requires Valid()
      ensures |records| == db.Size()
      ensures forall i :: 0 <= i < |records| ==> records[i] == db.entries[db.keys[i]]
    {
      records := db.Values();
    }

    /** `getStats()` over the records in insertion order. */
    method GetStats(render: int -> string) returns (s: Stats)
      requires Valid()
      ensures s == StatsOf(db.Values(), render)
      ensures s.totalRecords == db.Size() && s.imageCount + s.videoCount == s.totalRecords
    {
      CountsAddUp(db.Values());
      s := StatsOf(db.Values(), render);
    }
  }

  lemma FirstIsHere(records: seq<MediaRecord>, url: string, i: nat)
    requires i < |records| && records[i].url == url
    requires forall j :: 0 <= j < i ==> records[j].url != url
    ensures FirstWithUrl(records, url) == Some(i)
  {
  }

  lemma NoneFound(records: seq<MediaRecord>, url: string)
    requires forall j :: 0 <= j < |records| ==> records[j].url != url
    ensures FirstWithUrl(records, url).None?
  {
  }
}
