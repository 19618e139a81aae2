/**
 * SchemaSnapshotService (server/services/SchemaSnapshotService.ts): a
 * per-database history of schema snapshots, keyed `db-<id>` in an ordered
 * map and capped at the 50 most recent captures, plus the last snapshot
 * captured for each database. The clock is the `now` parameter (epoch
 * milliseconds) and the local calendar fields of `now` are given as a
 * `LocalTime`.
 */
module SchemaSnapshots {
  import opened Wrappers
  import opened JsText
  import opened JsMaps
  import opened Sorting
  import opened Encoding
  import opened DatabaseTypes
  import opened SchemaDiff

  datatype SchemaSnapshot = SchemaSnapshot(
    id: string,
    databaseId: int,
    timestamp: int,
    schema: SchemaInfo,
    version: string,
    checksum: string)

  function SnapshotTime(s: SchemaSnapshot): int { s.timestamp }

  function ChangeTime(c: SchemaChange): int { c.timestamp }

  /** Snapshot histories are stored under `db-<id>`. */
  function HistoryKey(databaseId: int): string {
    "db-" + IntToString(databaseId)
  }

  lemma HistoryKeyInjective(a: int, b: int)
    requires HistoryKey(a) == HistoryKey(b)
    ensures a == b
  {
    assert HistoryKey(a)[3..] == IntToString(a);
    assert HistoryKey(b)[3..] == IntToString(b);
    IntToStringInjective(a, b);
  }

  const MaxHistory: nat := 50

  /** `push` followed by `splice(0, length - 50)`: the 50 most recent entries, oldest first. */
  function AppendCapped(h: seq<SchemaSnapshot>, s: SchemaSnapshot): (r: seq<SchemaSnapshot>)
    ensures |r| == if |h| + 1 > MaxHistory then MaxHistory else |h| + 1
    ensures r[|r| - 1] == s
    ensures forall i :: 0 <= i < |r| - 1 ==> r[i] == h[|h| - (|r| - 1) + i]
  {
    var all := h + [s];
    if |all| > MaxHistory then all[|all| - MaxHistory..] else all
  }

  // ----- version and checksum -----

  /** The local calendar fields of a capture time, as `Date` reports them (month from 0). */
  datatype LocalTime = LocalTime(year: int, month: int, day: int, hours: int, minutes: int)

  lemma TwoDigits(n: nat)
    requires 10 <= n < 100
    ensures |NatToDecimal(n)| == 2
  {
  }

  lemma ThreeDigits(n: nat)
    requires 100 <= n < 1000
    ensures |NatToDecimal(n)| == 3
  {
    var q := n / 10;
    assert 10 <= q < 100;
    TwoDigits(q);
  }

  lemma FourDigits(n: nat)
    requires 1000 <= n < 10000
    ensures |NatToDecimal(n)| == 4
  {
    var q := n / 10;
    assert 100 <= q < 1000;
    ThreeDigits(q);
  }

  /** `n.toString().padStart(2, '0')`. */
  function Pad2(n: int): (r: string)
    ensures |r| >= 2
    ensures 0 <= n < 100 ==> |r| == 2
  {
    if 0 <= n < 10 then "0" + IntToString(n)
    else if 10 <= n < 100 then TwoDigits(n); IntToString(n)
    else IntToString(n)
  }

  /** generateVersion: `v<year>.<MM>.<DD>-<HH><mm>`. */
  function GenerateVersion(t: LocalTime): (v: string)
    ensures |v| >= 13 && v[0] == 'v'
  {
    "v" + IntToString(t.year) + "." + Pad2(t.month + 1) + "." + Pad2(t.day) + "-" + Pad2(t.hours) + Pad2(t.minutes)
  }

  /** For a four-digit year every version string has the same width, 16 characters. */
  lemma VersionWidth(t: LocalTime)
    requires 1000 <= t.year < 10000 && 0 <= t.month < 12 && 1 <= t.day <= 31
    requires 0 <= t.hours < 24 && 0 <= t.minutes < 60
    ensures |GenerateVersion(t)| == 16
  {
    FourDigits(t.year);
  }

  /** `[{},{},...]`: an array of `n` objects none of whose properties the replacer keeps. */
  function EmptyObjects(n: nat): string {
    "[" + Join(seq(n, _ => "{}"), ",") + "]"
  }

  /**
   * `JSON.stringify(schema, Object.keys(schema).sort())`. The replacer array
   * lists the properties kept at EVERY level, so tables, views and
   * procedures come out as arrays of empty objects.
   */
  function ChecksumText(s: SchemaInfo): string {
    "{\"includeData\":" + (if s.includeData then "true" else "false")
      + ",\"procedures\":" + EmptyObjects(|s.procedures|)
      + ",\"tables\":" + EmptyObjects(|s.tables|)
      + ",\"views\":" + EmptyObjects(|s.views|) + "}"
  }

  /** `hash = ((hash << 5) - hash) + code; hash = hash & hash` over the text, as a polynomial in 31 modulo 2^32. */
  function HashOf(text: string): (h: int)
    ensures -0x8000_0000 <= h < 0x8000_0000
  {
    if text == [] then 0
    else Int32(31 * HashOf(text[..|text| - 1]) + text[|text| - 1] as int)
  }

  /** One step of the loop equals the polynomial step. */
  lemma HashStep(h: int, c: int)
    ensures Int32(Int32(h * 32) - h + c) == Int32(31 * h + c)
  {
    var a := Int32(h * 32);
    assert (a - h * 32) % 0x1_0000_0000 == 0;
    assert (a - h + c) - (31 * h + c) == a - h * 32;
    Int32Congruent(a - h + c, 31 * h + c);
  }

  /** calculateChecksum: `Math.abs(hash).toString(16)`. */
  function Checksum(s: SchemaInfo): string {
    var h := HashOf(ChecksumText(s));
    NatToHex(if h < 0 then -h else h)
  }

  /** The checksum sees only includeData and how many tables, views and procedures there are. */
  lemma ChecksumIgnoresContent(a: SchemaInfo, b: SchemaInfo)
    requires a.includeData == b.includeData
    requires |a.tables| == |b.tables| && |a.views| == |b.views| && |a.procedures| == |b.procedures|
    ensures Checksum(a) == Checksum(b)
  {
  }

  // ----- snapshot lookups -----

  /** The snapshots of all databases, database by database in key order. */
  function Flatten(lists: seq<seq<SchemaSnapshot>>): seq<SchemaSnapshot> {
    if lists == [] then [] else Flatten(lists[..|lists| - 1]) + lists[|lists| - 1]
  }

  /** The last snapshot with the given id, as the search loop of generateSchemaDiff leaves it. */
  function LastWithId(s: seq<SchemaSnapshot>, id: string): (r: Option<SchemaSnapshot>)
    ensures r.Some? ==> r.value in s && r.value.id == id
  {
    if s == [] then None
    else if s[|s| - 1].id == id then Some(s[|s| - 1])
    else LastWithId(s[..|s| - 1], id)
  }

  /** A snapshot is found exactly when some snapshot carries the id, and nothing after it does. */
  lemma {:induction false} LastWithIdFound(s: seq<SchemaSnapshot>, id: string)
    ensures LastWithId(s, id).None? <==> forall i :: 0 <= i < |s| ==> s[i].id != id
    ensures LastWithId(s, id).Some? ==>
              exists i :: 0 <= i < |s| && s[i] == LastWithId(s, id).value && forall j :: i < j < |s| ==> s[j].id != id
  {
    if s == [] {
    } else if s[|s| - 1].id == id {
      assert s[|s| - 1] == LastWithId(s, id).value;
    } else {
      var init := s[..|s| - 1];
      LastWithIdFound(init, id);
      assert LastWithId(s, id) == LastWithId(init, id);
      assert forall i :: 0 <= i < |init| ==> s[i] == init[i];
      if LastWithId(init, id).Some? {
        var k :| 0 <= k < |init| && init[k] == LastWithId(init, id).value && forall j :: k < j < |init| ==> init[j].id != id;
        assert forall j :: k < j < |s| ==> s[j].id != id;
      }
    }
  }

  lemma LastWithIdSnoc(seen: seq<SchemaSnapshot>, x: SchemaSnapshot, id: string)
    ensures LastWithId(seen + [x], id) == if x.id == id then Some(x) else LastWithId(seen, id)
  {
    assert (seen + [x])[..|seen|] == seen;
  }

  /** The earliest timestamp, or none for no snapshot. */
  function MinTime(s: seq<SchemaSnapshot>): (r: Option<int>)
    ensures r.None? <==> s == []
  {
    if s == [] then None
    else
      var m := MinTime(s[..|s| - 1]);
      var t := s[|s| - 1].timestamp;
      if m.None? || t < m.value then Some(t) else m
  }

  /** The latest timestamp, or none for no snapshot. */
  function MaxTime(s: seq<SchemaSnapshot>): (r: Option<int>)
    ensures r.None? <==> s == []
  {
    if s == [] then None
    else
      var m := MaxTime(s[..|s| - 1]);
      var t := s[|s| - 1].timestamp;
      if m.None? || t > m.value then Some(t) else m
  }

  /** The earliest time is the time of some snapshot and no snapshot is earlier. */
  lemma {:induction false} MinTimeIsLeast(s: seq<SchemaSnapshot>)
    requires s != []
    ensures exists i :: 0 <= i < |s| && s[i].timestamp == MinTime(s).value
    ensures forall i :: 0 <= i < |s| ==> MinTime(s).value <= s[i].timestamp
  {
    var init := s[..|s| - 1];
    if init != [] {
      MinTimeIsLeast(init);
      var k :| 0 <= k < |init| && init[k].timestamp == MinTime(init).value;
      assert s[k] == init[k];
    }
  }

  /** The latest time is the time of some snapshot and no snapshot is later. */
  lemma {:induction false} MaxTimeIsGreatest(s: seq<SchemaSnapshot>)
    requires s != []
    ensures exists i :: 0 <= i < |s| && s[i].timestamp == MaxTime(s).value
    ensures forall i :: 0 <= i < |s| ==> s[i].timestamp <= MaxTime(s).value
  {
    var init := s[..|s| - 1];
    if init != [] {
      MaxTimeIsGreatest(init);
      var k :| 0 <= k < |init| && init[k].timestamp == MaxTime(init).value;
      assert s[k] == init[k];
    }
  }

  lemma TimeSnoc(seen: seq<SchemaSnapshot>, x: SchemaSnapshot)
    ensures var m := MinTime(seen); MinTime(seen + [x]) == if m.None? || x.timestamp < m.value then Some(x.timestamp) else m
    ensures var m := MaxTime(seen); MaxTime(seen + [x]) == if m.None? || x.timestamp > m.value then Some(x.timestamp) else m
  {
    assert (seen + [x])[..|seen|] == seen;
  }

  /** The figures getStats reports. */
  datatype SnapshotStats = SnapshotStats(
    totalSnapshots: nat,
    databaseCount: nat,
    oldestSnapshot: Option<int>,
    newestSnapshot: Option<int>)

  /** A snapshot as `JSON.parse` hands it to importSnapshot; a missing schema is `None`. */
  datatype ParsedSnapshot = ParsedSnapshot(
    id: string,
    databaseId: int,
    timestamp: int,
    schema: Option<SchemaInfo>,
    version: string,
    checksum: string)

  /**
   * What importSnapshot accepts: a parsed record with a truthy id, a truthy
   * database id and a schema, taken over field by field; anything else is `null`.
   */
  function Imported(parsed: Option<ParsedSnapshot>): (r: Option<SchemaSnapshot>)
    ensures r.Some? <==> parsed.Some? && parsed.value.id != "" && parsed.value.databaseId != 0 && parsed.value.schema.Some?
    ensures r.Some? ==> && r.value.id == parsed.value.id && r.value.databaseId == parsed.value.databaseId
                        && r.value.timestamp == parsed.value.timestamp && Some(r.value.schema) == parsed.value.schema
                        && r.value.version == parsed.value.version && r.value.checksum == parsed.value.checksum
  {
    if parsed.None? || parsed.value.id == "" || parsed.value.databaseId == 0 || parsed.value.schema.None? then None
    else
      var p := parsed.value;
      Some(SchemaSnapshot(p.id, p.databaseId, p.timestamp, p.schema.value, p.version, p.checksum))
  }

  /** The fields of a snapshot as a parse of its serialisation yields them. */
  function Parsed(s: SchemaSnapshot): ParsedSnapshot
  {
    ParsedSnapshot(s.id, s.databaseId, s.timestamp, Some(s.schema), s.version, s.checksum)
  }

  /** A snapshot the service made (truthy id and database id) is imported back as itself. */
  lemma ImportParsed(s: SchemaSnapshot)
    requires s.id != "" && s.databaseId != 0
    ensures Imported(Some(Parsed(s))) == Some(s)
  {
  }

  // ----- the store of histories -----

  /** `snapshots.get(key) || []`: the history of a database in a store. */
  function History(m: JsMap<string, seq<SchemaSnapshot>>, databaseId: int): seq<SchemaSnapshot> {
    m.Get(HistoryKey(databaseId)).GetOr([])
  }

  /** The snapshot captureSnapshot builds for a database, a schema and a moment. */
  function Captured(databaseId: int, schema: SchemaInfo, now: int, local: LocalTime): SchemaSnapshot {
    SchemaSnapshot(IntToString(databaseId) + "-" + IntToString(now), databaseId, now, schema,
                   GenerateVersion(local), Checksum(schema))
  }

  /**
   * The store once getSnapshotHistory has run for a database: `sort`
   * reorders the stored array itself, so a stored history is left newest
   * first; a database without one gains nothing.
   */
  function SortedIn(m: JsMap<string, seq<SchemaSnapshot>>, databaseId: int): (r: JsMap<string, seq<SchemaSnapshot>>)
    requires m.Valid()
    ensures r.Valid() && r.keys == m.keys
  {
    var key := HistoryKey(databaseId);
    if key in m.items then m.Set(key, SortDesc(m.items[key], SnapshotTime)) else m
  }

  /** The store once getSnapshotHistory has run for each database of `ids` in turn. */
  function SortedAll(m: JsMap<string, seq<SchemaSnapshot>>, ids: seq<int>): (r: JsMap<string, seq<SchemaSnapshot>>)
    requires m.Valid()
    ensures r.Valid() && r.keys == m.keys
  {
    if ids == [] then m else SortedIn(SortedAll(m, ids[..|ids| - 1]), ids[|ids| - 1])
  }

  /**
   * Sorting one history in place leaves it newest first, holding the same
   * snapshots, and every other history untouched; so no history reads
   * differently once sorted again.
   */
  lemma SortedInHistories(m: JsMap<string, seq<SchemaSnapshot>>, databaseId: int)
    requires m.Valid()
    ensures History(SortedIn(m, databaseId), databaseId) == SortDesc(History(m, databaseId), SnapshotTime)
    ensures forall d :: d != databaseId ==> History(SortedIn(m, databaseId), d) == History(m, d)
    ensures forall d :: SortDesc(History(SortedIn(m, databaseId), d), SnapshotTime) == SortDesc(History(m, d), SnapshotTime)
  {
    forall d | d != databaseId
      ensures History(SortedIn(m, databaseId), d) == History(m, d)
    {
      if HistoryKey(d) == HistoryKey(databaseId) {
        HistoryKeyInjective(d, databaseId);
      }
    }
    SortDescIdempotent(History(m, databaseId), SnapshotTime);
  }

  /** Running getSnapshotHistory over a list of databases sorts at most their histories and changes no history's sorted reading. */
  lemma {:induction false} SortedAllHistories(m: JsMap<string, seq<SchemaSnapshot>>, ids: seq<int>)
    requires m.Valid()
    ensures forall d :: SortDesc(History(SortedAll(m, ids), d), SnapshotTime) == SortDesc(History(m, d), SnapshotTime)
    ensures forall d :: d !in ids ==> History(SortedAll(m, ids), d) == History(m, d)
  {
    if ids != [] {
      var front := ids[..|ids| - 1];
      SortedAllHistories(m, front);
      SortedInHistories(SortedAll(m, front), ids[|ids| - 1]);
      assert forall d :: d in front ==> d in ids;
    }
  }

  /** Storing a history over one that was sorted in place is storing it over the original. */
  lemma SortedInThenSet(m: JsMap<string, seq<SchemaSnapshot>>, databaseId: int, h: seq<SchemaSnapshot>)
    requires m.Valid()
    ensures SortedIn(m, databaseId).Set(HistoryKey(databaseId), h) == m.Set(HistoryKey(databaseId), h)
  {
    var key := HistoryKey(databaseId);
    if key in m.items {
      assert m.items[key := SortDesc(m.items[key], SnapshotTime)][key := h] == m.items[key := h];
    }
  }

  // ----- schema changes across a history -----

  /** The first loop index at which getSchemaChanges stops: where `newer` is older than `since`, or the end. */
  function StopIndex(h: seq<SchemaSnapshot>, since: Option<int>, i: nat): (r: nat)
    requires 1 <= i
    decreases |h| - i
    ensures i <= r
    ensures |h| >= i ==> r <= |h|
  {
    if i >= |h| then i
    else if since.Some? && h[i - 1].timestamp < since.value then i
    else StopIndex(h, since, i + 1)
  }

  /** What getSchemaChanges collects for loop indices `1 <= j < i`: each `newer` compared with `base`. */
  function ChangesAgainst(h: seq<SchemaSnapshot>, i: nat, base: Option<SchemaInfo>, now: int): seq<SchemaChange>
    requires 1 <= i <= |h| || i == 1
  {
    if i == 1 then []
    else ChangesAgainst(h, i - 1, base, now) + (if base.Some? then Diff(base.value, h[i - 2].schema, now) else [])
  }

  /** What the loop evidently means to collect: each `newer` compared with the `older` beside it. */
  function ConsecutiveChanges(h: seq<SchemaSnapshot>, i: nat, now: int): seq<SchemaChange>
    requires 1 <= i <= |h| || i == 1
  {
    if i == 1 then []
    else ConsecutiveChanges(h, i - 1, now) + Diff(h[i - 1].schema, h[i - 2].schema, now)
  }

  /** Appending one more database's list to the flattened store. */
  lemma FlattenSnoc(lists: seq<seq<SchemaSnapshot>>, i: nat)
    requires i < |lists|
    ensures Flatten(lists[..i + 1]) == Flatten(lists[..i]) + lists[i]
  {
    assert lists[..i + 1][..i] == lists[..i];
  }

  /** A history sorted newest first and cut with `slice(0, limit)`: what is kept, and that nothing newer is left out. */
  lemma NewestFirst(h: seq<SchemaSnapshot>, limit: int)
    ensures var r := Take(SortDesc(h, SnapshotTime), limit);
            && SortedDesc(r, SnapshotTime)
            && |r| == SliceEnd(|h|, limit) && (0 <= limit <= |h| ==> |r| == limit)
            && multiset(r) <= multiset(h) && (forall s :: s in r ==> s in h)
            && forall x, y :: x in r && y in multiset(h) - multiset(r) ==> y.timestamp <= x.timestamp
  {
    var t := SortDesc(h, SnapshotTime);
    var r := Take(t, limit);
    TakeSortDescGreatest(h, SnapshotTime, limit);
    PrefixSorted(t, SnapshotTime, SliceEnd(|h|, limit));
    forall s | s in r
      ensures s in h
    {
      assert s in multiset(r);
    }
    forall x, y | x in r && y in multiset(h) - multiset(r)
      ensures y.timestamp <= x.timestamp
    {
      assert SnapshotTime(y) <= SnapshotTime(x);
    }
  }

  class SchemaSnapshotService {
    var snapshots: JsMap<string, seq<SchemaSnapshot>>
    var lastSnapshot: map<int, SchemaSnapshot>

    ghost predicate Valid()
      reads this
    {
      snapshots.Valid()
    }

    constructor()
      ensures Valid()
      ensures snapshots == Empty() && lastSnapshot == map[]
    {
      snapshots := Empty();
      lastSnapshot := map[];
    }

    /** `this.snapshots.get(key) || []`. */
    function StoredHistory(databaseId: int): seq<SchemaSnapshot>
      reads this
    {
      History(snapshots, databaseId)
    }

    /**
     * captureSnapshot: builds the snapshot, appends it to the database's
     * history keeping the 50 most recent, and makes it the last snapshot.
     */
    method CaptureSnapshot(databaseId: int, schema: SchemaInfo, now: int, local: LocalTime)
      returns (snap: SchemaSnapshot)
      requires Valid()
      modifies this
      ensures Valid()
      ensures snap.id == IntToString(databaseId) + "-" + IntToString(now)
      ensures snap.databaseId == databaseId && snap.timestamp == now && snap.schema == schema
      ensures snap.version == GenerateVersion(local) && snap.checksum == Checksum(schema)
      ensures snap == Captured(databaseId, schema, now, local)
      ensures snapshots == old(snapshots).Set(HistoryKey(databaseId), AppendCapped(old(StoredHistory(databaseId)), snap))
      ensures |StoredHistory(databaseId)| <= MaxHistory
      ensures lastSnapshot == old(lastSnapshot)[databaseId := snap]
    {
      var checksum := CalculateChecksum(schema);
      snap := SchemaSnapshot(IntToString(databaseId) + "-" + IntToString(now), databaseId, now, schema,
                             GenerateVersion(local), checksum);
      var key := HistoryKey(databaseId);
      var history := StoredHistory(databaseId);
      snapshots := snapshots.Set(key, AppendCapped(history, snap));
      lastSnapshot := lastSnapshot[databaseId := snap];
    }

    /** calculateChecksum: hashes the replacer-filtered JSON text and prints the magnitude in hexadecimal. */
    method CalculateChecksum(schema: SchemaInfo) returns (checksum: string)
      ensures checksum == Checksum(schema)
    {
      var text := ChecksumText(schema);
      var hash := HashCodeUnits(text);
      checksum := NatToHex(if hash < 0 then -hash else hash);
    }

    /** The hashing loop of calculateChecksum, one step per character of the text (`charCodeAt` agrees for characters below U+10000). */
    method HashCodeUnits(text: string) returns (hash: int)
      ensures hash == HashOf(text)
    {
      hash := 0;
      var i := 0;
      while i < |text|
        invariant 0 <= i <= |text|
        invariant hash == HashOf(text[..i])
      {
        var c := text[i] as int;
        HashStep(hash, c);
        hash := Int32(Int32(hash * 32) - hash + c);
        assert text[..i + 1][..i] == text[..i];
        i := i + 1;
      }
      assert text[..|text|] == text;
    }

    /** compareTableColumns, with its three loops. */
    method CompareTableColumns(table: string, o: TableInfo, n: TableInfo, now: int)
      returns (changes: seq<SchemaChange>)
      ensures changes == ColumnChanges(table, o, n, now)
    {
      var oc := IndexBy(o.columns, ColumnName);
      var nc := IndexBy(n.columns, ColumnName);
      var added := AddedColumns(table, oc, nc, now);
      var removed := RemovedColumns(table, oc, nc, now);
      var modified := ModifiedColumns(table, oc, nc, now);
      changes := added + removed + modified;
    }

    method AddedColumns(table: string, oc: JsMap<string, ColumnInfo>, nc: JsMap<string, ColumnInfo>, now: int)
      returns (changes: seq<SchemaChange>)
      requires oc.Valid() && nc.Valid()
      ensures changes == Collect(nc.keys, ColumnAddedStep(table, oc.items, nc.items, now))
    {
      ghost var f := ColumnAddedStep(table, oc.items, nc.items, now);
      changes := [];
      var i := 0;
      while i < |nc.keys|
        invariant 0 <= i <= |nc.keys|
        invariant changes == Collect(nc.keys[..i], f)
      {
        var k := nc.keys[i];
        CollectSnoc(nc.keys, f, i);
        if k !in oc.items {
          changes := changes + [SchemaChange(ColumnAdded, table, Some(k), None, Some(nc.items[k]), now)];
        }
        i := i + 1;
      }
      assert nc.keys[..i] == nc.keys;
    }

    method RemovedColumns(table: string, oc: JsMap<string, ColumnInfo>, nc: JsMap<string, ColumnInfo>, now: int)
      returns (changes: seq<SchemaChange>)
      requires oc.Valid() && nc.Valid()
      ensures changes == Collect(oc.keys, ColumnRemovedStep(table, oc.items, nc.items, now))
    {
      ghost var f := ColumnRemovedStep(table, oc.items, nc.items, now);
      changes := [];
      var i := 0;
      while i < |oc.keys|
        invariant 0 <= i <= |oc.keys|
        invariant changes == Collect(oc.keys[..i], f)
      {
        var k := oc.keys[i];
        CollectSnoc(oc.keys, f, i);
        if k !in nc.items {
          changes := changes + [SchemaChange(ColumnRemoved, table, Some(k), Some(oc.items[k]), None, now)];
        }
        i := i + 1;
      }
      assert oc.keys[..i] == oc.keys;
    }

    method ModifiedColumns(table: string, oc: JsMap<string, ColumnInfo>, nc: JsMap<string, ColumnInfo>, now: int)
      returns (changes: seq<SchemaChange>)
      requires oc.Valid() && nc.Valid()
      ensures changes == Collect(nc.keys, ColumnModifiedStep(table, oc.items, nc.items, now))
    {
      ghost var f := ColumnModifiedStep(table, oc.items, nc.items, now);
      changes := [];
      var i := 0;
      while i < |nc.keys|
        invariant 0 <= i <= |nc.keys|
        invariant changes == Collect(nc.keys[..i], f)
      {
        var k := nc.keys[i];
        CollectSnoc(nc.keys, f, i);
        var step := [];
        if k in oc.items && HasColumnChanged(oc.items[k], nc.items[k]) {
          step := [SchemaChange(ColumnModified, table, Some(k), Some(oc.items[k]), Some(nc.items[k]), now)];
        }
        assert step == f(k);
        changes := changes + step;
        i := i + 1;
      }
      assert nc.keys[..i] == nc.keys;
    }

    /** The table-level loops shared by compareSchemas and generateSchemaDiff. */
    method CompareTables(o: SchemaInfo, n: SchemaInfo, now: int) returns (changes: seq<SchemaChange>)
      ensures changes == Diff(o, n, now)
    {
      var ot := IndexBy(o.tables, TableName);
      var nt := IndexBy(n.tables, TableName);
      var added := TableEvents(TableAdded, nt, ot, now);
      var removed := TableEvents(TableRemoved, ot, nt, now);
      var columnChanges := ChangedTables(ot, nt, now);
      changes := added + removed + columnChanges;
    }

    /** The tables of `these` missing from `others`, in the order of `these`. */
    method TableEvents(kind: ChangeKind, these: JsMap<string, TableInfo>, others: JsMap<string, TableInfo>, now: int)
      returns (changes: seq<SchemaChange>)
      requires these.Valid()
      ensures changes == Collect(these.keys, TableStep(kind, others.items, now))
    {
      ghost var f := TableStep(kind, others.items, now);
      changes := [];
      var i := 0;
      while i < |these.keys|
        invariant 0 <= i <= |these.keys|
        invariant changes == Collect(these.keys[..i], f)
      {
        var k := these.keys[i];
        CollectSnoc(these.keys, f, i);
        if k !in others.items {
          changes := changes + [TableEvent(kind, k, now)];
        }
        i := i + 1;
      }
      assert these.keys[..i] == these.keys;
    }

    method ChangedTables(ot: JsMap<string, TableInfo>, nt: JsMap<string, TableInfo>, now: int)
      returns (changes: seq<SchemaChange>)
      requires ot.Valid() && nt.Valid()
      ensures changes == Collect(nt.keys, TableColumnsStep(ot.items, nt.items, now))
    {
      ghost var f := TableColumnsStep(ot.items, nt.items, now);
      changes := [];
      var i := 0;
      while i < |nt.keys|
        invariant 0 <= i <= |nt.keys|
        invariant changes == Collect(nt.keys[..i], f)
      {
        var k := nt.keys[i];
        CollectSnoc(nt.keys, f, i);
        TableColumnsStepAt(ot.items, nt.items, now, k);
        var step: seq<SchemaChange> := [];
        if k in ot.items {
          step := CompareTableColumns(k, ot.items[k], nt.items[k], now);
        }
        assert step == f(k);
        changes := changes + step;
        i := i + 1;
      }
      assert nt.keys[..i] == nt.keys;
    }

    /** compareSchemas: the changes from the last snapshot of the database to `newSchema`; none before the first capture. */
    method CompareSchemas(databaseId: int, newSchema: SchemaInfo, now: int) returns (changes: seq<SchemaChange>)
      ensures databaseId !in lastSnapshot ==> changes == []
      ensures databaseId in lastSnapshot ==> changes == Diff(lastSnapshot[databaseId].schema, newSchema, now)
    {
      if databaseId !in lastSnapshot {
        return [];
      }
      changes := CompareTables(lastSnapshot[databaseId].schema, newSchema, now);
    }

    /**
     * What getSnapshotHistory returns, read without touching the store (as
     * sorting a copy would): the history, newest first, cut to `limit` with
     * `slice(0, limit)`.
     */
    function GetSnapshotHistory(databaseId: int, limit: int): (r: seq<SchemaSnapshot>)
      reads this
      ensures SortedDesc(r, SnapshotTime)
      ensures |r| <= |StoredHistory(databaseId)|
      ensures forall s :: s in r ==> s in StoredHistory(databaseId)
      ensures 0 <= limit <= |StoredHistory(databaseId)| ==> |r| == limit
      ensures |r| == SliceEnd(|StoredHistory(databaseId)|, limit)
      ensures multiset(r) <= multiset(StoredHistory(databaseId))
      ensures forall x, y :: x in r && y in multiset(StoredHistory(databaseId)) - multiset(r) ==> y.timestamp <= x.timestamp
    {
      var h := StoredHistory(databaseId);
      NewestFirst(h, limit);
      Take(SortDesc(h, SnapshotTime), limit)
    }

    /**
     * getSnapshotHistory as written: `Array.prototype.sort` sorts the
     * stored array itself, so the history stays newest first afterwards.
     */
    method GetSnapshotHistorySortingStored(databaseId: int, limit: int) returns (r: seq<SchemaSnapshot>)
      requires Valid()
      modifies this
      ensures Valid() && lastSnapshot == old(lastSnapshot)
      ensures r == old(GetSnapshotHistory(databaseId, limit))
      ensures snapshots == SortedIn(old(snapshots), databaseId)
    {
      var key := HistoryKey(databaseId);
      var sorted := SortDesc(StoredHistory(databaseId), SnapshotTime);
      if key in snapshots.items {
        snapshots := snapshots.Set(key, sorted);
      }
      r := Take(sorted, limit);
    }

    /**
     * getSchemaChanges as written: reads the 100 newest snapshots through
     * getSnapshotHistory (which leaves the stored history sorted) and walks
     * them pairwise, but compares each `newer` with the database's last
     * snapshot, never with `older`.
     */
    method GetSchemaChanges(databaseId: int, since: Option<int>, now: int) returns (changes: seq<SchemaChange>)
      requires Valid()
      modifies this
      ensures Valid() && lastSnapshot == old(lastSnapshot)
      ensures snapshots == SortedIn(old(snapshots), databaseId)
      ensures var h := old(GetSnapshotHistory(databaseId, 100));
              var base := if databaseId in lastSnapshot then Some(lastSnapshot[databaseId].schema) else None;
              changes == SortDesc(ChangesAgainst(h, StopIndex(h, since, 1), base, now), ChangeTime)
    {
      var h := GetSnapshotHistorySortingStored(databaseId, 100);
      changes := PairwiseChanges(databaseId, h, since, now);
      changes := SortDesc(changes, ChangeTime);
    }

    /** The loop of getSchemaChanges over the pairs of `h`, up to the first `newer` older than `since`. */
    method PairwiseChanges(databaseId: int, h: seq<SchemaSnapshot>, since: Option<int>, now: int) returns (changes: seq<SchemaChange>)
      ensures var base := if databaseId in lastSnapshot then Some(lastSnapshot[databaseId].schema) else None;
              changes == ChangesAgainst(h, StopIndex(h, since, 1), base, now)
    {
      ghost var base := if databaseId in lastSnapshot then Some(lastSnapshot[databaseId].schema) else None;
      changes := [];
      var i := 1;
      while i < |h|
        invariant 1 <= i && (i <= |h| || i == 1)
        invariant StopIndex(h, since, 1) == StopIndex(h, since, i)
        invariant changes == ChangesAgainst(h, i, base, now)
        decreases |h| - i
      {
        var newer := h[i - 1];
        if since.Some? && newer.timestamp < since.value {
          break;
        }
        var snapshotChanges := CompareSchemas(databaseId, newer.schema, now);
        assert ChangesAgainst(h, i + 1, base, now)
               == ChangesAgainst(h, i, base, now) + (if base.Some? then Diff(base.value, h[i - 1].schema, now) else []);
        changes := changes + snapshotChanges;
        i := i + 1;
      }
    }

    /** The inner loop of generateSchemaDiff: the last snapshots with the two ids, carried over one more list. */
    static method ScanIds(seen: seq<SchemaSnapshot>, list: seq<SchemaSnapshot>, id1: string, id2: string,
                          found1: Option<SchemaSnapshot>, found2: Option<SchemaSnapshot>)
      returns (snapshot1: Option<SchemaSnapshot>, snapshot2: Option<SchemaSnapshot>)
      requires found1 == LastWithId(seen, id1) && found2 == LastWithId(seen, id2)
      ensures snapshot1 == LastWithId(seen + list, id1) && snapshot2 == LastWithId(seen + list, id2)
    {
      snapshot1, snapshot2 := found1, found2;
      assert seen + list[..0] == seen;
      var j := 0;
      while j < |list|
        invariant 0 <= j <= |list|
        invariant snapshot1 == LastWithId(seen + list[..j], id1)
        invariant snapshot2 == LastWithId(seen + list[..j], id2)
      {
        var s := list[j];
        assert seen + list[..j + 1] == (seen + list[..j]) + [s];
        LastWithIdSnoc(seen + list[..j], s, id1);
        LastWithIdSnoc(seen + list[..j], s, id2);
        if s.id == id1 { snapshot1 := Some(s); }
        if s.id == id2 { snapshot2 := Some(s); }
        j := j + 1;
      }
      assert list[..j] == list;
    }

    /** generateSchemaDiff: the changes from snapshot `id1` to snapshot `id2`, found anywhere in the store. */
    method GenerateSchemaDiff(id1: string, id2: string, now: int) returns (r: Result<seq<SchemaChange>>)
      requires Valid()
      ensures var all := Flatten(snapshots.Values());
              r == if LastWithId(all, id1).None? || LastWithId(all, id2).None?
                   then Err("One or both snapshots not found")
                   else Ok(Diff(LastWithId(all, id1).value.schema, LastWithId(all, id2).value.schema, now))
    {
      var lists := snapshots.Values();
      var snapshot1: Option<SchemaSnapshot> := None;
      var snapshot2: Option<SchemaSnapshot> := None;
      var i := 0;
      while i < |lists|
        invariant 0 <= i <= |lists|
        invariant snapshot1 == LastWithId(Flatten(lists[..i]), id1)
        invariant snapshot2 == LastWithId(Flatten(lists[..i]), id2)
      {
        snapshot1, snapshot2 := ScanIds(Flatten(lists[..i]), lists[i], id1, id2, snapshot1, snapshot2);
        FlattenSnoc(lists, i);
        i := i + 1;
      }
      assert lists[..i] == lists;
      if snapshot1.None? || snapshot2.None? {
        return Err("One or both snapshots not found");
      }
      var changes := CompareTables(snapshot1.value.schema, snapshot2.value.schema, now);
      return Ok(changes);
    }

    /**
     * importSnapshot: a parsed snapshot with a non-empty id, a non-zero
     * database id and a schema is appended to its database's history, with
     * no cap and without becoming the last snapshot; anything else is
     * refused with `null`.
     */
    method ImportSnapshot(parsed: Option<ParsedSnapshot>) returns (r: Option<SchemaSnapshot>)
      requires Valid()
      modifies this
      ensures Valid() && lastSnapshot == old(lastSnapshot)
      ensures (parsed.None? || parsed.value.id == "" || parsed.value.databaseId == 0 || parsed.value.schema.None?)
              ==> r.None? && snapshots == old(snapshots)
      ensures r == Imported(parsed)
      ensures parsed.Some? && parsed.value.id != "" && parsed.value.databaseId != 0 && parsed.value.schema.Some? ==>
                r == Some(SchemaSnapshot(parsed.value.id, parsed.value.databaseId, parsed.value.timestamp, parsed.value.schema.value,
                                         parsed.value.version, parsed.value.checksum))
      ensures r.Some? ==> r.value.id != "" && r.value.databaseId != 0
      ensures r.Some? ==> snapshots == old(snapshots).Set(HistoryKey(r.value.databaseId),
                                                        old(StoredHistory(r.value.databaseId)) + [r.value])
    {
      if parsed.None? || parsed.value.id == "" || parsed.value.databaseId == 0 || parsed.value.schema.None? {
        return None;
      }
      var p := parsed.value;
      var snap := SchemaSnapshot(p.id, p.databaseId, p.timestamp, p.schema.value, p.version, p.checksum);
      var key := HistoryKey(p.databaseId);
      snapshots := snapshots.Set(key, StoredHistory(p.databaseId) + [snap]);
      return Some(snap);
    }

    /** The inner loop of getStats: folds one database's timestamps into the running oldest and newest. */
    static method ScanTimes(seen: seq<SchemaSnapshot>, list: seq<SchemaSnapshot>, oldest0: Option<int>, newest0: Option<int>)
      returns (oldest: Option<int>, newest: Option<int>)
      requires oldest0 == MinTime(seen) && newest0 == MaxTime(seen)
      ensures oldest == MinTime(seen + list) && newest == MaxTime(seen + list)
    {
      oldest, newest := oldest0, newest0;
      assert seen + list[..0] == seen;
      var j := 0;
      while j < |list|
        invariant 0 <= j <= |list|
        invariant oldest == MinTime(seen + list[..j])
        invariant newest == MaxTime(seen + list[..j])
      {
        var t := list[j].timestamp;
        assert seen + list[..j + 1] == (seen + list[..j]) + [list[j]];
        TimeSnoc(seen + list[..j], list[j]);
        if oldest.None? || t < oldest.value { oldest := Some(t); }
        if newest.None? || t > newest.value { newest := Some(t); }
        j := j + 1;
      }
      assert list[..j] == list;
    }

    /** getStats: snapshots in all, databases with a history, and the oldest and newest capture times. */
    method GetStats() returns (stats: SnapshotStats)
      requires Valid()
      ensures stats.totalSnapshots == |Flatten(snapshots.Values())|
      ensures stats.databaseCount == snapshots.Size()
      ensures stats.oldestSnapshot == MinTime(Flatten(snapshots.Values()))
      ensures stats.newestSnapshot == MaxTime(Flatten(snapshots.Values()))
    {
      var lists := snapshots.Values();
      var total := 0;
      var oldest: Option<int> := None;
      var newest: Option<int> := None;
      var i := 0;
      while i < |lists|
        invariant 0 <= i <= |lists|
        invariant total == |Flatten(lists[..i])|
        invariant oldest == MinTime(Flatten(lists[..i]))
        invariant newest == MaxTime(Flatten(lists[..i]))
      {
        var list := lists[i];
        total := total + |list|;
        oldest, newest := ScanTimes(Flatten(lists[..i]), list, oldest, newest);
        FlattenSnoc(lists, i);
        i := i + 1;
      }
      assert lists[..i] == lists;
      stats := SnapshotStats(total, snapshots.Size(), oldest, newest);
    }
  }

  // ----- the two discrepancies of the source -----

  /** Sorting a history captured in increasing time order puts its last snapshot first. */
  lemma SortIncreasingHistory(h: seq<SchemaSnapshot>)
    requires |h| >= 1
    requires forall i, j :: 0 <= i < j < |h| ==> h[i].timestamp < h[j].timestamp
    ensures SortDesc(h, SnapshotTime) == [h[|h| - 1]] + SortDesc(h[..|h| - 1], SnapshotTime)
  {
    var init := h[..|h| - 1];
    forall y | y in init
      ensures SnapshotTime(y) < SnapshotTime(h[|h| - 1])
    {
      var k :| 0 <= k < |init| && init[k] == y;
      assert h[k] == y;
    }
    SortGreatestLast(h, SnapshotTime);
  }

  /** A capture into a full history whose first snapshot is `x` drops `x`. */
  lemma CaptureDropsFirst(x: SchemaSnapshot, rest: seq<SchemaSnapshot>, s: SchemaSnapshot)
    requires |rest| == MaxHistory - 1
    ensures AppendCapped([x] + rest, s) == rest + [s]
  {
    assert ([x] + rest + [s])[1..] == rest + [s];
  }

  /**
   * After getSnapshotHistory has sorted a full history of 50 snapshots
   * newest first, the next capture's `splice` removes the NEWEST earlier
   * snapshot and keeps the oldest one.
   */
  lemma InPlaceSortThenCaptureDropsNewest(h: seq<SchemaSnapshot>, s: SchemaSnapshot)
    requires |h| == MaxHistory
    requires forall i, j :: 0 <= i < j < |h| ==> h[i].timestamp < h[j].timestamp
    requires s.timestamp > h[|h| - 1].timestamp
    ensures h[|h| - 1] !in AppendCapped(SortDesc(h, SnapshotTime), s)
    ensures h[0] in AppendCapped(SortDesc(h, SnapshotTime), s)
  {
    var last := h[|h| - 1];
    var init := h[..|h| - 1];
    var rest := SortDesc(init, SnapshotTime);
    SortIncreasingHistory(h);
    CaptureDropsFirst(last, rest, s);
    SortDescMembers(init, SnapshotTime);
    forall k | 0 <= k < |init|
      ensures init[k] != last
    {
      assert init[k].timestamp < last.timestamp;
    }
    assert h[0] == init[0];
  }

  /** With the history left in capture order, a capture over the cap drops exactly the oldest snapshot. */
  lemma CaptureKeepsNewest(h: seq<SchemaSnapshot>, s: SchemaSnapshot)
    requires |h| == MaxHistory
    ensures AppendCapped(h, s) == h[1..] + [s]
  {
  }

  /** As written, a history of two snapshots whose newer one is the last capture reports no change, whatever the older one holds. */
  lemma AsWrittenMissesChange(h: seq<SchemaSnapshot>, now: int)
    requires |h| == 2
    ensures ChangesAgainst(h, 2, Some(h[0].schema), now) == []
  {
    DiffSelf(h[0].schema, now);
  }

  /** Comparing each snapshot with the one before it reports exactly the change between the two. */
  lemma ConsecutiveReportsChange(h: seq<SchemaSnapshot>, now: int)
    requires |h| == 2
    ensures ConsecutiveChanges(h, 2, now) == Diff(h[1].schema, h[0].schema, now)
    ensures ConsecutiveChanges(h, 2, now) == [] <==> SameSchema(h[1].schema, h[0].schema)
  {
    var d := Diff(h[1].schema, h[0].schema, now);
    assert ConsecutiveChanges(h, 2, now) == ConsecutiveChanges(h, 1, now) + d;
    assert [] + d == d;
    DiffEmpty(h[1].schema, h[0].schema, now);
  }
}
