/**
 * QueryCache (server/services/QueryCache.ts): query results cached under a
 * key made of the database id, the normalised query text and the JSON text
 * of the parameters. Entries expire lazily by their time to live, a full
 * cache evicts its least recently accessed entry before an insert, and the
 * hit and miss counters always add up to the number of lookups. The clock
 * is the `now` parameter, in epoch milliseconds.
 */
module QueryCaching {
  import opened Wrappers
  import opened JsText
  import opened JsMaps
  import opened Sorting
  import opened Encoding
  import opened DatabaseTypes

  // ----- normalisation and keys -----

  /** `replace(/\s+/g, ' ')`: every run of white space becomes one space. */
  function CollapseSpaces(s: string): (r: string)
    ensures |r| <= |s|
    decreases |s|
  {
    if s == [] then []
    else if IsJsSpace(s[0]) then " " + CollapseSpaces(TrimStart(s[1..]))
    else [s[0]] + CollapseSpaces(s[1..])
  }

  /** After collapsing, every character is a plain space or a non-space character of the input. */
  lemma {:induction false} CollapseSpacesChars(s: string)
    ensures forall c :: c in CollapseSpaces(s) ==> c == ' ' || (!IsJsSpace(c) && c in s)
    decreases |s|
  {
    if s != [] {
      var t := if IsJsSpace(s[0]) then TrimStart(s[1..]) else s[1..];
      TrimStartMembers(s[1..]);
      CollapseSpacesChars(t);
      assert forall c :: c in t ==> c in s[1..];
      assert forall c :: c in s[1..] ==> c in s;
      assert CollapseSpaces(s) == (if IsJsSpace(s[0]) then " " else [s[0]]) + CollapseSpaces(t);
    }
  }

  /** The first line terminator at or after `from`, or the end of the text. */
  function LineEnd(s: string, from: nat): (e: nat)
    requires from <= |s|
    ensures from <= e <= |s|
    ensures e < |s| ==> IsLineTerminator(s[e])
    ensures forall k :: from <= k < e ==> !IsLineTerminator(s[k])
    decreases |s| - from
  {
    if from == |s| || IsLineTerminator(s[from]) then from else LineEnd(s, from + 1)
  }

  /** `replace(/--.*$/gm, '')`: each `--` and the rest of its line, up to the line terminator. */
  function StripLineComments(s: string): (r: string)
    ensures |r| <= |s|
    decreases |s|
  {
    match IndexOfFrom(s, "--", 0)
    case None => s
    case Some(i) => s[..i] + StripLineComments(s[LineEnd(s, i + 2)..])
  }

  /** Removing line comments only removes characters. */
  lemma {:induction false} StripLineCommentsChars(s: string)
    ensures forall c :: c in StripLineComments(s) ==> c in s
    decreases |s|
  {
    match IndexOfFrom(s, "--", 0)
    case None =>
    case Some(i) =>
      var e := LineEnd(s, i + 2);
      assert StripLineComments(s) == s[..i] + StripLineComments(s[e..]);
      StripLineCommentsChars(s[e..]);
      assert forall c :: c in s[e..] ==> c in s;
      assert forall c :: c in s[..i] ==> c in s;
  }

  /** Without line terminators (as after CollapseSpaces) a line comment runs to the end of the text. */
  lemma CommentRunsToEnd(s: string, i: nat)
    requires forall k :: 0 <= k < |s| ==> !IsLineTerminator(s[k])
    requires IndexOfFrom(s, "--", 0) == Some(i)
    ensures StripLineComments(s) == s[..i]
  {
    assert LineEnd(s, i + 2) == |s|;
    assert s[|s|..] == [];
  }

  /** `replace(/\/\*[\s\S]*?\*\//g, '')`: each `/*` with the nearest `*/` after it. */
  function StripBlockComments(s: string): (r: string)
    ensures |r| <= |s|
    decreases |s|
  {
    match IndexOfFrom(s, "/*", 0)
    case None => s
    case Some(i) =>
      match IndexOfFrom(s, "*/", i + 2)
      case None => s
      case Some(j) => s[..i] + StripBlockComments(s[j + 2..])
  }

  /** Removing block comments only removes characters. */
  lemma {:induction false} StripBlockCommentsChars(s: string)
    ensures forall c :: c in StripBlockComments(s) ==> c in s
    decreases |s|
  {
    match IndexOfFrom(s, "/*", 0)
    case None =>
    case Some(i) =>
      match IndexOfFrom(s, "*/", i + 2)
      case None =>
      case Some(j) =>
        assert StripBlockComments(s) == s[..i] + StripBlockComments(s[j + 2..]);
        StripBlockCommentsChars(s[j + 2..]);
        assert forall c :: c in s[j + 2..] ==> c in s;
        assert forall c :: c in s[..i] ==> c in s;
  }

  /** normalizeQuery: trim, collapse white space, lower-case, drop comments, trim. */
  function NormalizeQuery(query: string): (r: string)
    ensures r == [] || (!IsJsSpace(r[0]) && !IsJsSpace(r[|r| - 1]))
  {
    Trim(StripBlockComments(StripLineComments(ToLower(CollapseSpaces(Trim(query))))))
  }

  lemma TrimChars(s: string)
    ensures forall c :: c in Trim(s) ==> c in s
  {
    TrimStartMembers(s);
    TrimEndMembers(TrimStart(s));
  }

  /** A normalised query holds no upper-case letter: the lower-casing happens before anything is only removed. */
  lemma NormalizedIsLowerCase(query: string)
    ensures forall c :: c in NormalizeQuery(query) ==> !IsUpperAscii(c)
  {
    var lower := ToLower(CollapseSpaces(Trim(query)));
    assert forall c :: c in lower ==> !IsUpperAscii(c);
    StripLineCommentsChars(lower);
    StripBlockCommentsChars(StripLineComments(lower));
    TrimChars(StripBlockComments(StripLineComments(lower)));
  }

  /** generateCacheKey: `<databaseId>:` followed by the Base64 of the UTF-8 of the normalised query and the parameters' JSON. */
  function CacheKey(query: string, parameters: string, databaseId: int): string {
    IntToString(databaseId) + ([':'] + Base64(Utf8(NormalizeQuery(query) + parameters)))
  }

  /** A key starts with the decimal database id followed by `:`. */
  lemma CacheKeyShape(query: string, parameters: string, databaseId: int)
    ensures var key := CacheKey(query, parameters, databaseId);
            var prefix := IntToString(databaseId);
            |key| > |prefix| && key[|prefix|] == ':' && key[..|prefix|] == prefix
  {
    var prefix := IntToString(databaseId);
    var rest := [':'] + Base64(Utf8(NormalizeQuery(query) + parameters));
    assert (prefix + rest)[|prefix|] == rest[0];
    assert (prefix + rest)[..|prefix|] == prefix;
  }

  /** The position of the first `:` in `k`, or its length when there is none. */
  function ColonIndex(k: string): nat {
    if k == [] || k[0] == ':' then 0 else 1 + ColonIndex(k[1..])
  }

  /** A prefix free of `:` followed by `:` ends where the first `:` is. */
  lemma {:induction false} ColonAfter(k: string, p: string)
    requires |p| < |k| && k[..|p|] == p && k[|p|] == ':'
    requires forall i :: 0 <= i < |p| ==> p[i] != ':'
    ensures ColonIndex(k) == |p|
  {
    if p != [] {
      assert k[0] == p[0];
      assert k[1..][..|p| - 1] == p[1..];
      ColonAfter(k[1..], p[1..]);
    }
  }

  /** Two integers whose texts both end right before the first `:` of `k` are equal. */
  lemma SameDatabasePrefix(k: string, d1: int, d2: int)
    requires |k| > |IntToString(d1)| && k[|IntToString(d1)|] == ':' && k[..|IntToString(d1)|] == IntToString(d1)
    requires |k| > |IntToString(d2)| && k[|IntToString(d2)|] == ':' && k[..|IntToString(d2)|] == IntToString(d2)
    ensures d1 == d2
  {
    var s1, s2 := IntToString(d1), IntToString(d2);
    ColonAfter(k, s1);
    ColonAfter(k, s2);
    assert s1 == k[..|s1|] == s2;
    IntToStringInjective(d1, d2);
  }

  /** Keys of different databases never collide: the text before the first `:` is the database id. */
  lemma CacheKeyDatabase(q1: string, p1: string, d1: int, q2: string, p2: string, d2: int)
    requires CacheKey(q1, p1, d1) == CacheKey(q2, p2, d2)
    ensures d1 == d2
  {
    CacheKeyShape(q1, p1, d1);
    CacheKeyShape(q2, p2, d2);
    SameDatabasePrefix(CacheKey(q1, p1, d1), d1, d2);
  }

  // ----- entries -----

  datatype CacheEntry = CacheEntry(
    id: string,
    query: string,
    parameters: string,
    result: QueryResult,
    timestamp: int,
    databaseId: int,
    ttl: int,
    accessCount: nat,
    lastAccessed: int)

  function LastAccessed(e: CacheEntry): int { e.lastAccessed }

  /** An entry is stale once more than its time to live has passed since it was stored. */
  predicate Expired(e: CacheEntry, now: int) {
    now - e.timestamp > e.ttl
  }

  /** The entry `set` stores: never accessed yet, with `customTTL || defaultTTL` as its time to live. */
  function NewEntry(key: string, query: string, result: QueryResult, databaseId: int, parameters: string,
                    customTTL: Option<int>, defaultTTL: int, now: int): (e: CacheEntry)
    ensures e.accessCount == 0 && e.lastAccessed == e.timestamp == now
    ensures customTTL.Some? && customTTL.value != 0 ==> e.ttl == customTTL.value
    ensures customTTL.None? || customTTL.value == 0 ==> e.ttl == defaultTTL
    ensures e.id == key && e.result == result && e.databaseId == databaseId
  {
    var ttl := if customTTL.Some? && customTTL.value != 0 then customTTL.value else defaultTTL;
    CacheEntry(key, NormalizeQuery(query), parameters, result, now, databaseId, ttl, 0, now)
  }

  /** The key and entry the evictLRU loop settles on after visiting `keys`: the first strictly oldest. */
  function Lru(keys: seq<string>, items: map<string, CacheEntry>): Option<(string, CacheEntry)> {
    if keys == [] then None
    else
      var prev := Lru(keys[..|keys| - 1], items);
      var k := keys[|keys| - 1];
      if k !in items then prev
      else if prev.None? || items[k].lastAccessed < prev.value.1.lastAccessed then Some((k, items[k]))
      else prev
  }

  /** The chosen entry is present and no entry was accessed earlier. */
  lemma {:induction false} LruIsOldest(keys: seq<string>, items: map<string, CacheEntry>)
    requires forall k :: k in keys ==> k in items
    ensures Lru(keys, items).Some? <==> keys != []
    ensures Lru(keys, items).Some? ==>
              var (k, e) := Lru(keys, items).value;
              k in keys && k in items && items[k] == e
              && forall j :: 0 <= j < |keys| ==> e.lastAccessed <= items[keys[j]].lastAccessed
  {
    if keys != [] {
      var init := keys[..|keys| - 1];
      assert forall k :: k in init ==> k in keys;
      LruIsOldest(init, items);
    }
  }

  /** Ties go to the key visited first: every key before the chosen one was accessed strictly later. */
  lemma {:induction false} LruFirstOfTies(keys: seq<string>, items: map<string, CacheEntry>)
    requires forall k :: k in keys ==> k in items
    requires keys != []
    ensures exists i :: 0 <= i < |keys| && keys[i] == Lru(keys, items).value.0
                        && forall j :: 0 <= j < i ==> items[keys[j]].lastAccessed > Lru(keys, items).value.1.lastAccessed
  {
    var init := keys[..|keys| - 1];
    var k := keys[|keys| - 1];
    assert forall x :: x in init ==> x in keys;
    LruIsOldest(keys, items);
    if init == [] {
      assert keys[0] == Lru(keys, items).value.0;
    } else {
      LruFirstOfTies(init, items);
      LruIsOldest(init, items);
      var prev := Lru(init, items).value;
      if items[k].lastAccessed < prev.1.lastAccessed {
        assert keys[|keys| - 1] == Lru(keys, items).value.0;
        forall j | 0 <= j < |keys| - 1
          ensures items[keys[j]].lastAccessed > Lru(keys, items).value.1.lastAccessed
        {
          assert keys[j] == init[j];
        }
      } else {
        var i :| 0 <= i < |init| && init[i] == prev.0
                 && forall j :: 0 <= j < i ==> items[init[j]].lastAccessed > prev.1.lastAccessed;
        assert keys[i] == init[i];
        forall j | 0 <= j < i
          ensures items[keys[j]].lastAccessed > prev.1.lastAccessed
        {
          assert keys[j] == init[j];
        }
      }
    }
  }

  /** The map after evictLRU: without its oldest entry, unless no key (or only the empty key) was found. */
  function Evicted(m: JsMap<string, CacheEntry>): (r: JsMap<string, CacheEntry>)
    requires m.Valid()
    ensures r.Valid() && r.items.Keys <= m.items.Keys
    ensures forall k :: k in r.items ==> r.items[k] == m.items[k]
  {
    match Lru(m.keys, m.items)
    case None => m
    case Some((k, _)) => if k == "" then m else m.Delete(k)
  }

  /** Evicting from a non-empty map without empty keys removes exactly one entry. */
  lemma EvictedSize(m: JsMap<string, CacheEntry>)
    requires m.Valid() && m.Size() > 0
    requires "" !in m.items
    ensures Evicted(m).Size() == m.Size() - 1
    ensures Evicted(m).items.Keys <= m.items.Keys
  {
    LruIsOldest(m.keys, m.items);
  }

  /**
   * The map set leaves: the entry under its key, once the least recently
   * used entry has been evicted from a full map. Every other entry left is
   * one that was there, unchanged; below the limit nothing is evicted.
   */
  function Inserted(c: JsMap<string, CacheEntry>, maxCacheSize: int, key: string, e: CacheEntry): (r: JsMap<string, CacheEntry>)
    requires c.Valid()
    ensures r.Valid() && key in r.items && r.items[key] == e
  {
    (if c.Size() >= maxCacheSize then Evicted(c) else c).Set(key, e)
  }

  /** Every entry set leaves besides the new one was there before, unchanged. */
  lemma InsertedKeepsOthers(c: JsMap<string, CacheEntry>, maxCacheSize: int, key: string, e: CacheEntry)
    requires c.Valid()
    ensures var r := Inserted(c, maxCacheSize, key, e);
            forall k :: k in r.items && k != key ==> k in c.items && r.items[k] == c.items[k]
  {
  }

  /** Below the limit, set evicts nothing. */
  lemma InsertedWithRoom(c: JsMap<string, CacheEntry>, maxCacheSize: int, key: string, e: CacheEntry)
    requires c.Valid() && c.Size() < maxCacheSize
    ensures Inserted(c, maxCacheSize, key, e) == c.Set(key, e)
  {
  }

  function KeySet(ks: seq<string>): set<string> {
    set k | k in ks
  }

  lemma KeySetSnoc(ks: seq<string>, j: nat)
    requires j < |ks|
    ensures KeySet(ks[..j + 1]) == KeySet(ks[..j]) + {ks[j]}
  {
    assert ks[..j + 1] == ks[..j] + [ks[j]];
  }

  /** Deleting the keys of `ks` one after another, in order. */
  function DeleteEach(m: JsMap<string, CacheEntry>, ks: seq<string>): (r: JsMap<string, CacheEntry>)
    requires m.Valid()
    ensures r.Valid()
    decreases |ks|
  {
    if ks == [] then m else DeleteEach(m, ks[..|ks| - 1]).Delete(ks[|ks| - 1])
  }

  /** Deleting the keys one at a time is deleting them all at once: order and repetitions do not matter. */
  lemma {:induction false} DeleteEachAll(m: JsMap<string, CacheEntry>, ks: seq<string>)
    requires m.Valid()
    ensures DeleteEach(m, ks) == m.DeleteAll(KeySet(ks))
    decreases |ks|
  {
    if ks == [] {
      assert KeySet(ks) == {};
      FilterOutNothing(m.keys, {});
      assert m.items - {} == m.items;
    } else {
      var j := |ks| - 1;
      DeleteEachAll(m, ks[..j]);
      DeleteAllThenDelete(m, KeySet(ks[..j]), ks[j]);
      KeySetSnoc(ks, j);
      assert ks[..j + 1] == ks;
    }
  }

  /** The keys of `keys` whose entries satisfy `p`, in order. */
  function MatchingKeys(keys: seq<string>, items: map<string, CacheEntry>, p: CacheEntry -> bool): seq<string> {
    if keys == [] then []
    else
      var k := keys[|keys| - 1];
      MatchingKeys(keys[..|keys| - 1], items, p) + (if k in items && p(items[k]) then [k] else [])
  }

  lemma MatchingKeysSnoc(keys: seq<string>, items: map<string, CacheEntry>, p: CacheEntry -> bool, i: nat)
    requires i < |keys|
    ensures MatchingKeys(keys[..i + 1], items, p)
            == MatchingKeys(keys[..i], items, p) + (if keys[i] in items && p(items[keys[i]]) then [keys[i]] else [])
  {
    assert keys[..i + 1][..i] == keys[..i];
  }

  lemma {:induction false} MatchingKeysAre(keys: seq<string>, items: map<string, CacheEntry>, p: CacheEntry -> bool)
    requires Distinct(keys)
    ensures Distinct(MatchingKeys(keys, items, p))
    ensures forall k :: k in MatchingKeys(keys, items, p) <==> k in keys && k in items && p(items[k])
  {
    if keys != [] {
      var init := keys[..|keys| - 1];
      MatchingKeysAre(init, items, p);
      assert keys == init + [keys[|keys| - 1]];
    }
  }

  /** The matching keys of a whole map are those KeysWhere selects, each once. */
  lemma MatchingKeysOfMap(m: JsMap<string, CacheEntry>, p: CacheEntry -> bool)
    requires m.Valid()
    ensures KeySet(MatchingKeys(m.keys, m.items, p)) == KeysWhere(m, p)
    ensures |MatchingKeys(m.keys, m.items, p)| == |KeysWhere(m, p)|
  {
    MatchingKeysAre(m.keys, m.items, p);
    DistinctCard(MatchingKeys(m.keys, m.items, p));
  }

  /** What invalidate removes when it has a criterion: the database matches, or the query contains the pattern. */
  predicate ShouldInvalidate(e: CacheEntry, pattern: Option<string>, databaseId: Option<int>) {
    (databaseId.Some? && databaseId.value != 0 && e.databaseId == databaseId.value)
    || (pattern.Some? && pattern.value != "" && Contains(ToLower(e.query), ToLower(pattern.value)))
  }

  function InvalidateMatch(pattern: Option<string>, databaseId: Option<int>): CacheEntry -> bool {
    e => ShouldInvalidate(e, pattern, databaseId)
  }

  function ExpiredAt(now: int): CacheEntry -> bool {
    e => Expired(e, now)
  }

  /** `totalQueries || 1`: the hit rate in percent, 0 before any lookup. */
  function HitRate(hits: nat, totalQueries: nat): real {
    (hits as real / (if totalQueries == 0 then 1 else totalQueries) as real) * 100.0
  }

  lemma HitRateBounded(hits: nat, misses: nat)
    ensures 0.0 <= HitRate(hits, hits + misses) <= 100.0
  {
    if hits + misses > 0 {
      assert hits as real <= (hits + misses) as real;
      assert hits as real / (hits + misses) as real <= 1.0;
    }
  }

  /** The summed truthy execution times of the entries and how many there are. */
  function TimedTotals(es: seq<CacheEntry>): (real, nat) {
    if es == [] then (0.0, 0)
    else
      var (t, n) := TimedTotals(es[..|es| - 1]);
      var x := es[|es| - 1].result.executionTime;
      if x.Some? && x.value != 0.0 then (t + x.value, n + 1) else (t, n)
  }

  datatype CacheStats = CacheStats(
    totalEntries: nat,
    totalHits: nat,
    totalMisses: nat,
    hitRate: real,
    averageQueryTime: real)

  /** A query warmCache should make sure is cached. */
  datatype WarmQuery = WarmQuery(query: string, parameters: Option<string>, databaseId: int)

  function WarmKey(q: WarmQuery): string {
    CacheKey(q.query, q.parameters.GetOr("[]"), q.databaseId)
  }

  /** What warmCache stores for a query: an empty result taking 0 ms, under the default time to live. */
  function WarmEntry(q: WarmQuery, defaultTTL: int, now: int): CacheEntry {
    NewEntry(WarmKey(q), q.query, QueryResult([], 0, q.query, q.parameters, Some(0.0)), q.databaseId,
             q.parameters.GetOr("[]"), None, defaultTTL, now)
  }

  /** The key and the entry warmCache would set for each query, in order. */
  function WarmPlan(queries: seq<WarmQuery>, defaultTTL: int, now: int): (r: seq<(string, CacheEntry)>)
    ensures |r| == |queries|
    ensures forall i :: 0 <= i < |queries| ==> r[i] == (WarmKey(queries[i]), WarmEntry(queries[i], defaultTTL, now))
  {
    seq(|queries|, i requires 0 <= i < |queries| => (WarmKey(queries[i]), WarmEntry(queries[i], defaultTTL, now)))
  }

  /**
   * The cache and the count warmCache leaves after visiting the planned
   * keys in order: a key not stored by then is set with its entry (which
   * may evict) and counted; a key already stored is skipped.
   */
  function Warmed(c: JsMap<string, CacheEntry>, maxCacheSize: int, plan: seq<(string, CacheEntry)>)
    : (r: (JsMap<string, CacheEntry>, nat))
    requires c.Valid()
    ensures r.0.Valid() && r.1 <= |plan|
  {
    if plan == [] then (c, 0)
    else WarmStep(Warmed(c, maxCacheSize, plan[..|plan| - 1]), maxCacheSize, plan[|plan| - 1])
  }

  /** One planned key: set and counted when not stored yet, skipped otherwise. */
  function WarmStep(before: (JsMap<string, CacheEntry>, nat), maxCacheSize: int, step: (string, CacheEntry))
    : (r: (JsMap<string, CacheEntry>, nat))
    requires before.0.Valid()
    ensures r.0.Valid() && r.1 <= before.1 + 1
  {
    if step.0 in before.0.items then before
    else (Inserted(before.0, maxCacheSize, step.0, step.1), before.1 + 1)
  }

  /** Following one more step of a plan. */
  /** One visit of warmCache's loop takes the fold over a prefix of the plan to the fold over one more planned key. */
  lemma WarmLoopStep(c: JsMap<string, CacheEntry>, maxCacheSize: int, plan: seq<(string, CacheEntry)>, i: nat,
                     c1: JsMap<string, CacheEntry>, w1: nat, added: bool, c2: JsMap<string, CacheEntry>, w2: nat)
    requires c.Valid() && i < |plan|
    requires c1 == Warmed(c, maxCacheSize, plan[..i]).0 && w1 == Warmed(c, maxCacheSize, plan[..i]).1
    requires added <==> plan[i].0 !in c1.items
    requires c2 == if added then Inserted(c1, maxCacheSize, plan[i].0, plan[i].1) else c1
    requires w2 == if added then w1 + 1 else w1
    ensures c2 == Warmed(c, maxCacheSize, plan[..i + 1]).0 && w2 == Warmed(c, maxCacheSize, plan[..i + 1]).1
  {
    WarmedSnoc(c, maxCacheSize, plan, i);
  }

  lemma WarmedSnoc(c: JsMap<string, CacheEntry>, maxCacheSize: int, plan: seq<(string, CacheEntry)>, i: nat)
    requires c.Valid() && i < |plan|
    ensures Warmed(c, maxCacheSize, plan[..i + 1]) == WarmStep(Warmed(c, maxCacheSize, plan[..i]), maxCacheSize, plan[i])
  {
    var p := plan[..i + 1];
    assert p[..|p| - 1] == plan[..i];
  }

  /** The keys of a plan. */
  function PlanKeys(plan: seq<(string, CacheEntry)>): set<string> {
    if plan == [] then {} else PlanKeys(plan[..|plan| - 1]) + {plan[|plan| - 1].0}
  }

  lemma {:induction false} PlanKeysListed(plan: seq<(string, CacheEntry)>)
    ensures forall k :: k in PlanKeys(plan) <==> exists i :: 0 <= i < |plan| && plan[i].0 == k
  {
    if plan != [] {
      var front := plan[..|plan| - 1];
      PlanKeysListed(front);
      forall k
        ensures k in PlanKeys(plan) <==> exists i :: 0 <= i < |plan| && plan[i].0 == k
      {
        if k in PlanKeys(front) {
          var i :| 0 <= i < |front| && front[i].0 == k;
          assert plan[i].0 == k;
        }
        if exists i :: 0 <= i < |plan| && plan[i].0 == k {
          var i :| 0 <= i < |plan| && plan[i].0 == k;
          if i < |front| {
            assert front[i].0 == k;
          }
        }
      }
    }
  }

  /** Warming stores no key beyond the old ones and the planned ones. */
  lemma {:induction false} WarmedKeysWithin(c: JsMap<string, CacheEntry>, maxCacheSize: int, plan: seq<(string, CacheEntry)>)
    requires c.Valid()
    ensures Warmed(c, maxCacheSize, plan).0.items.Keys <= c.items.Keys + PlanKeys(plan)
  {
    if plan != [] {
      var front := plan[..|plan| - 1];
      WarmedKeysWithin(c, maxCacheSize, front);
      WarmedKeysStep(c, maxCacheSize, plan);
    }
  }

  lemma WarmedKeysStep(c: JsMap<string, CacheEntry>, maxCacheSize: int, plan: seq<(string, CacheEntry)>)
    requires c.Valid() && plan != []
    requires Warmed(c, maxCacheSize, plan[..|plan| - 1]).0.items.Keys <= c.items.Keys + PlanKeys(plan[..|plan| - 1])
    ensures Warmed(c, maxCacheSize, plan).0.items.Keys <= c.items.Keys + PlanKeys(plan)
  {
    var r1 := Warmed(c, maxCacheSize, plan[..|plan| - 1]);
    var step := plan[|plan| - 1];
    if step.0 !in r1.0.items {
      InsertedKeepsOthers(r1.0, maxCacheSize, step.0, step.1);
    }
  }

  /**
   * When no planned key is stored yet and no two are the same, every one
   * of them is counted, whatever the evictions.
   */
  lemma {:induction false} WarmedAllNew(c: JsMap<string, CacheEntry>, maxCacheSize: int, plan: seq<(string, CacheEntry)>)
    requires c.Valid()
    requires forall i :: 0 <= i < |plan| ==> plan[i].0 !in c.items
    requires forall i, j :: 0 <= i < j < |plan| ==> plan[i].0 != plan[j].0
    ensures Warmed(c, maxCacheSize, plan).1 == |plan|
  {
    if plan != [] {
      var front := plan[..|plan| - 1];
      assert forall i :: 0 <= i < |front| ==> front[i] == plan[i];
      WarmedAllNew(c, maxCacheSize, front);
      WarmedKeysWithin(c, maxCacheSize, front);
      PlanKeysListed(front);
      var k := plan[|plan| - 1].0;
      assert k !in PlanKeys(front);
      assert k !in Warmed(c, maxCacheSize, front).0.items;
    }
  }

  /** warmCache's count when its queries are all new and all different. */
  lemma WarmPlanAllNew(c: JsMap<string, CacheEntry>, maxCacheSize: int, queries: seq<WarmQuery>, defaultTTL: int, now: int)
    requires c.Valid()
    requires forall i :: 0 <= i < |queries| ==> WarmKey(queries[i]) !in c.items
    requires forall i, j :: 0 <= i < j < |queries| ==> WarmKey(queries[i]) != WarmKey(queries[j])
    ensures Warmed(c, maxCacheSize, WarmPlan(queries, defaultTTL, now)).1 == |queries|
  {
    var plan := WarmPlan(queries, defaultTTL, now);
    assert forall i :: 0 <= i < |plan| ==> plan[i].0 == WarmKey(queries[i]);
    WarmedAllNew(c, maxCacheSize, plan);
  }

  /**
   * With room for every planned key, warming loses nothing: the keys
   * stored afterwards are the old ones and the planned ones, and each
   * entry stored before keeps its value.
   */
  lemma {:induction false} WarmedWithRoom(c: JsMap<string, CacheEntry>, maxCacheSize: int, plan: seq<(string, CacheEntry)>)
    requires c.Valid() && c.Size() + |plan| <= maxCacheSize
    ensures var r := Warmed(c, maxCacheSize, plan);
            && r.0.items.Keys == c.items.Keys + PlanKeys(plan)
            && (forall k :: k in c.items ==> r.0.items[k] == c.items[k])
            && r.0.Size() <= c.Size() + |plan|
  {
    if plan == [] {
      assert c.items.Keys + PlanKeys(plan) == c.items.Keys;
    } else {
      WarmedWithRoom(c, maxCacheSize, plan[..|plan| - 1]);
      WarmedRoomStep(c, maxCacheSize, plan);
    }
  }

  /** With room, one step sets its key when it is not stored and changes no stored entry. */
  lemma WarmStepRoom(before: (JsMap<string, CacheEntry>, nat), maxCacheSize: int, step: (string, CacheEntry))
    requires before.0.Valid() && before.0.Size() < maxCacheSize
    ensures var a := WarmStep(before, maxCacheSize, step).0;
            && a.items.Keys == before.0.items.Keys + {step.0}
            && (forall j :: j in before.0.items ==> a.items[j] == before.0.items[j])
            && a.Size() <= before.0.Size() + 1
  {
    if step.0 !in before.0.items {
      InsertedWithRoom(before.0, maxCacheSize, step.0, step.1);
    }
  }

  /** One more planned key, with room for it, is simply set when it is not stored yet. */
  lemma WarmedRoomStep(c: JsMap<string, CacheEntry>, maxCacheSize: int, plan: seq<(string, CacheEntry)>)
    requires c.Valid() && plan != [] && c.Size() + |plan| <= maxCacheSize
    requires var r := Warmed(c, maxCacheSize, plan[..|plan| - 1]);
             && r.0.items.Keys == c.items.Keys + PlanKeys(plan[..|plan| - 1])
             && (forall k :: k in c.items ==> r.0.items[k] == c.items[k])
             && r.0.Size() <= c.Size() + |plan| - 1
    ensures var r := Warmed(c, maxCacheSize, plan);
            && r.0.items.Keys == c.items.Keys + PlanKeys(plan)
            && (forall k :: k in c.items ==> r.0.items[k] == c.items[k])
            && r.0.Size() <= c.Size() + |plan|
  {
    var n := |plan| - 1;
    var r1 := Warmed(c, maxCacheSize, plan[..n]);
    WarmedSnoc(c, maxCacheSize, plan, n);
    assert plan[..n + 1] == plan;
    WarmStepRoom(r1, maxCacheSize, plan[n]);
    assert PlanKeys(plan) == PlanKeys(plan[..n]) + {plan[n].0};
    UnionSnoc(r1.0.items.Keys, c.items.Keys, PlanKeys(plan[..n]), plan[n].0, Warmed(c, maxCacheSize, plan).0.items.Keys);
  }

  lemma UnionSnoc(before: set<string>, stored: set<string>, planned: set<string>, k: string, after: set<string>)
    requires before == stored + planned && after == before + {k}
    ensures after == stored + (planned + {k})
  {
  }

  lemma NewKeysSame(p: set<string>, stored: set<string>, k: string)
    requires k in stored + p
    ensures (p + {k}) - stored == p - stored
  {
  }

  lemma NewKeysPlus(p: set<string>, stored: set<string>, k: string)
    requires k !in stored + p
    ensures |(p + {k}) - stored| == |p - stored| + 1
  {
    assert (p + {k}) - stored == (p - stored) + {k};
  }

  /** With room for every planned key, the count is the number of distinct planned keys that were not stored. */
  lemma {:induction false} WarmedCount(c: JsMap<string, CacheEntry>, maxCacheSize: int, plan: seq<(string, CacheEntry)>)
    requires c.Valid() && c.Size() + |plan| <= maxCacheSize
    ensures Warmed(c, maxCacheSize, plan).1 == |PlanKeys(plan) - c.items.Keys|
  {
    if plan == [] {
      assert PlanKeys(plan) - c.items.Keys == {};
    } else {
      WarmedCount(c, maxCacheSize, plan[..|plan| - 1]);
      WarmedWithRoom(c, maxCacheSize, plan[..|plan| - 1]);
      WarmedCountStep(c, maxCacheSize, plan);
    }
  }

  lemma WarmedCountStep(c: JsMap<string, CacheEntry>, maxCacheSize: int, plan: seq<(string, CacheEntry)>)
    requires c.Valid() && plan != []
    requires var r := Warmed(c, maxCacheSize, plan[..|plan| - 1]);
             && r.0.items.Keys == c.items.Keys + PlanKeys(plan[..|plan| - 1])
             && r.1 == |PlanKeys(plan[..|plan| - 1]) - c.items.Keys|
    ensures Warmed(c, maxCacheSize, plan).1 == |PlanKeys(plan) - c.items.Keys|
  {
    var front := plan[..|plan| - 1];
    var k := plan[|plan| - 1].0;
    var before := Warmed(c, maxCacheSize, front);
    assert PlanKeys(plan) == PlanKeys(front) + {k};
    assert Warmed(c, maxCacheSize, plan) == WarmStep(before, maxCacheSize, plan[|plan| - 1]);
    if k in before.0.items {
      NewKeysSame(PlanKeys(front), c.items.Keys, k);
    } else {
      NewKeysPlus(PlanKeys(front), c.items.Keys, k);
    }
  }
  /**
   * What get does to the cache and counters (before: `c0`, `hits0`,
   * `misses0`; after: `c1`, `hits1`, `misses1`) for `key`: no entry is a
   * miss that changes nothing else; an expired entry is a miss that
   * deletes it; otherwise a hit returning the stored result, with the
   * entry's access count and last access updated in place.
   */
  ghost predicate GetOutcome(c0: JsMap<string, CacheEntry>, hits0: nat, misses0: nat, key: string, now: int,
                             r: Option<QueryResult>, c1: JsMap<string, CacheEntry>, hits1: nat, misses1: nat)
    requires c0.Valid()
  {
    if key !in c0.items then
      r.None? && c1 == c0 && misses1 == misses0 + 1 && hits1 == hits0
    else if Expired(c0.items[key], now) then
      r.None? && c1 == c0.Delete(key) && misses1 == misses0 + 1 && hits1 == hits0
    else
      var e := c0.items[key];
      r == Some(e.result) && hits1 == hits0 + 1 && misses1 == misses0
      && c1 == c0.Set(key, e.(accessCount := e.accessCount + 1, lastAccessed := now))
  }

  class QueryCache {
    var cache: JsMap<string, CacheEntry>
    var hits: nat
    var misses: nat
    var totalQueries: nat
    var defaultTTL: int
    var maxCacheSize: int

    /** How many entries the cache can hold: a limit below 1 still lets one entry in. */
    function Capacity(): nat
      reads this
    {
      if maxCacheSize < 1 then 1 else maxCacheSize
    }

    ghost predicate Valid()
      reads this
    {
      cache.Valid()
      && hits + misses == totalQueries
      && cache.Size() <= Capacity()
      && "" !in cache.items
    }

    /** A limit or time to live given as 0 (or not given) keeps the default of 1000 entries or five minutes. */
    constructor(maxSize: Option<int>, ttl: Option<int>)
      ensures Valid()
      ensures cache.Size() == 0 && hits == 0 && misses == 0 && totalQueries == 0
      ensures maxCacheSize == if maxSize.Some? && maxSize.value != 0 then maxSize.value else 1000
      ensures defaultTTL == if ttl.Some? && ttl.value != 0 then ttl.value else 300000
    {
      cache := Empty();
      hits, misses, totalQueries := 0, 0, 0;
      maxCacheSize := if maxSize.Some? && maxSize.value != 0 then maxSize.value else 1000;
      defaultTTL := if ttl.Some? && ttl.value != 0 then ttl.value else 300000;
    }

    /**
     * get: a missing or expired entry is a miss (the expired one is
     * deleted); otherwise a hit, which counts the access and stamps it.
     */
    method Get(query: string, parameters: string, databaseId: int, now: int) returns (r: Option<QueryResult>)
      requires Valid()
      modifies this
      ensures Valid()
      ensures totalQueries == old(totalQueries) + 1
      ensures defaultTTL == old(defaultTTL) && maxCacheSize == old(maxCacheSize)
      ensures GetOutcome(old(cache), old(hits), old(misses), CacheKey(query, parameters, databaseId), now, r, cache, hits, misses)
    {
      var key := CacheKey(query, parameters, databaseId);
      r := Lookup(key, now);
    }

    /** The body of get once the key is known. */
    method Lookup(key: string, now: int) returns (r: Option<QueryResult>)
      requires Valid()
      modifies this
      ensures Valid()
      ensures totalQueries == old(totalQueries) + 1
      ensures defaultTTL == old(defaultTTL) && maxCacheSize == old(maxCacheSize)
      ensures GetOutcome(old(cache), old(hits), old(misses), key, now, r, cache, hits, misses)
    {
      var entry := cache.Get(key);
      if entry.None? {
        misses := misses + 1;
        totalQueries := totalQueries + 1;
        return None;
      }
      var e := entry.value;
      if now - e.timestamp > e.ttl {
        Remove(key);
        misses := misses + 1;
        totalQueries := totalQueries + 1;
        return None;
      }
      Store(key, e.(accessCount := e.accessCount + 1, lastAccessed := now));
      hits := hits + 1;
      totalQueries := totalQueries + 1;
      return Some(e.result);
    }

    /** set: stores a fresh entry, first evicting the oldest one when the cache is full. */
    method Set(query: string, result: QueryResult, databaseId: int, parameters: string, customTTL: Option<int>, now: int)
      requires Valid()
      modifies this
      ensures Valid()
      ensures hits == old(hits) && misses == old(misses) && totalQueries == old(totalQueries)
      ensures defaultTTL == old(defaultTTL) && maxCacheSize == old(maxCacheSize)
      ensures var key := CacheKey(query, parameters, databaseId);
              var e := NewEntry(key, query, result, databaseId, parameters, customTTL, defaultTTL, now);
              cache == Inserted(old(cache), maxCacheSize, key, e)
      ensures cache.items.Keys <= old(cache.items.Keys) + {CacheKey(query, parameters, databaseId)}
    {
      var key := CacheKey(query, parameters, databaseId);
      var entry := NewEntry(key, query, result, databaseId, parameters, customTTL, defaultTTL, now);
      CacheKeyShape(query, parameters, databaseId);
      ghost var base := if cache.Size() >= maxCacheSize then Evicted(cache) else cache;
      ghost var target := Inserted(cache, maxCacheSize, key, entry);
      assert target == base.Set(key, entry);
      if cache.Size() >= maxCacheSize {
        EvictLRU();
      }
      assert cache == base && cache.Valid();
      Store(key, entry);
    }

    /** The final `this.cache.set(key, entry)` of set, once room has been made. */
    method Store(key: string, entry: CacheEntry)
      requires Valid() && key != ""
      requires cache.Size() < Capacity() || key in cache.items
      modifies this
      ensures Valid()
      ensures hits == old(hits) && misses == old(misses) && totalQueries == old(totalQueries)
      ensures defaultTTL == old(defaultTTL) && maxCacheSize == old(maxCacheSize)
      ensures cache == old(cache).Set(key, entry)
    {
      cache := cache.Set(key, entry);
    }

    /** evictLRU: deletes the first entry with the smallest last-access time. */
    method EvictLRU()
      requires Valid()
      modifies this
      ensures Valid()
      ensures cache == Evicted(old(cache))
      ensures cache.Size() == if old(cache.Size()) > 0 then old(cache.Size()) - 1 else 0
      ensures hits == old(hits) && misses == old(misses) && totalQueries == old(totalQueries)
      ensures defaultTTL == old(defaultTTL) && maxCacheSize == old(maxCacheSize)
    {
      var oldestEntry: Option<CacheEntry> := None;
      var oldestKey := "";
      var i := 0;
      while i < |cache.keys|
        invariant 0 <= i <= |cache.keys|
        invariant oldestEntry.None? ==> oldestKey == "" && Lru(cache.keys[..i], cache.items).None?
        invariant oldestEntry.Some? ==> Lru(cache.keys[..i], cache.items) == Some((oldestKey, oldestEntry.value))
      {
        var key := cache.keys[i];
        assert cache.keys[..i + 1][..i] == cache.keys[..i];
        var entry := cache.items[key];
        if oldestEntry.None? || entry.lastAccessed < oldestEntry.value.lastAccessed {
          oldestEntry := Some(entry);
          oldestKey := key;
        }
        i := i + 1;
      }
      assert cache.keys[..i] == cache.keys;
      if cache.Size() > 0 {
        EvictedSize(cache);
      }
      if oldestKey != "" {
        Remove(oldestKey);
      }
    }

    /**
     * invalidate: with neither a pattern nor a database id everything goes
     * and the old size is returned; otherwise exactly the entries of that
     * database or whose query contains the pattern (ignoring case) go, and
     * their number is returned.
     */
    method Invalidate(pattern: Option<string>, databaseId: Option<int>) returns (removed: nat)
      requires Valid()
      modifies this
      ensures Valid()
      ensures hits == old(hits) && misses == old(misses) && totalQueries == old(totalQueries)
      ensures defaultTTL == old(defaultTTL) && maxCacheSize == old(maxCacheSize)
      ensures (pattern.None? || pattern.value == "") && (databaseId.None? || databaseId.value == 0) ==>
                removed == old(cache.Size()) && cache == Empty()
      ensures !((pattern.None? || pattern.value == "") && (databaseId.None? || databaseId.value == 0)) ==>
                var gone := KeysWhere(old(cache), InvalidateMatch(pattern, databaseId));
                cache == old(cache).DeleteAll(gone) && removed == |gone|
    {
      if (pattern.None? || pattern.value == "") && (databaseId.None? || databaseId.value == 0) {
        removed := cache.Size();
        cache := Empty();
        return;
      }
      ghost var p := InvalidateMatch(pattern, databaseId);
      var keysToDelete := KeysToInvalidate(pattern, databaseId);
      MatchingKeysOfMap(cache, p);
      RemoveWhere(cache, p);
      DeleteEachAll(cache, keysToDelete);
      removed := DeleteKeys(keysToDelete);
    }

    /** The loop of invalidate: the keys, in insertion order, of the entries matching the database id or containing the pattern. */
    method KeysToInvalidate(pattern: Option<string>, databaseId: Option<int>) returns (keysToDelete: seq<string>)
      requires Valid()
      ensures keysToDelete == MatchingKeys(cache.keys, cache.items, InvalidateMatch(pattern, databaseId))
    {
      ghost var p := InvalidateMatch(pattern, databaseId);
      keysToDelete := [];
      var i := 0;
      while i < |cache.keys|
        invariant 0 <= i <= |cache.keys|
        invariant keysToDelete == MatchingKeys(cache.keys[..i], cache.items, p)
      {
        var key := cache.keys[i];
        MatchingKeysSnoc(cache.keys, cache.items, p, i);
        var entry := cache.items[key];
        var shouldDelete := false;
        if databaseId.Some? && databaseId.value != 0 && entry.databaseId == databaseId.value {
          shouldDelete := true;
        }
        if pattern.Some? && pattern.value != "" && Contains(ToLower(entry.query), ToLower(pattern.value)) {
          shouldDelete := true;
        }
        if shouldDelete {
          keysToDelete := keysToDelete + [key];
        }
        i := i + 1;
      }
      assert cache.keys[..i] == cache.keys;
    }

    /** The deletion loop of invalidate and cleanup: deletes each key and counts it. */
    method DeleteKeys(keysToDelete: seq<string>) returns (count: nat)
      requires Valid()
      modifies this
      ensures Valid()
      ensures cache == DeleteEach(old(cache), keysToDelete)
      ensures count == |keysToDelete|
      ensures hits == old(hits) && misses == old(misses) && totalQueries == old(totalQueries)
      ensures defaultTTL == old(defaultTTL) && maxCacheSize == old(maxCacheSize)
    {
      ghost var start := cache;
      count := 0;
      var j := 0;
      while j < |keysToDelete|
        invariant 0 <= j <= |keysToDelete| && count == j
        invariant cache == DeleteEach(start, keysToDelete[..j])
        invariant Valid()
        invariant hits == old(hits) && misses == old(misses) && totalQueries == old(totalQueries)
        invariant defaultTTL == old(defaultTTL) && maxCacheSize == old(maxCacheSize)
      {
        assert keysToDelete[..j + 1][..j] == keysToDelete[..j];
        Remove(keysToDelete[j]);
        count := count + 1;
        j := j + 1;
      }
      assert keysToDelete[..j] == keysToDelete;
    }

    /** `this.cache.delete(key)`. */
    method Remove(key: string)
      requires Valid()
      modifies this
      ensures Valid()
      ensures cache == old(cache).Delete(key)
      ensures hits == old(hits) && misses == old(misses) && totalQueries == old(totalQueries)
      ensures defaultTTL == old(defaultTTL) && maxCacheSize == old(maxCacheSize)
    {
      cache := cache.Delete(key);
    }

    /** cleanup: deletes exactly the expired entries and keeps every other one. */
    method Cleanup(now: int)
      requires Valid()
      modifies this
      ensures Valid()
      ensures cache == old(cache).DeleteAll(KeysWhere(old(cache), ExpiredAt(now)))
      ensures hits == old(hits) && misses == old(misses) && totalQueries == old(totalQueries)
      ensures defaultTTL == old(defaultTTL) && maxCacheSize == old(maxCacheSize)
    {
      ghost var p := ExpiredAt(now);
      var keysToDelete: seq<string> := [];
      var i := 0;
      while i < |cache.keys|
        invariant 0 <= i <= |cache.keys|
        invariant keysToDelete == MatchingKeys(cache.keys[..i], cache.items, p)
      {
        var key := cache.keys[i];
        assert cache.keys[..i + 1][..i] == cache.keys[..i];
        var entry := cache.items[key];
        if now - entry.timestamp > entry.ttl {
          keysToDelete := keysToDelete + [key];
        }
        i := i + 1;
      }
      assert cache.keys[..i] == cache.keys;
      MatchingKeysOfMap(cache, p);
      DeleteEachAll(cache, keysToDelete);
      var _ := DeleteKeys(keysToDelete);
    }

    /** The loop of getStats over the entries: the sum and number of truthy execution times. */
    static method SumTimes(values: seq<CacheEntry>) returns (totalTime: real, timeCount: nat)
      ensures (totalTime, timeCount) == TimedTotals(values)
    {
      totalTime, timeCount := 0.0, 0;
      var i := 0;
      while i < |values|
        invariant 0 <= i <= |values|
        invariant (totalTime, timeCount) == TimedTotals(values[..i])
      {
        assert values[..i + 1][..i] == values[..i];
        var x := values[i].result.executionTime;
        if x.Some? && x.value != 0.0 {
          totalTime := totalTime + x.value;
          timeCount := timeCount + 1;
        }
        i := i + 1;
      }
      assert values[..i] == values;
    }

    /** getStats: entries, hits, misses, hit rate in percent and the mean of the truthy execution times. */
    method GetStats() returns (stats: CacheStats)
      requires Valid()
      ensures stats.totalEntries == cache.Size() && stats.totalHits == hits && stats.totalMisses == misses
      ensures stats.hitRate == HitRate(hits, totalQueries)
      ensures 0.0 <= stats.hitRate <= 100.0
      ensures var (t, n) := TimedTotals(cache.Values());
              stats.averageQueryTime == if n > 0 then t / n as real else 0.0
    {
      var totalTime, timeCount := SumTimes(cache.Values());
      HitRateBounded(hits, misses);
      var average := if timeCount > 0 then totalTime / timeCount as real else 0.0;
      stats := CacheStats(cache.Size(), hits, misses, HitRate(hits, totalQueries), average);
    }

    /** One step of warmCache: the query's empty result is set unless its key is already cached. */
    method WarmOne(q: WarmQuery, now: int) returns (added: bool)
      requires Valid()
      modifies this
      ensures Valid()
      ensures hits == old(hits) && misses == old(misses) && totalQueries == old(totalQueries)
      ensures defaultTTL == old(defaultTTL) && maxCacheSize == old(maxCacheSize)
      ensures added <==> WarmKey(q) !in old(cache.items)
      ensures cache == if added then Inserted(old(cache), maxCacheSize, WarmKey(q), WarmEntry(q, defaultTTL, now))
                       else old(cache)
    {
      var params := q.parameters.GetOr("[]");
      var key := CacheKey(q.query, params, q.databaseId);
      added := key !in cache.items;
      if added {
        var mockResult := QueryResult([], 0, q.query, q.parameters, Some(0.0));
        Set(q.query, mockResult, q.databaseId, params, None, now);
      }
    }

    /** One visit of warmCache's loop: the query at `i` is warmed and counted when its key was not cached. */
    method WarmNext(queries: seq<WarmQuery>, i: nat, now: int, count: nat, ghost c0: JsMap<string, CacheEntry>,
                    ghost plan: seq<(string, CacheEntry)>)
      returns (counted: nat)
      requires Valid() && c0.Valid() && i < |queries|
      requires plan == WarmPlan(queries, defaultTTL, now)
      requires cache == Warmed(c0, maxCacheSize, plan[..i]).0 && count == Warmed(c0, maxCacheSize, plan[..i]).1
      modifies this
      ensures Valid()
      ensures hits == old(hits) && misses == old(misses) && totalQueries == old(totalQueries)
      ensures defaultTTL == old(defaultTTL) && maxCacheSize == old(maxCacheSize)
      ensures cache == Warmed(c0, maxCacheSize, plan[..i + 1]).0 && counted == Warmed(c0, maxCacheSize, plan[..i + 1]).1
    {
      ghost var c1 := cache;
      assert plan[i] == (WarmKey(queries[i]), WarmEntry(queries[i], defaultTTL, now));
      var added := WarmOne(queries[i], now);
      counted := if added then count + 1 else count;
      WarmLoopStep(c0, maxCacheSize, plan, i, c1, count, added, cache, counted);
    }

    /** warmCache: stores an empty result for each query whose key is not cached yet, and counts them. */
    method WarmCache(queries: seq<WarmQuery>, now: int) returns (warmed: nat)
      requires Valid()
      modifies this
      ensures Valid()
      ensures warmed <= |queries|
      ensures hits == old(hits) && misses == old(misses) && totalQueries == old(totalQueries)
      ensures maxCacheSize == old(maxCacheSize) && defaultTTL == old(defaultTTL)
      ensures cache == Warmed(old(cache), old(maxCacheSize), WarmPlan(queries, old(defaultTTL), now)).0
      ensures warmed == Warmed(old(cache), old(maxCacheSize), WarmPlan(queries, old(defaultTTL), now)).1
    {
      ghost var c0, m, t := cache, maxCacheSize, defaultTTL;
      ghost var plan := WarmPlan(queries, t, now);
      warmed := 0;
      var i := 0;
      while i < |queries|
        invariant 0 <= i <= |queries|
        invariant Valid()
        invariant hits == old(hits) && misses == old(misses) && totalQueries == old(totalQueries)
        invariant maxCacheSize == m && defaultTTL == t
        invariant cache == Warmed(c0, m, plan[..i]).0
        invariant warmed == Warmed(c0, m, plan[..i]).1
      {
        warmed := WarmNext(queries, i, now, warmed, c0, plan);
        i := i + 1;
      }
      assert plan[..i] == plan;
    }

    /** The entries getCacheEntries sorts: all of them, or those of the database when a non-zero id is given. */
    function Candidates(databaseId: Option<int>): (r: seq<CacheEntry>)
      reads this
      requires Valid()
      ensures forall e :: e in r <==> e in cache.items.Values && (databaseId.Some? && databaseId.value != 0 ==> e.databaseId == databaseId.value)
      ensures |r| <= cache.Size()
      ensures databaseId.None? || databaseId.value == 0 ==> |r| == cache.Size()
    {
      var entries := cache.Values();
      ValuesListed(cache);
      if databaseId.Some? && databaseId.value != 0 then FilterEntries(entries, databaseId.value) else entries
    }

    /** getCacheEntries: the entries (of one database, when one is given), most recently accessed first, cut to `limit`. */
    function GetCacheEntries(databaseId: Option<int>, limit: int): (r: seq<CacheEntry>)
      reads this
      requires Valid()
      ensures SortedDesc(r, LastAccessed)
      ensures forall e :: e in r ==> e in cache.items.Values
      ensures databaseId.Some? && databaseId.value != 0 ==> forall e :: e in r ==> e.databaseId == databaseId.value
      ensures |r| == SliceEnd(|Candidates(databaseId)|, limit)
      ensures multiset(r) <= multiset(Candidates(databaseId))
      ensures forall x, y :: x in r && y in multiset(Candidates(databaseId)) - multiset(r) ==> y.lastAccessed <= x.lastAccessed
    {
      var filtered := Candidates(databaseId);
      SortDescMembers(filtered, LastAccessed);
      TakeSortDescGreatest(filtered, LastAccessed, limit);
      Take(SortDesc(filtered, LastAccessed), limit)
    }

    /** destroy: empties the cache; the counters stay. */
    method Destroy()
      requires Valid()
      modifies this
      ensures Valid()
      ensures cache == Empty()
      ensures hits == old(hits) && misses == old(misses) && totalQueries == old(totalQueries)
      ensures maxCacheSize == old(maxCacheSize) && defaultTTL == old(defaultTTL)
    {
      cache := Empty();
    }
  }

  /** `entries.filter(entry => entry.databaseId === databaseId)`. */
  function FilterEntries(entries: seq<CacheEntry>, databaseId: int): (r: seq<CacheEntry>)
    ensures forall e :: e in r <==> e in entries && e.databaseId == databaseId
    ensures |r| <= |entries|
  {
    if entries == [] then []
    else
      var rest := FilterEntries(entries[..|entries| - 1], databaseId);
      var e := entries[|entries| - 1];
      assert entries == entries[..|entries| - 1] + [e];
      if e.databaseId == databaseId then rest + [e] else rest
  }
}
