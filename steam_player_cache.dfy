/**
 * The Steam player cache: a table of Steam API results keyed by 64-bit
 * steamid, each row stamped with the time it was cached and a `precached`
 * flag. A row cached before the expiry instant (now minus the configured
 * cache duration) is expired; any other row is valid.
 */
module SteamCache {
  import opened Wrappers

  type SteamId = int

  /** One player as the Steam Web API returns it. */
  datatype Player = Player(steamid: SteamId, personaname: string, profileurl: string,
                           avatar: string, avatarmedium: string, avatarfull: string)

  /** A row of `steam_player_cache`; `cached` is in integer seconds. */
  datatype CacheRow = CacheRow(player: Player, cached: int, precached: bool)

  /** The API oracle: the players returned for one call with a batch of ids (a failed call returns none). */
  type Api = seq<SteamId> -> seq<Player>

  /** The Steam API accepts at most this many steamids per call. */
  const BatchSize: nat := 100

  /** Every row is stored under its own player's steamid (the primary key). */
  predicate KeyedBySteamid(table: map<SteamId, CacheRow>) {
    forall k :: k in table ==> table[k].player.steamid == k
  }

  /** `formatTimestamp` on integer seconds: an empty (zero) time means the current time. */
  function FormatTimestamp(time: int, now: int): int {
    if time != 0 then time else now
  }

  // ----- batching -----

  /** `array_slice($steamids, $i * 100, 100)`: the `i`-th slice, empty once past the end. */
  function BatchAt(ids: seq<SteamId>, i: nat): (b: seq<SteamId>)
    ensures |b| <= BatchSize
  {
    var start := i * BatchSize;
    if start >= |ids| then []
    else ids[start .. if start + BatchSize <= |ids| then start + BatchSize else |ids|]
  }

  /** Reference chunking: the list cut into consecutive pieces of 100, the last one shorter. */
  function Batches(ids: seq<SteamId>): seq<seq<SteamId>>
    decreases |ids|
  {
    if ids == [] then []
    else if |ids| <= BatchSize then [ids]
    else [ids[..BatchSize]] + Batches(ids[BatchSize..])
  }

  function Flatten(bs: seq<seq<SteamId>>): seq<SteamId> {
    if bs == [] then [] else bs[0] + Flatten(bs[1..])
  }

  /** The concatenated results of one API call per batch, in batch order. */
  function CallApi(bs: seq<seq<SteamId>>, api: Api): seq<Player> {
    if bs == [] then [] else CallApi(bs[..|bs| - 1], api) + api(bs[|bs| - 1])
  }

  /**
   * The batches cover the ids exactly, in order: ⌈n/100⌉ of them (none for
   * an empty list), each holding between 1 and 100 ids.
   */
  lemma {:induction false} BatchesSpec(ids: seq<SteamId>)
    ensures |Batches(ids)| == (|ids| + BatchSize - 1) / BatchSize
    ensures Flatten(Batches(ids)) == ids
    ensures forall i :: 0 <= i < |Batches(ids)| ==> 1 <= |Batches(ids)[i]| <= BatchSize
    decreases |ids|
  {
    if ids != [] && |ids| > BatchSize {
      var rest := ids[BatchSize..];
      BatchesSpec(rest);
      assert Batches(ids) == [ids[..BatchSize]] + Batches(rest);
      assert Batches(ids)[1..] == Batches(rest);
      assert ids == ids[..BatchSize] + rest;
      forall i | 1 <= i < |Batches(ids)|
        ensures 1 <= |Batches(ids)[i]| <= BatchSize
      {
        assert Batches(ids)[i] == Batches(rest)[i - 1];
      }
    }
  }

  /** Past the first batch, slicing the list is slicing what follows the first 100 ids. */
  lemma BatchAtShift(ids: seq<SteamId>, i: nat)
    requires |ids| > BatchSize && i > 0
    ensures BatchAt(ids, i) == BatchAt(ids[BatchSize..], i - 1)
  {
    var rest := ids[BatchSize..];
    var start := (i - 1) * BatchSize;
    assert i * BatchSize == start + BatchSize;
    if start < |rest| {
      var stop := if start + BatchSize <= |rest| then start + BatchSize else |rest|;
      assert rest[start..stop] == ids[start + BatchSize .. stop + BatchSize];
    }
  }

  /** The loop's slices are the reference batches: slice `i` is batch `i`, and empty from the last batch on. */
  lemma {:induction false} BatchAtIsBatch(ids: seq<SteamId>, i: nat)
    ensures i < |Batches(ids)| ==> BatchAt(ids, i) == Batches(ids)[i]
    ensures i >= |Batches(ids)| ==> BatchAt(ids, i) == []
    decreases |ids|
  {
    if ids == [] {
    } else if |ids| <= BatchSize {
      assert Batches(ids) == [ids];
      if i == 0 { assert BatchAt(ids, 0) == ids[0..|ids|]; }
    } else if i == 0 {
      assert Batches(ids)[0] == ids[..BatchSize];
    } else {
      var rest := ids[BatchSize..];
      BatchAtIsBatch(rest, i - 1);
      BatchAtShift(ids, i);
      assert Batches(ids) == [ids[..BatchSize]] + Batches(rest);
    }
  }

  // ----- saving and selecting rows -----

  /** The index `j` holds the last occurrence of its steamid in `players`. */
  predicate IsLastReturned(players: seq<Player>, j: int) {
    0 <= j < |players| && forall m :: j < m < |players| ==> players[m].steamid != players[j].steamid
  }

  function SteamIdsOf(players: seq<Player>): set<SteamId> {
    set j | 0 <= j < |players| :: players[j].steamid
  }

  /** `saveMany` of the mapped players, one row per player in order (a later row with the same steamid overwrites). */
  function Saved(table: map<SteamId, CacheRow>, players: seq<Player>, cached: int, precached: bool): map<SteamId, CacheRow> {
    if players == [] then table
    else
      var last := players[|players| - 1];
      Saved(table, players[..|players| - 1], cached, precached)[last.steamid := CacheRow(last, cached, precached)]
  }

  lemma SteamIdsOfSnoc(players: seq<Player>)
    requires players != []
    ensures SteamIdsOf(players) == SteamIdsOf(players[..|players| - 1]) + {players[|players| - 1].steamid}
  {
    var init := players[..|players| - 1];
    forall k | k in SteamIdsOf(players) ensures k in SteamIdsOf(init) + {players[|players| - 1].steamid} {
      var j :| 0 <= j < |players| && players[j].steamid == k;
      if j < |init| { assert init[j] == players[j]; }
    }
    forall k | k in SteamIdsOf(init) ensures k in SteamIdsOf(players) {
      var j :| 0 <= j < |init| && init[j].steamid == k;
      assert players[j] == init[j];
    }
  }

  /** After a save the table holds the old steamids plus every returned player's steamid, and no other. */
  lemma {:induction false} SavedKeys(table: map<SteamId, CacheRow>, players: seq<Player>, cached: int, precached: bool)
    ensures Saved(table, players, cached, precached).Keys == table.Keys + SteamIdsOf(players)
  {
    if players != [] {
      SavedKeys(table, players[..|players| - 1], cached, precached);
      SteamIdsOfSnoc(players);
    }
  }

  /** A row whose steamid no returned player has is left as it was. */
  lemma {:induction false} SavedKeepsOthers(table: map<SteamId, CacheRow>, players: seq<Player>, cached: int, precached: bool, k: SteamId)
    requires k in table && k !in SteamIdsOf(players)
    ensures k in Saved(table, players, cached, precached)
    ensures Saved(table, players, cached, precached)[k] == table[k]
  {
    if players != [] {
      SteamIdsOfSnoc(players);
      SavedKeys(table, players[..|players| - 1], cached, precached);
      SavedKeepsOthers(table, players[..|players| - 1], cached, precached, k);
    }
  }

  /** Each returned player's row is its last occurrence in the results, stamped with the given time and flag. */
  lemma {:induction false} SavedLastWins(table: map<SteamId, CacheRow>, players: seq<Player>, cached: int, precached: bool, j: int)
    requires IsLastReturned(players, j)
    ensures players[j].steamid in Saved(table, players, cached, precached)
    ensures Saved(table, players, cached, precached)[players[j].steamid] == CacheRow(players[j], cached, precached)
  {
    var init := players[..|players| - 1];
    if j < |init| {
      assert IsLastReturned(init, j);
      assert init[j] == players[j];
      SavedLastWins(table, init, cached, precached, j);
    }
  }

  /** Saving keeps every row under its own player's steamid. */
  lemma {:induction false} SavedKeyed(table: map<SteamId, CacheRow>, players: seq<Player>, cached: int, precached: bool)
    requires KeyedBySteamid(table)
    ensures KeyedBySteamid(Saved(table, players, cached, precached))
  {
    if players != [] {
      SavedKeyed(table, players[..|players| - 1], cached, precached);
    }
  }

  /** Steamids of rows that expired: cached strictly before the expiry instant. */
  function ExpiredIds(table: map<SteamId, CacheRow>, expire: int): set<SteamId> {
    set k | k in table && table[k].cached < expire
  }

  /** Steamids of rows `countValidPlayers` counts: cached at or after the expiry instant. */
  function ValidIds(table: map<SteamId, CacheRow>, expire: int): set<SteamId> {
    set k | k in table && table[k].cached >= expire
  }

  /** Steamids `getValidPlayers` returns: requested, present, and cached strictly after the expiry instant. */
  function ValidFor(table: map<SteamId, CacheRow>, ids: seq<SteamId>, expire: int): (r: set<SteamId>)
    ensures r <= ValidIds(table, expire)
  {
    set k | k in table && k in ids && table[k].cached > expire
  }

  /** The table after `deleteAll(cached < expire)`. */
  function Pruned(table: map<SteamId, CacheRow>, expire: int): map<SteamId, CacheRow> {
    map k | k in table && !(table[k].cached < expire) :: table[k]
  }

  function PrecachedIds(table: map<SteamId, CacheRow>): set<SteamId> {
    set k | k in table && table[k].precached
  }

  /** Valid and expired rows split the table: every row is exactly one of them, so the two counts add up to the row count. */
  lemma {:induction false} ValidAndExpiredPartition(table: map<SteamId, CacheRow>, expire: int)
    ensures ValidIds(table, expire) * ExpiredIds(table, expire) == {}
    ensures ValidIds(table, expire) + ExpiredIds(table, expire) == table.Keys
    ensures |ValidIds(table, expire)| + |ExpiredIds(table, expire)| == |table|
  {
    var v, x := ValidIds(table, expire), ExpiredIds(table, expire);
    assert v + x == table.Keys;
    assert |v + x| == |v| + |x| by { assert v * x == {}; }
  }

  /** A requested row cached exactly at the expiry instant is counted valid, yet `getValidPlayers` leaves it out. */
  lemma BoundaryRowIsCountedButNotReturned(table: map<SteamId, CacheRow>, ids: seq<SteamId>, expire: int, k: SteamId)
    requires k in table && k in ids && table[k].cached == expire
    ensures k in ValidIds(table, expire) && k !in ExpiredIds(table, expire)
    ensures k !in ValidFor(table, ids, expire)
  {
  }

  /** Pruning removes exactly the expired rows and keeps every other row as it was. */
  lemma PrunedSpec(table: map<SteamId, CacheRow>, expire: int)
    ensures Pruned(table, expire).Keys == table.Keys - ExpiredIds(table, expire)
    ensures Pruned(table, expire).Keys == ValidIds(table, expire)
    ensures forall k :: k in Pruned(table, expire) ==> Pruned(table, expire)[k] == table[k]
    ensures ExpiredIds(Pruned(table, expire), expire) == {}
  {
  }

  /** The rows stored under the listed steamids, in list order. */
  function RowsOf(table: map<SteamId, CacheRow>, ids: seq<SteamId>): (rows: seq<CacheRow>)
    requires forall i :: 0 <= i < |ids| ==> ids[i] in table
    ensures |rows| == |ids| && forall i :: 0 <= i < |ids| ==> rows[i] == table[ids[i]]
  {
    seq(|ids|, i requires 0 <= i < |ids| => table[ids[i]])
  }

  /** A set that is not empty has an element. */
  lemma HasElement(s: set<SteamId>)
    requires s != {}
    ensures exists k :: k in s
  {
    if forall k :: k !in s {
      assert false;
    }
  }

  lemma {:induction false} SubsetCard(a: set<SteamId>, b: set<SteamId>)
    requires a <= b
    ensures |a| <= |b|
    decreases |b|
  {
    if b != {} {
      HasElement(b);
      var x :| x in b;
      SubsetCard(a - {x}, b - {x});
    }
  }

  /** The keys of a set, listed once each in some order (the order `find('all')` yields is left open). */
  method ListKeys(keys: set<SteamId>) returns (ids: seq<SteamId>)
    ensures |ids| == |keys|
    ensures forall k :: k in ids <==> k in keys
    ensures forall i :: 0 <= i < |ids| ==> ids[i] in keys
  {
    ids := [];
    var rest := keys;
    while |rest| > 0
      invariant rest <= keys
      invariant forall k :: k in ids <==> k in keys - rest
      invariant |ids| + |rest| == |keys|
      decreases |rest|
    {
      HasElement(rest);
      var k :| k in rest;
      ids := ids + [k];
      rest := rest - {k};
    }
  }

  class SteamPlayerCache {
    /** `Store.SteamCacheDuration`, in seconds. */
    const cacheDuration: int
    var table: map<SteamId, CacheRow>
    /** The memoised expiry instant; unset until first asked for. */
    var expireTime: Option<int>

    ghost predicate Valid()
      reads this
    {
      KeyedBySteamid(table)
    }

    constructor (cacheDuration: int, table: map<SteamId, CacheRow>)
      requires KeyedBySteamid(table)
      ensures Valid()
      ensures this.cacheDuration == cacheDuration && this.table == table && expireTime == None
    {
      this.cacheDuration := cacheDuration;
      this.table := table;
      expireTime := None;
    }

    /**
     * `getExpireTime`: computed from the clock on the first call only; every
     * later call on the same instance returns that same instant.
     */
    method GetExpireTime(now: int) returns (expire: int)
      modifies this`expireTime
      ensures expireTime == Some(expire)
      ensures old(expireTime).Some? ==> expire == old(expireTime).value
      ensures old(expireTime).None? ==> expire == FormatTimestamp(now - cacheDuration, now)
    {
      if expireTime.None? {
        expireTime := Some(FormatTimestamp(now - cacheDuration, now));
      }
      expire := expireTime.value;
    }

    /** `getValidPlayers`: the rows of the requested steamids that are cached after the expiry instant. */
    method GetValidPlayers(steamids: seq<SteamId>, now: int) returns (rows: seq<CacheRow>)
      requires Valid()
      modifies this`expireTime
      ensures expireTime.Some? && (old(expireTime).Some? ==> expireTime == old(expireTime))
      ensures old(expireTime).None? ==> expireTime == Some(FormatTimestamp(now - cacheDuration, now))
      ensures |rows| == |ValidFor(table, steamids, expireTime.value)|
      ensures forall i :: 0 <= i < |rows| ==>
        rows[i].player.steamid in ValidFor(table, steamids, expireTime.value) && rows[i] == table[rows[i].player.steamid]
      ensures forall k :: k in ValidFor(table, steamids, expireTime.value) ==> table[k] in rows
    {
      var expire := GetExpireTime(now);
      var ids := ListKeys(ValidFor(table, steamids, expire));
      rows := RowsOf(table, ids);
      assert forall i :: 0 <= i < |rows| ==> rows[i].player.steamid == ids[i];
      forall k | k in ValidFor(table, steamids, expire) ensures table[k] in rows {
        var i :| 0 <= i < |ids| && ids[i] == k;
        assert rows[i] == table[k];
      }
    }

    /**
     * `refreshPlayers`: one API call per slice of 100 ids while the slice is
     * not empty; every returned player is saved with the one timestamp taken
     * at the start and the given `precache` flag; the merged results are
     * returned.
     */
    method RefreshPlayers(steamids: seq<SteamId>, precache: bool, now: int, api: Api) returns (steamPlayers: seq<Player>)
      requires Valid()
      modifies this`table
      ensures Valid()
      ensures steamPlayers == CallApi(Batches(steamids), api)
      ensures table == Saved(old(table), steamPlayers, FormatTimestamp(now, now), precache)
    {
      var cachedTime := FormatTimestamp(now, now);
      var i := 0;
      steamPlayers := [];
      ghost var bs := Batches(steamids);

      // the Steam API takes at most 100 players per call
      var batch := BatchAt(steamids, i);
      i := i + 1;
      BatchAtIsBatch(steamids, 0);
      BatchesSpec(steamids);
      while batch != []
        invariant 1 <= i <= |bs| + 1
        invariant batch == BatchAt(steamids, i - 1)
        invariant batch != [] ==> i - 1 < |bs| && batch == bs[i - 1]
        invariant batch == [] ==> i - 1 == |bs|
        invariant steamPlayers == CallApi(bs[..i - 1], api)
        invariant table == old(table)
        decreases |bs| + 1 - i
      {
        assert bs[..i][..i - 1] == bs[..i - 1];
        steamPlayers := steamPlayers + api(batch);
        BatchAtIsBatch(steamids, i);
        batch := BatchAt(steamids, i);
        i := i + 1;
      }
      assert bs[..i - 1] == bs;

      SavedKeyed(table, steamPlayers, cachedTime, precache);
      table := Saved(table, steamPlayers, cachedTime, precache);
    }

    /** `clearAll`: truncates the table. */
    method ClearAll()
      modifies this`table
      ensures Valid()
      ensures table == map[]
    {
      table := map[];
    }

    /** `refreshAll`: refreshes every steamid in the cache, not precached. */
    method RefreshAll(now: int, api: Api) returns (ghost refreshed: seq<SteamId>)
      requires Valid()
      modifies this`table
      ensures Valid()
      ensures |refreshed| == |old(table)| && forall k :: k in refreshed <==> k in old(table)
      ensures table == Saved(old(table), CallApi(Batches(refreshed), api), now, false)
    {
      var steamids := ListKeys(table.Keys);
      var _ := RefreshPlayers(steamids, false, now, api);
      refreshed := steamids;
    }

    /** `refreshExpiredPlayers`: refreshes exactly the expired steamids, not precached. */
    method RefreshExpiredPlayers(now: int, api: Api) returns (ghost refreshed: seq<SteamId>)
      requires Valid()
      modifies this
      ensures Valid()
      ensures expireTime.Some? && (old(expireTime).Some? ==> expireTime == old(expireTime))
      ensures old(expireTime).None? ==> expireTime == Some(FormatTimestamp(now - cacheDuration, now))
      ensures |refreshed| == |ExpiredIds(old(table), expireTime.value)|
      ensures forall k :: k in refreshed <==> k in ExpiredIds(old(table), expireTime.value)
      ensures table == Saved(old(table), CallApi(Batches(refreshed), api), now, false)
    {
      var expire := GetExpireTime(now);
      var steamids := ListKeys(ExpiredIds(table, expire));
      var _ := RefreshPlayers(steamids, false, now, api);
      refreshed := steamids;
    }

    /** `pruneExpiredPlayers`: deletes every row cached before the expiry instant. */
    method PruneExpiredPlayers(now: int)
      requires Valid()
      modifies this
      ensures Valid()
      ensures expireTime.Some? && (old(expireTime).Some? ==> expireTime == old(expireTime))
      ensures old(expireTime).None? ==> expireTime == Some(FormatTimestamp(now - cacheDuration, now))
      ensures table == Pruned(old(table), expireTime.value)
    {
      var expire := GetExpireTime(now);
      table := Pruned(table, expire);
    }

    /** `countValidPlayers`: rows cached at or after the expiry instant. */
    method CountValidPlayers(now: int) returns (count: nat)
      modifies this`expireTime
      ensures expireTime.Some? && (old(expireTime).Some? ==> expireTime == old(expireTime))
      ensures old(expireTime).None? ==> expireTime == Some(FormatTimestamp(now - cacheDuration, now))
      ensures count == |ValidIds(table, expireTime.value)|
    {
      var expire := GetExpireTime(now);
      count := |ValidIds(table, expire)|;
    }

    /** `countExpiredPlayers`: rows cached before the expiry instant. */
    method CountExpiredPlayers(now: int) returns (count: nat)
      modifies this`expireTime
      ensures expireTime.Some? && (old(expireTime).Some? ==> expireTime == old(expireTime))
      ensures old(expireTime).None? ==> expireTime == Some(FormatTimestamp(now - cacheDuration, now))
      ensures count == |ExpiredIds(table, expireTime.value)|
    {
      var expire := GetExpireTime(now);
      count := |ExpiredIds(table, expire)|;
    }

    /** `countPrecachedPlayers`: rows flagged as precached. */
    function CountPrecachedPlayers(): (count: nat)
      reads this
      ensures count <= |table|
      ensures count == 0 <==> forall k :: k in table ==> !table[k].precached
    {
      var p := PrecachedIds(table);
      SubsetCard(p, table.Keys);
      assert forall k :: k in table && table[k].precached ==> k in p;
      assert (forall k :: k in table ==> !table[k].precached) ==> p == {};
      |p|
    }

    /** `isPlayerPrecached`: the row's flag, false when there is no row for the steamid. */
    function IsPlayerPrecached(steamid: SteamId): (precached: bool)
      reads this
      ensures steamid !in table ==> !precached
      ensures precached <==> steamid in PrecachedIds(table)
    {
      steamid in table && table[steamid].precached
    }
  }
}
