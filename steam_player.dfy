/**
 * `SteamPlayer::getPlayers`: serve a list of players from the cache when the
 * cache holds all of them, otherwise refetch every requested account from
 * the Steam API, falling back to whatever the cache had when the API
 * returns nothing. `getPlayer` fetches one player and adds a `name` field.
 */
module SteamPlayers {
  import opened Wrappers
  import opened SteamCache

  /** What `getPlayers` returns, with the branch that produced it. */
  datatype Outcome =
    | CacheHit(rows: seq<CacheRow>)     // every requested player came from the cache
    | Refetched(players: seq<Player>)   // the API answered
    | Fallback(rows: seq<CacheRow>)     // the API gave nothing: the cache lookup as it was

  /** The players in an outcome, by steamid. */
  function SteamIds(o: Outcome): seq<SteamId> {
    match o
    case CacheHit(rows) => seq(|rows|, i requires 0 <= i < |rows| => rows[i].player.steamid)
    case Refetched(players) => seq(|players|, i requires 0 <= i < |players| => players[i].steamid)
    case Fallback(rows) => seq(|rows|, i requires 0 <= i < |rows| => rows[i].player.steamid)
  }

  /** A cache hit: the lookup found something, and as many rows as accounts were asked for. */
  predicate IsHit(accounts: seq<SteamId>, cached: seq<CacheRow>) {
    |cached| != 0 && |cached| == |accounts|
  }

  /**
   * `getPlayers(accounts)`, given what the cache lookup returned and the
   * refresh call (`refreshPlayers`, which saves what it fetches).
   */
  function GetPlayers(accounts: seq<SteamId>, cached: seq<CacheRow>, refresh: seq<SteamId> -> seq<Player>): (o: Outcome)
    ensures o.CacheHit? <==> IsHit(accounts, cached)
    ensures o.CacheHit? ==> o.rows == cached
    ensures !IsHit(accounts, cached) && refresh(accounts) != [] ==> o == Refetched(refresh(accounts))
    ensures !IsHit(accounts, cached) && refresh(accounts) == [] ==> o == Fallback(cached)
  {
    if |cached| != 0 && |cached| == |accounts| then CacheHit(cached)
    else
      var steamPlayers := refresh(accounts);
      if |steamPlayers| == 0 then Fallback(cached) else Refetched(steamPlayers)
  }

  /** On a hit the refresh is never consulted: the outcome is the same whatever the API would answer. */
  lemma HitMakesNoApiCall(accounts: seq<SteamId>, cached: seq<CacheRow>, r1: seq<SteamId> -> seq<Player>, r2: seq<SteamId> -> seq<Player>)
    requires IsHit(accounts, cached)
    ensures GetPlayers(accounts, cached, r1) == GetPlayers(accounts, cached, r2) == CacheHit(cached)
  {
  }

  /**
   * On a miss, what the refresh is asked for is the whole request, not just
   * the accounts the cache lacked: two refresh calls that agree on `accounts`
   * give the same outcome.
   */
  lemma MissRefetchesAllAccounts(accounts: seq<SteamId>, cached: seq<CacheRow>, r1: seq<SteamId> -> seq<Player>, r2: seq<SteamId> -> seq<Player>)
    requires !IsHit(accounts, cached) && r1(accounts) == r2(accounts)
    ensures GetPlayers(accounts, cached, r1) == GetPlayers(accounts, cached, r2)
    ensures GetPlayers(accounts, cached, r1).CacheHit? == false
  {
  }

  /** The refresh of `refreshPlayers` as seen by `getPlayers`: one API call per batch of 100, results merged. */
  function Refresh(api: Api): seq<SteamId> -> seq<Player> {
    ids => CallApi(Batches(ids), api)
  }

  /**
   * An empty request is never a hit: it goes down the refresh branch, which
   * makes no API call at all, and ends with the empty cache lookup.
   */
  lemma {:induction false} EmptyRequest(api: Api)
    ensures !IsHit([], [])
    ensures Batches([]) == []
    ensures GetPlayers([], [], Refresh(api)) == Fallback([])
    ensures SteamIds(GetPlayers([], [], Refresh(api))) == []
  {
    BatchesSpec([]);
    assert Refresh(api)([]) == CallApi([], api) == [];
  }

  predicate Distinct(ids: seq<SteamId>) {
    forall i, j :: 0 <= i < j < |ids| ==> ids[i] != ids[j]
  }

  function AsSet(ids: seq<SteamId>): set<SteamId> {
    set i | 0 <= i < |ids| :: ids[i]
  }

  /** A list has at least as many entries as distinct ids, and strictly more when one repeats. */
  lemma {:induction false} DistinctCard(ids: seq<SteamId>)
    ensures |AsSet(ids)| <= |ids|
    ensures Distinct(ids) <==> |AsSet(ids)| == |ids|
  {
    if ids != [] {
      var init := ids[..|ids| - 1];
      var last := ids[|ids| - 1];
      DistinctCard(init);
      assert AsSet(ids) == AsSet(init) + {last} by {
        forall k | k in AsSet(ids) ensures k in AsSet(init) + {last} {
          var i :| 0 <= i < |ids| && ids[i] == k;
          if i < |init| { assert init[i] == ids[i]; }
        }
        forall k | k in AsSet(init) ensures k in AsSet(ids) {
          var i :| 0 <= i < |init| && init[i] == k;
          assert ids[i] == init[i];
        }
      }
      if Distinct(ids) {
        assert Distinct(init);
        assert last !in AsSet(init);
      } else if Distinct(init) {
        var i, j :| 0 <= i < j < |ids| && ids[i] == ids[j];
        assert j == |ids| - 1 && init[i] == last;
        assert last in AsSet(init);
      }
    }
  }

  /** A subset as large as its superset is the whole superset. */
  lemma EqualCardSubset(a: set<SteamId>, b: set<SteamId>)
    requires a <= b && |a| == |b|
    ensures a == b
  {
    assert a + (b - a) == b;
    assert a * (b - a) == {};
    assert |b - a| == 0;
    assert forall x :: x in b ==> x in a by {
      forall x | x in b ensures x in a {
        assert x !in b - a;
      }
    }
  }

  /**
   * With `getValidPlayers` as the lookup, a request of distinct accounts is a
   * cache hit exactly when it is not empty and every account has a valid
   * cached row; one account missing or expired sends the whole request to
   * the API.
   */
  lemma {:induction false} HitIffAllCachedAndValid(table: map<SteamId, CacheRow>, accounts: seq<SteamId>, expire: int, cached: seq<CacheRow>)
    requires Distinct(accounts)
    requires |cached| == |ValidFor(table, accounts, expire)|
    ensures IsHit(accounts, cached) <==>
      accounts != [] && forall i :: 0 <= i < |accounts| ==> accounts[i] in table && table[accounts[i]].cached > expire
  {
    var v := ValidFor(table, accounts, expire);
    DistinctCard(accounts);
    assert v <= AsSet(accounts) by {
      forall k | k in v ensures k in AsSet(accounts) {
        var i :| 0 <= i < |accounts| && accounts[i] == k;
      }
    }
    if IsHit(accounts, cached) {
      EqualCardSubset(v, AsSet(accounts));
      forall i | 0 <= i < |accounts| ensures accounts[i] in table && table[accounts[i]].cached > expire {
        assert accounts[i] in AsSet(accounts);
      }
    }
    if accounts != [] && forall i :: 0 <= i < |accounts| ==> accounts[i] in table && table[accounts[i]].cached > expire {
      assert AsSet(accounts) <= v;
      assert v == AsSet(accounts);
    }
  }

  /**
   * A request that names an account twice is never a hit: the lookup
   * returns one row per steamid, fewer than the accounts counted, so the
   * whole request goes to the API however fresh the cache is.
   */
  lemma DuplicateAccountsNeverHit(table: map<SteamId, CacheRow>, accounts: seq<SteamId>, expire: int, cached: seq<CacheRow>, api: Api)
    requires !Distinct(accounts)
    requires |cached| == |ValidFor(table, accounts, expire)|
    ensures !IsHit(accounts, cached)
    ensures GetPlayers(accounts, cached, Refresh(api)) != CacheHit(cached)
  {
    var v := ValidFor(table, accounts, expire);
    DistinctCard(accounts);
    assert v <= AsSet(accounts) by {
      forall k | k in v ensures k in AsSet(accounts) {
        var i :| 0 <= i < |accounts| && accounts[i] == k;
      }
    }
    SubsetCard(v, AsSet(accounts));
  }

  /** A player with the extra `name` field `getPlayer` adds. */
  datatype NamedPlayer = NamedPlayer(player: Player, name: string)

  /**
   * `getPlayer(user_id)`, given the players the API lookup for that one id
   * returned: nothing when none came back, otherwise the first, named after
   * its persona name.
   */
  function GetPlayer(found: seq<Player>): (r: Option<NamedPlayer>)
    ensures r.None? <==> found == []
    ensures r.Some? ==> r.value.player == found[0] && r.value.name == found[0].personaname
  {
    if |found| == 0 then None
    else
      var player := found[0];
      Some(NamedPlayer(player, player.personaname))
  }
}
