/**
 * The feed's view model: the sort in force, the index of the visible video
 * that should play, and a first-in-first-out cache of at most three
 * players keyed by list index. Players are opaque; the one a cache miss
 * creates is an input.
 */
module PostsViewModels {
  import opened Wrappers
  import Models

  const MAX_CACHE_SIZE: nat := 3

  /** An ExoPlayer, known only by identity */
  datatype Player = Player(id: nat)

  predicate IsVideo(p: Models.PostModel) {
    Models.GetPostType(p) == Models.VIDEO
  }

  /**
   * `(first..last).firstOrNull { items[it].getPostType() == VIDEO }`: the
   * lowest video index in the range; indexing outside the list throws,
   * unless a video is found before the index that is out of range.
   */
  function FirstVideo(first: int, last: int, items: seq<Models.PostModel>): (r: Outcome<Option<int>>)
    ensures r.Returned? && r.value.Some? ==>
      first <= r.value.value <= last && 0 <= r.value.value < |items| && IsVideo(items[r.value.value])
      && forall k :: first <= k < r.value.value ==> 0 <= k && !IsVideo(items[k])
    ensures r == Returned(None) <==>
      first > last || (0 <= first && last < |items| && forall k :: first <= k <= last ==> !IsVideo(items[k]))
    ensures r.Threw? <==>
      first <= last
      && (first < 0 || first >= |items| || (last >= |items| && forall k :: first <= k < |items| ==> !IsVideo(items[k])))
    decreases last - first
  {
    if first > last then Returned(None)
    else if first < 0 || first >= |items| then Threw
    else if IsVideo(items[first]) then Returned(Some(first))
    else FirstVideo(first + 1, last, items)
  }

  /** The player cache, a `LinkedHashMap`: its entries and its keys in insertion order */
  datatype PlayerCache = PlayerCache(order: seq<int>, players: map<int, Player>)

  predicate Distinct(s: seq<int>) {
    forall i, j :: 0 <= i < j < |s| ==> s[i] != s[j]
  }

  /** The keys listed once each, exactly the map's keys, and never more than three */
  ghost predicate CacheValid(c: PlayerCache) {
    Distinct(c.order)
    && (forall i :: 0 <= i < |c.order| ==> c.order[i] in c.players)
    && (forall k :: k in c.players ==> k in c.order)
    && |c.order| <= MAX_CACHE_SIZE
  }

  /** The players in the order `values` iterates them */
  function Values(c: PlayerCache): (vs: seq<Player>)
    requires CacheValid(c)
    ensures |vs| == |c.order|
    ensures forall i :: 0 <= i < |vs| ==> vs[i] == c.players[c.order[i]]
  {
    seq(|c.order|, i requires 0 <= i < |c.order| => c.players[c.order[i]])
  }

  /**
   * `getOrCreatePlayer(index)` on a cache value: the player returned, the
   * new cache, and the player evicted (and released), if any.
   */
  function GetOrCreate(c: PlayerCache, index: int, newPlayer: Player): (r: (PlayerCache, Player, Option<Player>))
    requires CacheValid(c)
    ensures CacheValid(r.0)
    ensures index in c.players ==> r == (c, c.players[index], None)
    ensures index !in c.players ==> r.1 == newPlayer && index in r.0.players && r.0.players[index] == newPlayer
    ensures index !in c.players && |c.order| < MAX_CACHE_SIZE ==>
      r.0 == PlayerCache(c.order + [index], c.players[index := newPlayer]) && r.2.None?
    ensures index !in c.players && |c.order| == MAX_CACHE_SIZE ==>
      r.0.order == c.order[1..] + [index]
      && r.0.players == c.players[index := newPlayer] - {c.order[0]}
      && r.2 == Some(c.players[c.order[0]])
  {
    if index in c.players then (c, c.players[index], None)
    else
      var order := c.order + [index];
      var players := c.players[index := newPlayer];
      if |order| > MAX_CACHE_SIZE then
        EvictKeepsValid(c, index, newPlayer);
        (PlayerCache(order[1..], players - {order[0]}), newPlayer, Some(players[order[0]]))
      else
        InsertKeepsValid(c, index, newPlayer);
        (PlayerCache(order, players), newPlayer, None)
  }

  /** A new key below the limit is listed once, at the end. */
  lemma InsertKeepsValid(c: PlayerCache, index: int, p: Player)
    requires CacheValid(c) && index !in c.players && |c.order| < MAX_CACHE_SIZE
    ensures CacheValid(PlayerCache(c.order + [index], c.players[index := p]))
  {
    var order := c.order + [index];
    assert forall i :: 0 <= i < |c.order| ==> order[i] == c.order[i];
  }

  /** A new key at the limit pushes out the oldest one. */
  lemma EvictKeepsValid(c: PlayerCache, index: int, p: Player)
    requires CacheValid(c) && index !in c.players && |c.order| == MAX_CACHE_SIZE
    ensures var order := c.order + [index];
      CacheValid(PlayerCache(order[1..], c.players[index := p] - {order[0]}))
  {
    var order := c.order + [index];
    var rest := order[1..];
    assert forall i :: 0 <= i < |rest| ==> rest[i] == order[i + 1];
    assert forall i :: 0 <= i < |c.order| ==> order[i] == c.order[i];
    var players := c.players[index := p] - {order[0]};
    forall k | k in players ensures k in rest {
      assert k in order && k != order[0];
      var i :| 0 <= i < |order| && order[i] == k;
      assert rest[i - 1] == k;
    }
  }

  /** Keys listed once each have as many distinct keys as entries. */
  lemma {:induction false} DistinctCardinality(s: seq<int>)
    requires Distinct(s)
    ensures |(set k | k in s)| == |s|
  {
    if |s| > 0 {
      assert Distinct(s[1..]) by {
        forall i, j | 0 <= i < j < |s[1..]| ensures s[1..][i] != s[1..][j] {
          assert s[1..][i] == s[i + 1] && s[1..][j] == s[j + 1];
        }
      }
      DistinctCardinality(s[1..]);
      assert (set k | k in s) == {s[0]} + (set k | k in s[1..]);
      assert s[0] !in (set k | k in s[1..]) by {
        forall i | 0 <= i < |s[1..]| ensures s[1..][i] != s[0] {
          assert s[1..][i] == s[i + 1];
        }
      }
    }
  }

  /** In a valid cache the map's size is the length of the key order. */
  lemma CacheSize(c: PlayerCache)
    requires CacheValid(c)
    ensures |c.players| == |c.order|
  {
    forall k ensures k in c.players.Keys <==> k in (set k | k in c.order) {
      if k in c.order {
        var i :| 0 <= i < |c.order| && c.order[i] == k;
      }
    }
    assert c.players.Keys == (set k | k in c.order);
    DistinctCardinality(c.order);
  }

  /**
   * First in, first out: a hit does not refresh its entry, so on a full
   * cache the next miss evicts the oldest key even if it was just used.
   */
  lemma HitDoesNotRefresh(c: PlayerCache, hit: int, miss: int, p: Player, q: Player)
    requires CacheValid(c) && |c.order| == MAX_CACHE_SIZE
    requires hit in c.players && miss !in c.players
    ensures var afterHit := GetOrCreate(c, hit, p).0;
      GetOrCreate(afterHit, miss, q).2 == Some(c.players[c.order[0]])
  {
  }

  /** The player just created is never the one evicted. */
  lemma NewPlayerSurvives(c: PlayerCache, index: int, p: Player)
    requires CacheValid(c) && index !in c.players
    ensures var r := GetOrCreate(c, index, p);
      index in r.0.players && r.0.order[|r.0.order| - 1] == index
  {
  }

  class PostsViewModel {
    const isUser: bool
    const userName: string
    var currentSort: Models.PostSortModel
    var currentPlayingIndex: Option<int>
    /** Every value written to `currentPlayingIndex`, in order */
    var playingIndexWrites: seq<Option<int>>
    var playerCache: PlayerCache
    /** Every player released, in order */
    var released: seq<Player>

    ghost predicate Valid()
      reads this
    {
      CacheValid(playerCache)
    }

    constructor (isUser: bool, userName: string)
      ensures Valid()
      ensures this.isUser == isUser && this.userName == userName
      ensures currentSort == Models.PostSortModel(Models.POPULAR, None)
      ensures currentPlayingIndex.None? && playingIndexWrites == []
      ensures playerCache == PlayerCache([], map[]) && released == []
    {
      this.isUser := isUser;
      this.userName := userName;
      currentSort := Models.PostSortModel(Models.POPULAR, None);
      currentPlayingIndex := None;
      playingIndexWrites := [];
      playerCache := PlayerCache([], map[]);
      released := [];
    }

    /** `updateSort`: sort and timeframe are replaced together. */
    method UpdateSort(sortType: Models.PostSortType, timeType: Option<Models.PostTimeType>)
      modifies this
      ensures currentSort == Models.PostSortModel(sortType, timeType)
      ensures currentPlayingIndex == old(currentPlayingIndex) && playingIndexWrites == old(playingIndexWrites)
      ensures playerCache == old(playerCache) && released == old(released)
    {
      currentSort := Models.PostSortModel(sortType, timeType);
    }

    /**
     * `updatePlayingIndex`: the first video in the visible range becomes
     * the playing index, written only when it differs; `threw` when the
     * search indexes outside the list, which leaves everything unchanged.
     */
    method UpdatePlayingIndex(firstVisibleIndex: int, lastVisibleIndex: int, videoItems: seq<Models.PostModel>)
      returns (threw: bool)
      modifies this
      ensures var found := FirstVideo(firstVisibleIndex, lastVisibleIndex, videoItems);
        threw == found.Threw?
        && (threw ==> currentPlayingIndex == old(currentPlayingIndex) && playingIndexWrites == old(playingIndexWrites))
        && (!threw ==> currentPlayingIndex == found.value)
        && (!threw && found.value != old(currentPlayingIndex) ==>
              playingIndexWrites == old(playingIndexWrites) + [found.value])
        && (!threw && found.value == old(currentPlayingIndex) ==> playingIndexWrites == old(playingIndexWrites))
      ensures currentSort == old(currentSort) && playerCache == old(playerCache) && released == old(released)
    {
      var videoIndex := FirstVideo(firstVisibleIndex, lastVisibleIndex, videoItems);
      if videoIndex.Threw? {
        return true;
      }
      threw := false;
      if videoIndex.value != currentPlayingIndex {
        currentPlayingIndex := videoIndex.value;
        playingIndexWrites := playingIndexWrites + [videoIndex.value];
      }
    }

    /**
     * `getOrCreatePlayer(index)`: a hit returns the stored player; a miss
     * stores `newPlayer` last and, past three entries, removes and releases
     * the earliest-inserted one.
     */
    method GetOrCreatePlayer(index: int, newPlayer: Player) returns (player: Player)
      requires Valid()
      modifies this
      ensures Valid() && |playerCache.players| <= MAX_CACHE_SIZE
      ensures var r := GetOrCreate(old(playerCache), index, newPlayer);
        playerCache == r.0 && player == r.1
        && released == old(released) + (if r.2.Some? then [r.2.value] else [])
      ensures currentSort == old(currentSort) && currentPlayingIndex == old(currentPlayingIndex)
      ensures playingIndexWrites == old(playingIndexWrites)
    {
      ghost var r := GetOrCreate(playerCache, index, newPlayer);
      CacheSize(playerCache);
      if index in playerCache.players {
        return playerCache.players[index];
      }
      player := newPlayer;
      playerCache := PlayerCache(playerCache.order + [index], playerCache.players[index := newPlayer]);
      assert |playerCache.players| == |playerCache.order|;
      if |playerCache.players| > MAX_CACHE_SIZE {
        var oldestIndex := playerCache.order[0];
        var oldest := playerCache.players[oldestIndex];
        playerCache := PlayerCache(playerCache.order[1..], playerCache.players - {oldestIndex});
        released := released + [oldest];
      }
      assert playerCache == r.0;
      CacheSize(playerCache);
    }

    /** `onCleared`: every cached player is released, in insertion order, and the cache emptied. */
    method OnCleared()
      requires Valid()
      modifies this
      ensures Valid()
      ensures released == old(released) + Values(old(playerCache))
      ensures playerCache == PlayerCache([], map[])
      ensures currentSort == old(currentSort) && currentPlayingIndex == old(currentPlayingIndex)
      ensures playingIndexWrites == old(playingIndexWrites)
    {
      var done := released;
      var i := 0;
      while i < |playerCache.order|
        invariant 0 <= i <= |playerCache.order|
        invariant done == old(released) + Values(playerCache)[..i]
      {
        done := done + [playerCache.players[playerCache.order[i]]];
        i := i + 1;
      }
      assert Values(playerCache)[..i] == Values(playerCache);
      released := done;
      playerCache := PlayerCache([], map[]);
    }
  }
}
