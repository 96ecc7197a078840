/**
 * database.py: the bot's SQLite store, modelled as in-memory tables. The
 * `created_at` timestamps are a counter that grows with every insert, and
 * `file_size_mb` (a float) is not kept.
 */
module Store {
  import opened Wrappers
  import opened Content

  datatype UserRow = UserRow(
    userId: int, username: Option<string>, firstName: Option<string>, lastName: Option<string>, language: string)

  /** A `playlist_cache` row after its JSON round trip. */
  datatype CacheRow = CacheRow(playlist: ContentInfo, tracks: seq<string>)

  datatype HistoryRow = HistoryRow(userId: int, url: string, title: string, tracksCount: int, createdAt: nat)

  datatype StatRow = StatRow(userId: int, actionType: string, tracksCount: int, createdAt: nat)

  /** The `language` column's default, and what an unknown user gets. */
  const DefaultLanguage := "ua"

  // ---------------------------------------------------------------- users

  /** `user_id` is the table's integer primary key, so a scan returns rows in ascending id order. */
  predicate IdsAscending(users: seq<UserRow>)
  {
    forall i, j :: 0 <= i < j < |users| ==> users[i].userId < users[j].userId
  }

  /** The row whose primary key is `id`, if any. */
  function FindUser(users: seq<UserRow>, id: int): (r: Option<UserRow>)
    ensures r.Some? ==> r.value in users && r.value.userId == id
    ensures r.None? ==> forall k :: 0 <= k < |users| ==> users[k].userId != id
  {
    if users == [] then None
    else if users[0].userId == id then Some(users[0])
    else FindUser(users[1..], id)
  }

  /** `INSERT OR REPLACE`: the row for `row.userId` becomes `row`; all other rows stay. */
  function Upsert(users: seq<UserRow>, row: UserRow): (r: seq<UserRow>)
    requires IdsAscending(users)
    ensures IdsAscending(r)
    ensures forall u :: u in r ==> u == row || u in users
  {
    if users == [] then [row]
    else if row.userId < users[0].userId then [row] + users
    else if row.userId == users[0].userId then [row] + users[1..]
    else
      var rest := Upsert(users[1..], row);
      assert forall u :: u in rest ==> users[0].userId < u.userId;
      [users[0]] + rest
  }

  lemma {:induction false} UpsertLookup(users: seq<UserRow>, row: UserRow, id: int)
    requires IdsAscending(users)
    ensures id == row.userId ==> FindUser(Upsert(users, row), id) == Some(row)
    ensures id != row.userId ==> FindUser(Upsert(users, row), id) == FindUser(users, id)
  {
    if users != [] && row.userId > users[0].userId {
      UpsertLookup(users[1..], row, id);
    }
  }

  /** `UPDATE users SET language = ? WHERE user_id = ?`: only an existing row changes. */
  function SetLanguage(users: seq<UserRow>, id: int, language: string): (r: seq<UserRow>)
    ensures |r| == |users|
    ensures forall k :: 0 <= k < |users| ==>
              r[k] == (if users[k].userId == id then users[k].(language := language) else users[k])
  {
    seq(|users|, k requires 0 <= k < |users| => if users[k].userId == id then users[k].(language := language) else users[k])
  }

  /** Updating a language never creates or removes a user, and changes only that user's language. */
  lemma {:induction false} SetLanguageLookup(users: seq<UserRow>, id: int, language: string, other: int)
    requires IdsAscending(users)
    ensures IdsAscending(SetLanguage(users, id, language))
    ensures FindUser(SetLanguage(users, id, language), other).Some? <==> FindUser(users, other).Some?
    ensures other == id && FindUser(users, id).Some? ==>
              FindUser(SetLanguage(users, id, language), id) == Some(FindUser(users, id).value.(language := language))
    ensures other != id ==> FindUser(SetLanguage(users, id, language), other) == FindUser(users, other)
  {
    SetLanguageFinds(users, id, language, other);
  }

  /** The lookups of `SetLanguageLookup`, which hold whatever the order of the rows. */
  lemma {:induction false} SetLanguageFinds(users: seq<UserRow>, id: int, language: string, other: int)
    ensures FindUser(SetLanguage(users, id, language), other).Some? <==> FindUser(users, other).Some?
    ensures other == id && FindUser(users, id).Some? ==>
              FindUser(SetLanguage(users, id, language), id) == Some(FindUser(users, id).value.(language := language))
    ensures other != id ==> FindUser(SetLanguage(users, id, language), other) == FindUser(users, other)
  {
    var r := SetLanguage(users, id, language);
    if users != [] {
      assert r[1..] == SetLanguage(users[1..], id, language);
      SetLanguageFinds(users[1..], id, language, other);
    }
  }

  function UserIds(users: seq<UserRow>): (r: seq<int>)
    ensures |r| == |users| && forall k :: 0 <= k < |users| ==> r[k] == users[k].userId
  {
    seq(|users|, k requires 0 <= k < |users| => users[k].userId)
  }

  // ---------------------------------------------------------------- history

  predicate Matches(row: HistoryRow, userId: int, url: string)
  {
    row.userId == userId && row.url == url
  }

  /** Rows are appended with ever larger timestamps. */
  predicate Chronological(history: seq<HistoryRow>)
  {
    forall i, j :: 0 <= i < j < |history| ==> history[i].createdAt < history[j].createdAt
  }

  /** `... WHERE user_id = ? AND playlist_url = ? ORDER BY created_at DESC LIMIT 1` */
  function Latest(history: seq<HistoryRow>, userId: int, url: string): (r: Option<HistoryRow>)
    ensures r.Some? ==> r.value in history && Matches(r.value, userId, url)
    ensures r.None? ==> forall k :: 0 <= k < |history| ==> !Matches(history[k], userId, url)
  {
    if history == [] then None
    else if Matches(history[|history| - 1], userId, url) then Some(history[|history| - 1])
    else Latest(history[..|history| - 1], userId, url)
  }

  /** The row `Latest` picks is the newest of that user's rows for that url. */
  lemma {:induction false} LatestIsNewest(history: seq<HistoryRow>, userId: int, url: string)
    requires Chronological(history)
    ensures Latest(history, userId, url).Some? ==>
              forall k :: 0 <= k < |history| && Matches(history[k], userId, url) ==>
                history[k].createdAt <= Latest(history, userId, url).value.createdAt
  {
    if history != [] && !Matches(history[|history| - 1], userId, url) {
      LatestIsNewest(history[..|history| - 1], userId, url);
    }
  }

  /** One user's history rows, newest first. */
  function RecentRows(history: seq<HistoryRow>, userId: int): (r: seq<HistoryRow>)
    ensures |r| <= |history|
    ensures forall row :: row in r <==> row in history && row.userId == userId
  {
    if history == [] then []
    else
      var last := history[|history| - 1];
      (if last.userId == userId then [last] else []) + RecentRows(history[..|history| - 1], userId)
  }

  predicate NewestFirst(rows: seq<HistoryRow>)
  {
    forall i, j :: 0 <= i < j < |rows| ==> rows[i].createdAt > rows[j].createdAt
  }

  lemma {:induction false} RecentRowsNewestFirst(history: seq<HistoryRow>, userId: int)
    requires Chronological(history)
    ensures NewestFirst(RecentRows(history, userId))
  {
    if history != [] {
      var init := history[..|history| - 1];
      var last := history[|history| - 1];
      RecentRowsNewestFirst(init, userId);
      var rest := RecentRows(init, userId);
      forall row | row in rest ensures row.createdAt < last.createdAt {
        var k :| 0 <= k < |init| && init[k] == row;
        assert history[k] == row;
      }
    }
  }

  /** SQL's `LIMIT n`: the first `n` rows, or all of them for a negative `n`. */
  function Limit<T>(rows: seq<T>, n: int): (r: seq<T>)
    ensures n < 0 ==> r == rows
    ensures 0 <= n ==> |r| == (if n < |rows| then n else |rows|)
    ensures |r| <= |rows| && r == rows[..|r|]
  {
    if n < 0 || n >= |rows| then rows else rows[..n]
  }

  /** In a newest-first list, any row past a prefix is older than every row of that prefix. */
  lemma PrefixIsNewest(all: seq<HistoryRow>, n: nat)
    requires NewestFirst(all) && n <= |all|
    ensures forall row, kept :: row in all && row !in all[..n] && kept in all[..n] ==> row.createdAt < kept.createdAt
  {
    forall row, kept | row in all && row !in all[..n] && kept in all[..n]
      ensures row.createdAt < kept.createdAt
    {
      var i :| 0 <= i < |all| && all[i] == row;
      var j :| 0 <= j < n && all[..n][j] == kept;
      forall k | 0 <= k < n ensures all[k] != row {
        assert all[..n][k] == all[k];
      }
      assert n <= i;
    }
  }

  /**
   * `get_download_history` returns at most `limit` rows, all the user's,
   * newest first, and no row of the user that it leaves out is newer than
   * one it returns.
   */
  lemma DownloadHistoryMeaning(history: seq<HistoryRow>, userId: int, limit: int)
    requires Chronological(history)
    ensures var r := Limit(RecentRows(history, userId), limit);
      && (0 <= limit ==> |r| <= limit)
      && (forall row :: row in r ==> row in history && row.userId == userId)
      && NewestFirst(r)
      && (forall row, kept :: row in history && row.userId == userId && row !in r && kept in r ==>
            row.createdAt < kept.createdAt)
  {
    var all := RecentRows(history, userId);
    var r := Limit(all, limit);
    assert r == all[..|r|];
    RecentRowsNewestFirst(history, userId);
    PrefixIsNewest(all, |r|);
    PrefixKeepsOrder(all, |r|);
  }

  /** A prefix of a newest-first list is newest-first and holds only rows of the list. */
  lemma PrefixKeepsOrder(all: seq<HistoryRow>, n: nat)
    requires NewestFirst(all) && n <= |all|
    ensures NewestFirst(all[..n])
    ensures forall row :: row in all[..n] ==> row in all
  {
    forall row | row in all[..n] ensures row in all {
      var k :| 0 <= k < n && all[..n][k] == row;
      assert all[k] == row;
    }
  }

  function CountRows(history: seq<HistoryRow>, userId: int): nat
  {
    if history == [] then 0
    else CountRows(history[..|history| - 1], userId) + (if history[|history| - 1].userId == userId then 1 else 0)
  }

  function SumTracks(history: seq<HistoryRow>, userId: int): int
  {
    if history == [] then 0
    else
      var last := history[|history| - 1];
      SumTracks(history[..|history| - 1], userId) + (if last.userId == userId then last.tracksCount else 0)
  }

  function SumAllTracks(history: seq<HistoryRow>): int
  {
    if history == [] then 0 else SumAllTracks(history[..|history| - 1]) + history[|history| - 1].tracksCount
  }

  /** An appended history row adds one download and its tracks to its own user's totals only. */
  lemma AppendCounts(history: seq<HistoryRow>, row: HistoryRow, userId: int)
    ensures CountRows(history + [row], userId) == CountRows(history, userId) + (if row.userId == userId then 1 else 0)
    ensures SumTracks(history + [row], userId) == SumTracks(history, userId) + (if row.userId == userId then row.tracksCount else 0)
    ensures SumAllTracks(history + [row]) == SumAllTracks(history) + row.tracksCount
  {
    assert (history + [row])[..|history|] == history;
  }

  /** A user's download count is the number of their history rows. */
  lemma {:induction false} CountIsRecentRows(history: seq<HistoryRow>, userId: int)
    ensures CountRows(history, userId) == |RecentRows(history, userId)|
  {
    if history != [] {
      CountIsRecentRows(history[..|history| - 1], userId);
    }
  }

  /** database.py's `Database`. */
  class Database {
    var users: seq<UserRow>
    var cache: map<string, CacheRow>
    var history: seq<HistoryRow>
    var statistics: seq<StatRow>
    /** The next `created_at` value. */
    var clock: nat

    ghost predicate Valid()
      reads this
    {
      && IdsAscending(users)
      && Chronological(history)
      && (forall k :: 0 <= k < |history| ==> history[k].createdAt < clock)
    }

    /** A fresh database after `init_db`: every table empty. */
    constructor ()
      ensures Valid()
      ensures users == [] && cache == map[] && history == [] && statistics == []
    {
      users := [];
      cache := map[];
      history := [];
      statistics := [];
      clock := 0;
    }

    /** `add_user`: `INSERT OR REPLACE` on the user id. */
    method AddUser(userId: int, username: Option<string>, firstName: Option<string>, lastName: Option<string>, language: string)
      requires Valid()
      modifies this
      ensures Valid()
      ensures users == Upsert(old(users), UserRow(userId, username, firstName, lastName, language))
      ensures cache == old(cache) && history == old(history) && statistics == old(statistics) && clock == old(clock)
    {
      users := Upsert(users, UserRow(userId, username, firstName, lastName, language));
    }

    /** `get_user_language`: the stored language, or "ua" for an unknown user. */
    method GetUserLanguage(userId: int) returns (language: string)
      ensures FindUser(users, userId).Some? ==> language == FindUser(users, userId).value.language
      ensures FindUser(users, userId).None? ==> language == DefaultLanguage
    {
      var row := FindUser(users, userId);
      language := if row.Some? then row.value.language else DefaultLanguage;
    }

    /** `update_user_language` */
    method UpdateUserLanguage(userId: int, language: string)
      requires Valid()
      modifies this
      ensures Valid()
      ensures users == SetLanguage(old(users), userId, language)
      ensures cache == old(cache) && history == old(history) && statistics == old(statistics) && clock == old(clock)
    {
      SetLanguageLookup(users, userId, language, userId);
      users := SetLanguage(users, userId, language);
    }

    /** `is_playlist_downloaded`: whether this user has a history row for this url, with the newest one's title and date. */
    method IsPlaylistDownloaded(userId: int, url: string) returns (found: bool, title: Option<string>, date: Option<nat>)
      requires Valid()
      ensures found <==> exists k :: 0 <= k < |history| && Matches(history[k], userId, url)
      ensures found ==> exists k :: 0 <= k < |history| && Matches(history[k], userId, url) &&
                          title == Some(history[k].title) && date == Some(history[k].createdAt) &&
                          forall j :: 0 <= j < |history| && Matches(history[j], userId, url) ==> history[j].createdAt <= history[k].createdAt
      ensures !found ==> title == None && date == None
    {
      var row := Latest(history, userId, url);
      LatestIsNewest(history, userId, url);
      if row.Some? {
        found, title, date := true, Some(row.value.title), Some(row.value.createdAt);
      } else {
        found, title, date := false, None, None;
      }
    }

    /** `get_cached_playlist`: the cached row for that url, if any. */
    method GetCachedPlaylist(url: string) returns (row: Option<CacheRow>)
      ensures url in cache <==> row.Some?
      ensures row.Some? ==> row.value == cache[url]
    {
      row := if url in cache then Some(cache[url]) else None;
    }

    /** `cache_playlist`: `INSERT OR REPLACE` keyed by url. */
    method CachePlaylist(url: string, playlist: ContentInfo, tracks: seq<string>)
      requires Valid()
      modifies this
      ensures Valid()
      ensures cache == old(cache)[url := CacheRow(playlist, tracks)]
      ensures users == old(users) && history == old(history) && statistics == old(statistics) && clock == old(clock)
    {
      cache := cache[url := CacheRow(playlist, tracks)];
    }

    /** `add_download_history`: exactly one new row at the end; the existing rows are unchanged. */
    method AddDownloadHistory(userId: int, url: string, title: string, tracksCount: int)
      requires Valid()
      modifies this
      ensures Valid()
      ensures history == old(history) + [HistoryRow(userId, url, title, tracksCount, old(clock))]
      ensures users == old(users) && cache == old(cache) && statistics == old(statistics) && clock == old(clock) + 1
    {
      history := history + [HistoryRow(userId, url, title, tracksCount, clock)];
      clock := clock + 1;
    }

    /** `add_statistics` */
    method AddStatistics(userId: int, actionType: string, tracksCount: int)
      requires Valid()
      modifies this
      ensures Valid()
      ensures statistics == old(statistics) + [StatRow(userId, actionType, tracksCount, old(clock))]
      ensures users == old(users) && cache == old(cache) && history == old(history) && clock == old(clock) + 1
    {
      statistics := statistics + [StatRow(userId, actionType, tracksCount, clock)];
      clock := clock + 1;
    }

    /** `get_user_statistics`: the user's download count and track total; SQL's `SUM` of no rows is NULL. */
    method GetUserStatistics(userId: int) returns (downloads: nat, tracks: Option<int>)
      ensures downloads == |RecentRows(history, userId)|
      ensures downloads == 0 <==> tracks.None?
      ensures tracks.Some? ==> tracks.value == SumTracks(history, userId)
    {
      CountIsRecentRows(history, userId);
      downloads := CountRows(history, userId);
      tracks := if downloads == 0 then None else Some(SumTracks(history, userId));
    }

    /** `get_download_history`: the loop that copies the selected rows. */
    method GetDownloadHistory(userId: int, limit: int) returns (rows: seq<HistoryRow>)
      ensures rows == Limit(RecentRows(history, userId), limit)
    {
      var results := Limit(RecentRows(history, userId), limit);
      rows := [];
      for i := 0 to |results|
        invariant rows == results[..i]
      {
        rows := rows + [results[i]];
      }
    }

    /** `get_global_statistics`: user count, history row count and track total (0 for no rows). */
    method GetGlobalStatistics() returns (totalUsers: nat, totalDownloads: nat, totalTracks: int)
      ensures totalUsers == |users| && totalDownloads == |history|
      ensures totalTracks == SumAllTracks(history)
    {
      totalUsers := |users|;
      totalDownloads := |history|;
      totalTracks := if history == [] then 0 else SumAllTracks(history);
    }

    /** `get_all_users`: every user id, in ascending order, each once. */
    method GetAllUsers() returns (ids: seq<int>)
      requires Valid()
      ensures ids == UserIds(users)
      ensures forall i, j :: 0 <= i < j < |ids| ==> ids[i] < ids[j]
      ensures forall id :: id in ids <==> FindUser(users, id).Some?
    {
      ids := [];
      for i := 0 to |users|
        invariant ids == UserIds(users[..i])
      {
        ids := ids + [users[i].userId];
      }
      assert users[..|users|] == users;
      forall id ensures id in ids <==> FindUser(users, id).Some? {
        if id in ids {
          var k :| 0 <= k < |ids| && ids[k] == id;
          assert users[k].userId == id;
        }
      }
    }
  }
}
