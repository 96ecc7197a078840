# soundcloudbot in Dafny

This project models the core of soundcloudbot. It is a Telegram bot that downloads SoundCloud tracks and playlists for its users and searches SoundCloud for tracks. A user sends a link. The bot describes the content and checks whether that user has downloaded it before. It then lets the user choose individual files or ZIP archives. Only one download runs at a time (`core.py`'s `QueueManager`); everyone else waits in a first-come queue with their request stashed. When a download finishes, the bot records it in its SQLite database and starts the next waiting user. The model also covers:

- track search, with a paged result list and selection buttons;
- the administrator's announcement broadcast;
- the `.env` loading and hosting profile of `config.py`.

The model keeps one Dafny module per source file:

| module | source |
|---|---|
| `Queue` | core.py |
| `Store` | database.py |
| `FileProcessor` | services/file_processor.py |
| `PlaylistPreview` | services/playlist_preview.py |
| `Search` | services/search.py |
| `ArtistSplit` | services/search_improved.py |
| `Utils` | utils.py |
| `Download` | handlers/download.py |
| `Keyboards` | keyboards/main.py |
| `MainBot` | main_bot.py |
| `SearchHandlers` | handlers/search_handlers.py |
| `SearchLegacy` | handlers/search.py |
| `Admin` | handlers/admin.py |
| `Config` | config.py |

Shared modules:

- `Wrappers`: `Option`.
- `Text`: the Python string operations the source relies on: `strip`, `split`, `lower` on ASCII, `int()` and `str()` of integers, `in`.
- `Content`: track and playlist descriptions.
- `Fsm`: the aiogram conversation state of one user, as a class.
- `Pagination`: the five-result windows and callback data shared by the three search front ends.

The state the source updates in place is modelled as classes whose methods carry `modifies` clauses:

- the queue (`Queue.QueueManager`);
- the database (`Store.Database`);
- the download driver (`Download.DownloadBot`);
- a user's conversation (`Fsm.Conversation`);
- the process environment (`Config.Environment`).

Loops of the source are methods with loop invariants, each proved against a function that specifies it. Telegram, yt-dlp, SQLite's file and the clock are parameters or oracles:

- a message is an event in a returned sequence;
- a download is a function from a URL to the directory listing it leaves behind;
- a search is its outcome.

## Model

| member | source | states |
|---|---|---|
| Text.Strip | config.py:13 | `str.strip()` keeps a contiguous slice of the input, and the result neither starts nor ends with whitespace. |
| Text.StripIdempotent | config.py:16-17 | Stripping twice is stripping once. |
| Text.SplitOnce | config.py:15 | `split('=', 1)` fails iff there is no `=`. Otherwise the parts rejoin to the input, and the first part holds no `=`. |
| Text.SplitJoin | handlers/search.py:128 | Joining the pieces of `split('_')` with `_` gives back the input. |
| Text.Truncate | handlers/search.py:158-159 | A short text is kept. A longer one keeps its first `n` characters and gains "...". |
| Text.LowerAscii | handlers/admin.py:78 | `lower()` keeps the length and changes exactly the capital letters. |
| Text.IntRoundTrip | keyboards/main.py:40 | `int(str(n))` is `n` for every integer. |
| Queue.QueueManager.constructor | core.py:17-21 | A new manager has an empty queue, no current user, is not processing and holds no stashed data. |
| Queue.QueueManager.AddToQueue | core.py:23-29 | Appends the user only when absent, so the queue stays duplicate-free and nothing else changes. The returned position is 1-based and the user stands at it. |
| Queue.QueueManager.StartProcessing | core.py:31-35 | The user becomes current and processing is on. Their first occurrence leaves the queue and the stash is untouched. |
| Queue.QueueManager.FinishProcessing | core.py:38-41 | Clears the current user and the processing flag; the queue and the stash are unchanged. |
| Queue.QueueManager.GetNextUser | core.py:43-44 | The head of the queue, or none when the queue is empty. |
| Queue.QueueManager.IsUserInQueue | core.py:46-47 | True exactly when the user is waiting. |
| Queue.QueueManager.GetQueuePosition | core.py:49-53 | 0 exactly when the user is absent; otherwise the 1-based index of the user's entry. |
| Queue.QueueManager.GetQueueSize | core.py:55-56 | The number of waiting users. |
| Queue.QueueManager.IsProcessing | core.py:58-59 | The flag is on exactly when some user is current. |
| Queue.QueueManager.SetUserData | core.py:61-62 | The stash maps the user to the new data; the queue and the current user are unchanged. |
| Queue.QueueManager.GetUserData | core.py:64-65 | Returns a value exactly when the user has stashed data, and that value is the stash entry. |
| Queue.QueueManager.RemoveUserData | core.py:67-69 | The user's entry leaves the stash; removing an absent user changes nothing. |
| Queue.StashRoundTrip | core.py:61-69 | Data stashed for a user reads back unchanged, and after removal it reads back as absent. Another user's entry reads the same before and after. The user map ends as before minus that user, and the queue state is unchanged. |
| Queue.Position | core.py:27 | `list.index(u) + 1`: 0 exactly when absent; otherwise the first 1-based place holding the user. |
| Queue.RemoveFirst | core.py:34-35 | `list.remove`: deletes the first occurrence only, and nothing when absent. |
| Queue.EnqueueNoDuplicates | core.py:24-25 | Adding a user keeps the queue free of duplicates. |
| Queue.EnqueueKeepsOrder | core.py:24-25 | Adding a user keeps everyone already waiting in their order, and the user ends up in the queue. |
| Queue.EnqueuePosition | core.py:24-27 | Re-adding a waiting user keeps the queue and the user's position. A new user gets position length + 1. |
| Queue.PositionOfIndex | core.py:49-51 | In a duplicate-free queue, the user at index i has position i + 1. |
| Queue.RemoveFirstNoDuplicates | core.py:34-35 | Removal keeps the queue duplicate-free and leaves the user absent. |
| Queue.ServingHeadAdvances | core.py:34-35 | Serving the head moves every other waiting user one place forward. |
| Store.Database.constructor | database.py:22-69 | `init_db` on a new database file: every table is empty. |
| Store.Database.AddUser | database.py:72-78 | `INSERT OR REPLACE` on the user id; the other tables are unchanged. |
| Store.Upsert | database.py:74-77 | The result keeps ids ascending and holds only the new row and old rows. |
| Store.UpsertLookup | database.py:74-77 | After an upsert, the new row's id finds the new row; any other id finds what it found before. |
| Store.FindUser | database.py:82-84 | A found row has that id; no row is found only when no row has that id. |
| Store.Database.GetUserLanguage | database.py:80-84 | The stored language of a known user, and "ua" for an unknown one. |
| Store.Database.UpdateUserLanguage | database.py:86-89 | Changes only the language column of an existing user; the other tables are unchanged. |
| Store.SetLanguage | database.py:88 | Same rows in the same order; only the matching user's language changes. |
| Store.SetLanguageLookup | database.py:86-89 | The rows stay in ascending id order. An update never creates or removes a user. Only that user's language changes, and every other user's row is unchanged. |
| Store.SetLanguageFinds | database.py:86-89 | Whatever the row order, the update neither adds nor removes a user. The named user's row gains the new language, and every other user's row is unchanged. |
| Store.Database.IsPlaylistDownloaded | database.py:91-104 | True exactly when the user has a history row for the url. It then returns the newest such row's title and date, and nothing otherwise. |
| Store.Latest | database.py:94-98 | The row picked belongs to that user and url; none is picked only when no row matches. |
| Store.LatestIsNewest | database.py:97 | The picked row is newer than every other matching row. |
| Store.Database.GetCachedPlaylist | database.py:106-118 | Returns the cached row for the url exactly when one exists. |
| Store.Database.CachePlaylist | database.py:120-126 | `INSERT OR REPLACE` keyed by url; the other tables are unchanged. |
| Store.Database.AddDownloadHistory | database.py:128-134 | Exactly one row is appended, with a timestamp newer than every earlier row. |
| Store.Database.AddStatistics | database.py:136-142 | Exactly one statistics row is appended. |
| Store.AppendCounts | database.py:128-155 | An appended history row adds one download and its tracks to its own user's totals only, and its tracks to the global total. |
| Store.Database.GetUserStatistics | database.py:144-155 | The user's download count is their number of history rows. The track total is the sum of their rows, and NULL exactly when they have none. |
| Store.CountIsRecentRows | database.py:147-152 | The `COUNT(*)` of a user equals the number of that user's rows. |
| Store.RecentRows | database.py:159-164 | Holds exactly the user's history rows. |
| Store.RecentRowsNewestFirst | database.py:163 | Those rows come newest first. |
| Store.Limit | database.py:164 | SQL `LIMIT`: the first n rows, or all of them for a negative n. |
| Store.PrefixIsNewest | database.py:163-164 | In a newest-first list, every row past a prefix is older than every row in it. |
| Store.DownloadHistoryMeaning | database.py:157-178 | At most `limit` rows, all the user's, newest first. No row of the user that is left out is newer than one returned. |
| Store.Database.GetDownloadHistory | database.py:157-178 | The loop returns the limited, newest-first rows of the user. |
| Store.Database.GetGlobalStatistics | database.py:180-198 | User count, history row count and the track total (0 when there are no rows). |
| Store.Database.GetAllUsers | database.py:200-204 | Every user id once, in ascending order; an id is listed exactly when that user exists. |
| Store.UserIds | database.py:202-204 | One id per row, in row order. |
| FileProcessor.GetFilesInDirectory | services/file_processor.py:21-36 | The names of the regular files, in listing order; nothing for a missing directory. |
| FileProcessor.RegularFiles | services/file_processor.py:30-33 | An entry is kept exactly when it is a regular file. |
| FileProcessor.CollectFiles | services/file_processor.py:50-55 | The walk gathers exactly the regular files, in listing order. |
| FileProcessor.SortBySize | services/file_processor.py:63 | The result is ascending by size and a permutation of the input. |
| FileProcessor.InsertBySizeStable | services/file_processor.py:63 | Inserting a file into a sorted list places it after the files of its own size, as appending it would. |
| FileProcessor.SortBySizeStable | services/file_processor.py:63 | The sort is stable: for every size, the files of that size keep their input order. |
| FileProcessor.InsertBySizePermutes | services/file_processor.py:63 | Each insertion step of the sort adds its file and loses none. |
| FileProcessor.InsertBySizeSorted | services/file_processor.py:63 | Each insertion step keeps the list sorted by size. |
| FileProcessor.PackWithinCeiling | services/file_processor.py:77-103 | Every part the loop makes is non-empty, and its summed size stays within the ceiling. |
| FileProcessor.PackFlatten | services/file_processor.py:68-106 | The parts laid end to end are exactly the kept files: each once, in order, so parts are consecutive runs. |
| FileProcessor.PackGreedy | services/file_processor.py:82 | A part is closed only when the next kept file would push it past the ceiling. |
| FileProcessor.KeptSorted | services/file_processor.py:63-79 | The kept files are exactly the readable files within the ceiling, still in ascending size order. |
| FileProcessor.PartPathsDistinct | services/file_processor.py:88 | Distinct part numbers give distinct `.partNNN.zip` paths, so no part overwrites another. |
| FileProcessor.PartSuffix | services/file_processor.py:88 | The `.partNNN.zip` suffix holds no '/'. |
| FileProcessor.SlashEndAppend | services/file_processor.py:88-91 | Appending text without a '/' leaves the last '/' of a path where it was. |
| FileProcessor.PartsShareDirectory | services/file_processor.py:88-91 | `os.path.dirname` of every part path is the base path's directory, so all parts are created in one directory. |
| FileProcessor.OpenPartStep | services/file_processor.py:82-94 | A file that does not fit, or that arrives when no part is open, opens the next numbered part holding just that file. |
| FileProcessor.GrowPartStep | services/file_processor.py:99-103 | A file that fits joins the open part, which keeps its path. |
| FileProcessor.PackFiles | services/file_processor.py:65-106 | The loop's parts hold the member lists of the greedy packing and are numbered from 1 in creation order. |
| FileProcessor.ZipPlan | services/file_processor.py:38-119 | No parts for a missing directory; otherwise the greedy packing of the sorted regular files, with numbered paths. |
| FileProcessor.PlanOfParts | services/file_processor.py:65-108 | Parts with the packing's member lists and numbered paths are the plan itself. |
| FileProcessor.ZipPlanMeaning | services/file_processor.py:38-119 | Nothing for a missing or file-less directory. Otherwise the parts are numbered from 1, non-empty and within the ceiling, and hold exactly the kept files in ascending size. |
| FileProcessor.CreateZipParts | services/file_processor.py:38-119 | When the base path's directory is one where files can be created, the method returns the plan, with every property proved for it. Otherwise every `zipfile.ZipFile(...)` raises (89-97), each file is skipped and no part is returned. |
| FileProcessor.CleanupZipParts | services/file_processor.py:121-129 | Every listed path that exists is removed; the others are ignored and nothing else is removed. |
| PlaylistPreview.RemoveForbidden | services/playlist_preview.py:114 | Drops exactly the characters of `<>:"/\|?*` and keeps the others in order; a string without them is unchanged. |
| PlaylistPreview.CleanedComesFromInput | services/playlist_preview.py:114-118 | Every character `clean_filename` keeps comes from its input and is not a forbidden one. |
| PlaylistPreview.CleanFilename | services/playlist_preview.py:110-120 | Empty input, or input that cleans to nothing, gives the 'unknown' placeholder. Otherwise the result is the stripped, cleaned text when at most 50 characters long, or its first 47 characters plus "...". |
| PlaylistPreview.CleanFilenameIdempotent | services/playlist_preview.py:110-120 | Cleaning a cleaned title changes nothing, given a clean placeholder. |
| PlaylistPreview.Classify | services/playlist_preview.py:52-65 | `_type == 'playlist'` gives a playlist: its count is the length of a list of entries, 0 without entries, or `playlist_count` (default 1) otherwise. Otherwise a list of more than one entry is a playlist with that many tracks, and anything else is a single track. |
| PlaylistPreview.ManifestMeaning | services/playlist_preview.py:83-90 | A playlist with entries caches one title per entry, numbering the "Track i" defaults from 1. Anything else caches exactly one title. |
| PlaylistPreview.ManifestAgreesWithCount | services/playlist_preview.py:55-90 | For a non-empty list of entries, the manifest lists as many titles as the reported track count. |
| PlaylistPreview.TrackPlaceholdersDistinct | services/playlist_preview.py:86 | Distinct entries get distinct default titles. |
| PlaylistPreview.FirstNonEmpty | services/playlist_preview.py:72 | `uploader or channel or default`: the first non-empty value. |
| PlaylistPreview.Described | services/playlist_preview.py:67-81 | The successful lookup's dict: the classification, the cleaned title, the first non-empty user, the url, and no error. |
| PlaylistPreview.Failure | services/playlist_preview.py:44-50 | A failed lookup has type 'error' and 0 tracks, carries the placeholders, and carries the exception text when there was one. |
| PlaylistPreview.GetContentInfo | services/playlist_preview.py:22-108 | A cache hit answers from the cache without the extractor. Without a loading message to delete, that branch raises and yields the error dict. A miss calls the extractor: an exception or an empty result gives the error dict and caches nothing. A described link is cached with its manifest, and a `None` entry makes the manifest raise and caches nothing. A store whose `get_cached_playlist` (29) raises gives the error dict with that text, before the extractor. A `cache_playlist` (90) that raises gives the error dict and caches nothing. Users, history and statistics are untouched. |
| Search.FormatDurationMeaning | services/search.py:55-60 | A zero duration gives "0:00". Otherwise the text is the minutes, a colon and exactly two digits of seconds below 60, and together they are the duration rounded down to whole seconds. |
| Search.BuildTrack | services/search.py:44-60 | The track dict exists exactly when the `user` field is not `null`; a `null` user makes `.get` raise. |
| Search.ParseItemMeaning | services/search.py:38-65 | An item survives exactly when its policy is 'ALLOW', it is streamable and its user is not `null`. A survivor carries its title and username, or 'Unknown Track' / 'Unknown Artist' when they are missing. |
| Search.ParsedOrder | services/search.py:38-62 | The result grows by the surviving items only, in input order. |
| Search.ParsedAllStreamable | services/search.py:41-42 | Every returned track is streamable. |
| Search.ParseSearchResults | services/search.py:34-67 | The loop over `collection` (default empty) returns exactly the surviving items' tracks, in order. |
| Search.ParseTrackInfo | services/search.py:86-109 | The same dict without the availability filter; `None` exactly when the user is `null`. |
| Search.SearchTracks | services/search.py:13-32 | A 200 reply gives its parsed results; any other status, a timeout or an exception gives `[]`. |
| ArtistSplit.OpenerNotSpace | services/search_improved.py:100-104 | No separator of the five patterns is whitespace, so `\s*` stops right at one. |
| ArtistSplit.AttemptFits | services/search_improved.py:100-104 | An attempt with group 1 ending at k is a real match of the pattern, taking the longest whitespace after the separator. |
| ArtistSplit.FitsAttempt | services/search_improved.py:100-104 | Wherever the pattern can match with group 1 ending at k, the attempt at k succeeds. |
| ArtistSplit.MatchFromLeftmost | services/search_improved.py:108 | The lazy search finds a match no later than any reachable position where one exists. |
| ArtistSplit.MatchFromFits | services/search_improved.py:108 | What the lazy search returns is a real match. |
| ArtistSplit.MatchIsLeftmost | services/search_improved.py:99-108 | `re.match` succeeds exactly when the pattern can match. It then returns the match with the shortest group 1 and the longest whitespace before group 2. |
| ArtistSplit.SplitByPatterns | services/search_improved.py:107-115 | Any split returned passes the length check: artist shorter than 50, title longer than 3. |
| ArtistSplit.FirstAcceptedPatternWins | services/search_improved.py:107-115 | The patterns are tried in order. The result is the first accepted pattern's split, and there is none exactly when no pattern gives an accepted split. |
| ArtistSplit.ExtractArtistMeaning | services/search_improved.py:94-121 | An accepted pattern split wins. Otherwise a non-empty uploader that is not the unknown-artist text is the artist and the title is untouched. Otherwise the fallback decides. |
| ArtistSplit.FirstSeparatorIn | services/search_improved.py:135-136 | The separator found is the first of " - ", " \| ", " : " that occurs in the head; none is found only when none occurs. |
| ArtistSplit.FallbackAtComma | services/search_improved.py:128-131 | A comma with fewer than 30 characters before it splits the title there, both parts stripped. |
| ArtistSplit.FallbackAtSeparator | services/search_improved.py:134-138 | Without such a comma, a title longer than 40 with a separator in its first 30 characters is split at that separator's first occurrence. That occurrence lies within the 30 characters. |
| ArtistSplit.FallbackUnknown | services/search_improved.py:141 | Otherwise the artist is the unknown-artist text and the title is kept unchanged. |
| ArtistSplit.CommaSplit | services/search_improved.py:129 | `split(',', 1)` splits at the first comma. |
| ArtistSplit.DashExample | services/search_improved.py:100 | "A - Song" gives artist "A" and title "Song", whoever uploaded it. |
| Utils.IsValidUrl | utils.py:56-69 | True exactly when the stripped text starts with `http://`, `https://` or `soundcloud.com/` and holds no space or newline; the empty string is never valid. |
| Utils.ValidUrlIgnoresSurroundingSpace | utils.py:60 | Surrounding whitespace does not change the verdict. |
| Utils.ValidUrlShape | utils.py:60-69 | A valid link, once stripped, is one unbroken word of at least seven characters. |
| Utils.SafeDbFallback | utils.py:71-80 | With no store, or a store that raises, the fallback is returned, and the stored value otherwise. |
| Utils.LanguageFallback | utils.py:46-54 | A user's language reads 'ua' exactly when the store is missing or raises, or when it holds 'ua'. |
| Utils.DateShown | utils.py:86-90 | A string date shows as its first 16 characters at most. |
| Utils.FormatHistoryItem | utils.py:82-99 | Four lines; the first is numbered and holds the title cut to 50 characters plus "...", and the last is empty. |
| Utils.HistoryTitleBound | utils.py:92 | The shown title never exceeds 53 characters. A title of at most 50 is shown whole; a longer one starts with its first 50 characters and ends with "...". |
| Utils.ChunkFoldGood | utils.py:110-122 | Every chunk the loop closes is non-empty, and within the limit unless it is one over-long line. |
| Utils.ChunksAreGood | utils.py:107-122 | No chunk is empty. A chunk is longer than the limit only when it is a single line of the text that is itself longer. |
| Utils.ChunkStepKeepsLines | utils.py:111-119 | One step of the loop adds the new line, if non-empty, after the lines already held. |
| Utils.ChunkFoldKeepsLines | utils.py:110-122 | The loop keeps every non-empty line it has read, in order. |
| Utils.ChunksKeepLines | utils.py:107-122 | Reading the chunks line by line gives back exactly the text's non-empty lines, in their original order. |
| Utils.ChunkedMessagesMeaning | utils.py:101-126 | A text within the limit goes out unchanged as one message. A longer one goes out as one message per chunk, each ending with its chunk, with no header when there is only one chunk. |
| Utils.GatherChunks | utils.py:107-122 | The gathering loop returns exactly the chunks the chunking specification describes. |
| Utils.SendChunkedMessage | utils.py:101-126 | The messages sent are exactly the numbered chunks described above. |
| Download.DownloadBot.constructor | handlers/download.py:13 | The bot starts with a fresh, empty queue, nothing in flight and nothing sent. |
| Download.DownloadBot.CallbackDownload | handlers/download.py:145-184 | Without a link in the FSM data, only "send a link first" is sent and the queue is untouched. While the slot is taken, the user is enqueued once, their data, button and language are stashed, and they are told their position and the queue size. Otherwise they become the user in flight at once. `Valid` holds throughout: a free slot means nobody waits and no stash is left. |
| Download.DownloadBot.QueueRequest | handlers/download.py:167-181 | `add_to_queue` and then `set_user_data`; the position reported is the user's place in the queue. |
| Download.DownloadBot.LanguageOf | handlers/download.py:160-163 | The user's stored language, or "ua" without a database. |
| Download.DownloadBot.ProcessNextInQueue | handlers/download.py:294-329 | Nothing changes while the slot is taken. With an empty queue, the finished frames remove their stashes. Otherwise the head is told it is their turn, leaves the queue and becomes the user in flight with their stashed job, and the rest keep their order. |
| Download.DownloadBot.ServeNext | handlers/download.py:302-323 | The head's stash supplies the job; the head is notified, started, and removed from the front of the queue. |
| Download.DownloadBot.Unwind | handlers/download.py:328-329 | Every pending frame's `finally` removes its user's stash, so no stash outlives the chain of queued downloads. |
| Download.DownloadBot.CompleteDownload | handlers/download.py:228-292 | The job's messages go to its user. History and statistics grow by the rows the job records, and users and cache are untouched. The slot is then released and handed to the head of the queue, or freed with every stash gone. |
| Download.DownloadBot.HandOff | handlers/download.py:290-292 | `finish_processing`, then `process_next_in_queue`: the slot is released on every exit of a job and passes to the queue head in arrival order. |
| Download.TurnNotice | handlers/download.py:298-315 | At most one notice, sent exactly when someone waits and the head has a stash. |
| Download.Addressed | handlers/download.py:232-288 | Every event of a job is addressed to the job's own user, in order. |
| Download.JoinPath | handlers/download.py:188 | Also used at handlers/download.py:261. `os.path.join` ends with the name; an absolute name replaces the directory, otherwise the directory comes first. |
| Download.TrackDocs | handlers/download.py:260-267 | One document per file, in file order, captioned i out of the number of files. |
| Download.TrackEvents | handlers/download.py:256-269 | The count first, then the numbered documents, then the closing note. |
| Download.SendTracks | handlers/download.py:256-269 | The loop sends exactly those events. |
| Download.PartDocs | handlers/download.py:199-206 | One document per part, in part order, captioned i out of the number of parts. |
| Download.ArchiveEvents | handlers/download.py:186-216 | No parts means only the failure note. Otherwise: the count, each part numbered, then the closing note. |
| Download.CaptionParts | handlers/download.py:199-210 | The loop over the parts produces exactly those documents. |
| Download.SendZipParts | handlers/download.py:186-216 | Packs the download directory with the 45 MiB ceiling and reports the parts the packer created as above. When it created none, because nothing was packable or no part file could be created, only the failure note is sent. |
| Download.PlainTitleGoesToTemp | handlers/download.py:188-190 | A title without '/' puts the parts straight into the temporary directory. They are created, giving the plan, exactly when that directory accepts files; otherwise only the failure note is sent. |
| Download.SlashInTitleFailsArchive | handlers/download.py:188-194 | A title `sub/name` puts the parts into `<temp>/sub`. When that directory does not exist, the ZIP button sends only the failure note, whatever was downloaded. |
| Download.ThunderstruckArchiveFails | handlers/download.py:188-194 | "AC/DC - Thunderstruck" under /tmp, with only /tmp available: the archive fails. |
| Download.ArchivePartPaths | handlers/download.py:188-190 | Part document i carries the path `<temp>/<title>.partNNN.zip` of number i. |
| Download.JoinUnderTemp | handlers/download.py:188 | A relative title is joined under the temporary directory with one '/'. |
| Download.DirOfJoined | handlers/download.py:188 | The directory of `dir/tail`, with no '/' in `tail`, is `dir`. |
| Download.FilesMeaning | handlers/download.py:251 | The files sent are exactly the names of the regular files in the download directory. |
| Download.DownloadPlaylist | handlers/download.py:239-249 | The download succeeds exactly when the url is set and some file ends in ".mp3". |
| Download.JobEventsOutcome | handlers/download.py:222-288 | FSM data missing a key yields only the error message. Otherwise the first message names the title. The closing ad is sent exactly when files were delivered, and the delivery in between follows the button pressed. |
| Download.StartDownload | handlers/download.py:222-284 | The messages of one job, in the order `start_download` sends them. |
| Download.HistoryRows | handlers/download.py:276-279 | One history row, with the number of files, exactly for a delivered job that is not a confirmed re-download. |
| Download.StatRows | handlers/download.py:280-282 | The matching "download" statistics row, under the same condition. |
| Download.RecordDownload | handlers/download.py:276-282 | History and statistics grow by exactly those rows, users and cache are untouched, and nothing happens without a database. |
| Download.PlaylistHandler | handlers/download.py:20-89 | A message that is not a link is ignored. A link this user already has in history gets the newest such download's title and date, and is remembered for confirmation without any lookup. Any other link is looked up and previewed. |
| Download.ShowPreview | handlers/download.py:57-89 | One reply: the lookup's error with the FSM data untouched, or a preview whose link, type, title and count are what the FSM data now holds. The count is shown for playlists only. A cached link is previewed from the cache. |
| Download.ConfirmRedownload | handlers/download.py:91-127 | Without a remembered link only an alert is sent. Otherwise the link is looked up again. On success the FSM data holds that link and is marked as a re-download, so the job that follows writes no history. |
| Download.CancelRedownload | handlers/download.py:129-143 | The conversation is cleared and the user is told so. |
| Pagination.SliceBound | handlers/search_handlers.py:147 | A Python slice bound always lands inside the sequence, and an in-range bound is kept as it is. |
| Pagination.PySlice | handlers/search_handlers.py:147 | A Python slice is never longer than the sequence it cuts. |
| Pagination.PageMeaning | handlers/search.py:145 | For a non-negative offset, the page holds the (at most five) results from that offset on, in order. It is empty past the end and shorter only at the end. |
| Pagination.NewOffset | handlers/search_handlers.py:132-143 | Only prev and next produce an offset. Prev never goes below 0 and steps back by five from an offset of at least five. Next never passes `len - 5` or `offset + 5`. |
| Pagination.NavigationKeepsOffsetOk | handlers/search.py:130-133 | Pressing a button that the keyboard shows keeps the offset in range. Prev moves back. Next moves forward, by exactly five iff a whole further page fits; otherwise it shows the last five. |
| Pagination.PageFullAtOkOffset | handlers/search.py:145 | At every offset that navigation can reach, the page is full, unless the whole list is shorter than a page. |
| Pagination.SplitAfterWord | handlers/search.py:128 | A word without `_`, followed by `_`, is the first field of the split. |
| Pagination.NoUnderscoreInNumber | keyboards/main.py:40 | A printed number contains no `_`, so it stays one field of the callback data. |
| Pagination.ThirdFieldRoundTrip | keyboards/main.py:40 | The number after two `_`-free words is the data's third field, and `int()` reads it back as the same number. |
| Pagination.NavigationDataAction | handlers/search.py:128 | For `search_…` data, the second field is the first `_`-field after the prefix. |
| Pagination.SelectedIndex | handlers/search_handlers.py:88 | When defined, the index is one less than the number in the third field. It is undefined where Python raises. |
| Pagination.SelectedId | handlers/search.py:85 | When defined, it is the number the third field parses to. It is undefined where Python raises. |
| Pagination.SelectDataRoundTrip | keyboards/main.py:40 | The number written after `select_track_` reads back as itself, and as one less when taken as a 1-based position. |
| Pagination.FindById | handlers/search.py:91 | A track that is found is one of the results and has the id. Nothing is found iff no result has the id. |
| Pagination.PickById | handlers/search.py:85-95 | A pick is unparsable iff `int()` raises. It is not found iff the id names no result. A picked track is a result carrying the pressed id. |
| Pagination.FindByIdUnique | handlers/search.py:91 | When ids are distinct, looking up the id of the i-th result finds that very result. |
| Pagination.PickByIdFindsTrack | handlers/search.py:85-95 | When ids are distinct, the selection data carrying a track's id picks that track. |
| Pagination.StoreResults | handlers/search.py:63 | After a search, the stored results, query and offset 0 are set, and every other key is left as it was. |
| Pagination.EntryOf | handlers/search.py:158-162 | An entry keeps its number and its duration. The title is at most 43 characters and is unchanged when short. The artist is at most `width + 3` characters. The artist line is dropped iff the cut artist equals the hidden-artist text. |
| Pagination.Entries | handlers/search.py:157-162 | There is one entry per track, in order, numbered from `offset + 1`. |
| Pagination.ListEntries | handlers/search.py:157-162 | The `enumerate` loop builds exactly those entries. |
| Pagination.Rows | keyboards/main.py:37-41 | There is one row per button, in order. |
| Pagination.RowsOfElements | keyboards/main.py:37-41 | Rows holding one button each, in order, are exactly the rows of those buttons. |
| Pagination.BuildLayout | keyboards/main.py:36-55 | The loop and the conditionals build the shared layout: one row per selection, the navigation row when it has a button, then cancel. |
| Pagination.LayoutRows | keyboards/main.py:36-55 | The layout holds the selection rows in order, one button each, and the cancel row last. Its row count is exact. |
| Pagination.LayoutNavigation | keyboards/main.py:43-51 | A prev button is shown iff one is given, and likewise for next. |
| Keyboards.SelectButtons | keyboards/main.py:37-41 | There is one button per track of the page, numbered from `offset + 1`. |
| Keyboards.TrackSelectionKeyboard | keyboards/main.py:33-55 | The keyboard `get_track_selection_keyboard` builds for the page at the offset. |
| Keyboards.KeyboardRows | keyboards/main.py:33-55 | Each selection row shows a page track's number and caption and carries `select_track_{id}`. Then comes the navigation row iff the offset is positive or another track follows. Cancel is last. |
| Keyboards.SelectButtonCarriesId | keyboards/main.py:40 | The i-th selection button carries the id of the i-th track on the page. |
| Keyboards.KeyboardNavigation | keyboards/main.py:43-48 | Prev is shown iff `offset > 0`. Next is shown iff `offset + 5 < len`. |
| Keyboards.NavigationOffsetRoundTrip | keyboards/main.py:45-48 | The offset a navigation button carries is its third field and parses back to that offset. |
| MainBot.KeptByStrip | main_bot.py:23 | A non-space character survives `strip()`. |
| MainBot.EnvLine | main_bot.py:22-23 | A line sets nothing iff it has no `=` or starts with `#`. Otherwise the stripped line is the key, `=`, then the value, and the key holds no `=`. |
| MainBot.LoadEnv | main_bot.py:16-24 | The loop over the `.env` lines reports a raise exactly when the lines make the load fail. Otherwise it leaves the environment the lines define. |
| MainBot.LoadRaisesIff | main_bot.py:24 | Loading fails exactly when some accepted line assigns an empty name or a NUL character. The assignment raises ValueError there, and nothing catches it. |
| MainBot.RaiseFound | main_bot.py:24 | A failed load points at an accepted line whose assignment raises. |
| MainBot.RaiseFailsLoad | main_bot.py:24 | One raising line makes the whole load fail, whatever follows it. |
| MainBot.RaisedStaysRaised | main_bot.py:18-24 | Once an assignment has raised, reading further lines does not undo it. |
| MainBot.LoadedKeepsUnnamed | main_bot.py:24 | In a load that succeeds, a key that no accepted line names keeps its presence and value. |
| MainBot.LoadedLastWins | main_bot.py:24 | In a load that succeeds, the last accepted line naming a key decides its value. |
| MainBot.SelectButtons | main_bot.py:67-75 | There is one button per track of the page, numbered from `offset + 1`. |
| MainBot.TrackSelectionKeyboard | main_bot.py:63-100 | The keyboard main_bot.py builds for the page at the offset. |
| MainBot.KeyboardRows | main_bot.py:63-100 | The selection rows, one per page track, come first. Then the navigation row iff it has a button, then cancel. |
| MainBot.KeyboardNavigation | main_bot.py:80-93 | Prev is shown iff `offset > 0`. Next is shown iff another track follows the page. |
| MainBot.SelectionButtonPicksItsTrack | main_bot.py:74 | The i-th button carries position `offset + i + 1`, which the selection handler reads as index `offset + i`: the track the button shows. |
| MainBot.FormatSearchResults | main_bot.py:110-135 | The loop builds the intended results message for the full list at the offset. |
| MainBot.ResultsMeaning | main_bot.py:110-135 | At a reachable offset, the message lists exactly the page's tracks in order and reports every track found. Its page number lies between 1 and the page count. |
| MainBot.NavigatedResultsAsWrittenLosesPage | main_bot.py:272 | With ten results, next from page 1 leads to offset 5. The as-written message then lists nothing and says 5 found, page 2/1. The intended one lists five tracks. |
| MainBot.NavigatedResultsAsWrittenEmpty | main_bot.py:272 | As written, every page after the first lists no track. |
| MainBot.FirstResultsAsWritten | main_bot.py:221 | With ten results, the first message as written (`tracks[:5]`) says 5 found, page 1/1, where the intended one says 10 found, page 1/2. Both list the same five tracks. |
| MainBot.ProcessSearchQuery | main_bot.py:184-236 | A query shorter than 2 characters is refused and the state stays. Otherwise a loading reply precedes the outcome. Found results are stored with offset 0, and the intended first message (`Results` at offset 0, with every track counted) is shown; main_bot.py:221 as written formats only `tracks[:5]` (see Findings). No results, a timeout or an error clear the conversation. |
| MainBot.NavigateSearchResults | main_bot.py:240-279 | Prev and next store the clamped offset and show the intended message and keyboard for that page. Cancel deletes the message and clears the conversation. Any other action changes nothing. |
| MainBot.SelectTrackCallback | main_bot.py:283-324 | `select_track_N` picks the stored result at index N-1, makes it a single-track request and leaves the search state. An out-of-range index is refused with nothing changed. Unparsable data raises and changes nothing. |
| SearchHandlers.FormatSearchResults | handlers/search_handlers.py:156-176 | The loop builds the message for the list it is given. |
| SearchHandlers.FormatMeaning | handlers/search_handlers.py:156-176 | Every track of a non-empty list appears in order, numbered from `offset + 1`, with its artist line, and the message reports the list's length. |
| SearchHandlers.PagedResultsMeaning | handlers/search_handlers.py:156-176 | At a reachable offset, the intended message lists exactly the page's tracks and reports every result. Its page number lies between 1 and the number of pages. |
| SearchHandlers.FormatOfPageAsWritten | handlers/search_handlers.py:67 | As written, the page is passed in, so the entries are right but the count is the page's length and there is only one page in total. |
| SearchHandlers.FormatOfPageAsWrittenSecondPage | handlers/search_handlers.py:147 | With ten results, page 2 says 5 found, page 2/1, where 10 found, page 2/2 is meant. |
| SearchHandlers.SameEntriesAsLegacy | handlers/search_handlers.py:156-176 | On a non-empty page, handlers/search.py lists the same entries. The two messages differ only in the count and the page number. |
| SearchHandlers.PickAsWritten | handlers/search_handlers.py:88-98 | A pick is not found iff the number, read as a 1-based position, falls outside the results. A picked track is one of the results. |
| SearchHandlers.PickFindsPressedTrack | keyboards/main.py:40 | When ids are distinct, the pick by id finds the track whose button was pressed. |
| SearchHandlers.PickAsWrittenMissesTrack | handlers/search_handlers.py:88 | A lone result with an id of at least 2 cannot be selected with its own button as written, but the pick by id finds it. |
| SearchHandlers.StartSearch | handlers/search_handlers.py:33-40 | The conversation now waits for a query and its data is kept. |
| SearchHandlers.ProcessSearchQuery | handlers/search_handlers.py:42-82 | A query shorter than 2 characters is refused and the state stays. Otherwise a loading reply precedes the outcome. Found results are stored with offset 0, and the intended first message (`PagedResults` at offset 0, with every track counted) is shown; handlers/search_handlers.py:67 as written formats only the page (see Findings). No results, a timeout or an error clear the conversation. |
| SearchHandlers.ShowPage | handlers/search_handlers.py:145-150 | It builds the intended message for the page at the offset. |
| SearchHandlers.SelectTrack | handlers/search_handlers.py:84-119 | The intended pick by id (Findings row handlers/search_handlers.py:88): the pressed button's track becomes a single-track request and the search state is left. An id naming no result is refused with nothing changed. Unparsable data changes nothing. The source's reading of the number as a 1-based position is `SearchHandlers.PickAsWritten`. |
| SearchHandlers.NavigateSearchResults | handlers/search_handlers.py:121-154 | Prev and next store the clamped offset and show that page's intended message and keyboard. Cancel deletes the message and clears the conversation. Any other action changes nothing. |
| SearchHandlers.NavigationShowsFullPage | handlers/search_handlers.py:132-147 | A shown navigation button, pressed from a reachable offset, leads to a reachable offset. The page there is listed in full under a valid page number. |
| SearchLegacy.FormatSearchResults | handlers/search.py:153-165 | The loop builds the message for the list it is given, with no page number. |
| SearchLegacy.PageListing | handlers/search.py:145 | At a reachable offset, the page's tracks are listed in order with artist lines. The count shown is the page's length. |
| SearchLegacy.ProcessSearchQuery | handlers/search.py:40-79 | A query shorter than 3 characters is refused. Otherwise a loading reply precedes the outcome. Found results are stored and shown. No results or a timeout clear the conversation. An error raises at the undefined `logger`, leaving only the loading reply and the state unchanged. |
| SearchLegacy.FirstPageListing | handlers/search.py:65 | The first message lists the first five results (or all of them), numbered from 1. |
| SearchLegacy.SelectTrack | handlers/search.py:82-117 | The first stored track whose id is the pressed number becomes a single-track request and the search state is left. No such track means a refusal with nothing changed. Unparsable data changes nothing. |
| SearchLegacy.NavigateSearchResults | handlers/search.py:120-151 | Prev and next store the clamped offset and show that page. Cancel deletes the message and clears the conversation. Any other action changes nothing. |
| Fsm.SelectedTrackData | handlers/search.py:98-104 | The chosen result becomes the URL, type `track`, title, count 1 and artist. The search results, query, offset and re-download keys are kept. |
| Fsm.Conversation.constructor | handlers/search.py:15-17 | A new conversation has no state and no data. |
| Fsm.Conversation.Clear | handlers/search.py:60 | `state.clear()` drops the state and every key. |
| Admin.IsAdmin | handlers/admin.py:13-17 | A user is the administrator iff `ADMIN_ID` is non-zero and equals their id. An `ADMIN_ID` of 0 admits nobody. |
| Admin.DefaultAdmin | handlers/admin.py:11 | With the default `ADMIN_ID`, exactly user 7021944306 is the administrator. |
| Admin.AnnouncementOfCommand | handlers/admin.py:38 | For a command followed by a body that does not repeat it, the announcement is the stripped body. |
| Admin.BareCommandIsEmpty | handlers/admin.py:38-42 | The bare command leaves an empty announcement, which is refused. |
| Admin.AnnouncementHeader | handlers/admin.py:148-154 | The header is one of the three known headers. |
| Admin.HeaderByLanguage | handlers/admin.py:148-154 | The three languages get three different headers. Any other language gets the Ukrainian one. |
| Admin.PersonalTextCarries | handlers/admin.py:68 | Each personal message starts with the loudspeaker and ends with the unchanged announcement. |
| Admin.TallyStep | handlers/admin.py:64-84 | Counting one more send is one more turn of the loop. |
| Admin.CountsAppend | handlers/admin.py:71-83 | One more send adds one to the deliveries iff it arrived, and one to the blocked iff its error names a block. |
| Admin.PauseStep | handlers/admin.py:74-75 | One more success adds a pause exactly when it makes a multiple of ten. |
| Admin.CountKeepsMeaning | handlers/admin.py:71-83 | One turn counts the send once, as a success, a block or a failure, and keeps one pause per ten successes. |
| Admin.TallyMeaning | handlers/admin.py:60-90 | Every send is counted once. The successes are the deliveries and the blocked are the errors naming a block. The three counters add up to the number of users, with one pause per ten successes. |
| Admin.Deliveries | handlers/admin.py:64-70 | There is one outcome per user, in order. |
| Admin.Sends | handlers/admin.py:64-70 | There is one message per user, in order, with the announcement under the header of that user's language. |
| Admin.Broadcast | handlers/admin.py:60-84 | The loop's counters are the tally of the users' outcomes, and it sends exactly the per-user messages. |
| Admin.SeenAsWritten | utils.py:8-15 | As written, every send looks delivered to the loop, since the helper swallows the error. |
| Admin.AllDelivered | handlers/admin.py:71 | When every send arrives, all of them are counted as deliveries. |
| Admin.AsWrittenAllSucceed | handlers/admin.py:70-84 | As written, every user counts as a success, and failed and blocked always read 0. |
| Admin.BlockedInError | handlers/admin.py:77-84 | An error whose lower-cased text contains "blocked" counts as a blocked user. |
| Admin.BlockedUserMiscounted | handlers/admin.py:70 | A user who blocked the bot is reported as a success as written, and as blocked by the loop's own `except`. |
| Admin.AnnounceAsWritten | handlers/admin.py:19-25 | As registered, `/announce` gets one reply: no rights iff the user is not the administrator, and "panel works" iff they are. |
| Admin.Announce | handlers/admin.py:27-96 | The second handler's replies and sends are the ones its specification functions describe. |
| Admin.AnnounceMeaning | handlers/admin.py:27-96 | The broadcast runs exactly when the administrator announces a non-empty text to a non-empty user list. Each user then gets one message carrying the text, and the report's counters add up to the number of users. |
| Admin.AnnounceShadowed | handlers/admin.py:19-28 | As registered, the administrator is only told the panel works, where the second handler would have announced the broadcast. |
| Admin.CleanupReplies | handlers/admin.py:140-146 | The administrator is told cleaning is pending. Anybody else is refused. |
| Config.SkippedLines | config.py:13-14 | Blank lines, comments and lines without `=` set nothing. |
| Config.SplitAtFirstEquals | config.py:15 | A line is cut at the first `=`, so the value may contain `=`. |
| Config.EnvLineRoundTrip | config.py:13-17 | `NAME=value` is read back as that pair. |
| Config.Assignments | config.py:12-17 | There is one parsed assignment per line, in order. |
| Config.LoadStep | config.py:12-24 | Reading from a line on is applying that line, then reading the rest. |
| Config.NeverOverrides | config.py:18-19 | Reading `.env` never removes or changes a variable that was already set. |
| Config.LoadedFromLines | config.py:15-19 | Every variable the file adds has the name and value of one of its lines. |
| Config.FirstLineWins | config.py:18-19 | When no assignment raises, a new variable takes the value of the first line naming it. |
| Config.EmptyNameStopsReading | config.py:19-24 | A line with an empty name raises in the assignment and ends the reading with nothing more loaded. |
| Config.Environment.constructor | config.py:5 | The environment starts as given. |
| Config.Environment.LoadEnvFile | config.py:5-24 | A missing file changes nothing. Otherwise the variables become what reading the lines defines. |
| Config.Environment.ReadLine | config.py:13-19 | One line is read: the environment moves as that line's assignment says. When it raises, nothing changes. |
| Config.AfterStep | config.py:12-24 | After one line, the rest of the reading continues from the new environment, or stops where the assignment raised. |
| Config.Environment.Assign | config.py:18-19 | Exactly one line's step is made. It raises iff the name or value is illegal, and then nothing changes. |
| Config.Environment.Start | config.py:26-109 | The environment after the guarded `.env` step, and the start-up outcome derived from it. |
| Config.DeployedIgnoresDotEnv | config.py:27-28 | When RENDER, KOYEB or HEROKU is set non-empty, `.env` is never read. |
| Config.HostOf | config.py:31-35 | A marker counts when present, even if empty. KOYEB wins over RENDER, RENDER over HEROKU, HEROKU over PYTHONANYWHERE. |
| Config.LocalIffNoMarker | config.py:35 | The local settings apply iff none of the four markers is present. |
| Config.EmptyMarker | config.py:27-35 | An empty RENDER still lets `.env` be read, and a hosted platform's settings still apply. |
| Config.MarkerFromDotEnv | config.py:27-35 | A KOYEB marker set only by `.env` still selects KOYEB. |
| Config.DebugOnlyLocal | config.py:38 | Debugging is on only on the local machine. It is on for `TRUE` in any case there, and off when DEBUG is unset. |
| Config.SettingsFor | config.py:56-106 | Hosted platforms run at INFO without a YouTube timeout. The local machine always has one. |
| Config.LocalDefaults | config.py:97-106 | Locally, with nothing overridden: 50 tracks, 500 MB, 600 s, 10 retries, a 60 s timeout, no proxy, DEBUG. |
| Config.HostedLimitsOrdered | config.py:57-95 | From most to least generous: KOYEB, RENDER, PYTHONANYWHERE, HEROKU. |
| Config.StartupOf | config.py:38-109 | A configured start has a token and the detected host, and debugs only locally. |
| Config.NoTokenNoStart | config.py:41-54 | Without a token the bot never starts. |
| Config.HostedStart | config.py:39-109 | With a token and no overrides, a hosted platform starts with its settings and the default administrator. |

## Left out

- Telegram I/O through aiogram: messages, edits, alerts and documents become `Reply`/`Event` values, and their localised texts are not modelled, only which text is meant.
- yt-dlp and the network: a download is an oracle giving the directory listing afterwards, and success means an `.mp3` appears (services/downloader.py:31-32). The SoundCloud API calls of services/search.py (search_tracks' request and get_track_info, 69-84) are oracles giving the decoded results. URL quoting and JSON decoding are not modelled.
- SQLite: the tables are maps and sequences in `Store.Database`. The SQL text, the `created_at` timestamps (replaced by a strictly increasing clock) and date parsing and formatting are not modelled.
- The MD5 playlist id and zip compression: parts are planned on the summed input sizes, and the bytes of the archive are not modelled. services/file_processor.py's create_zip (1-19) is not modelled for that reason.
- Floating point: `file_size_mb`, `total_size_mb` and the `/stats_full` handler (handlers/admin.py:98-138) are not modelled.
- Timing: `asyncio.sleep` pauses are only counted, and `wait_for` timeouts are an outcome of the search oracle. Concurrent handlers are taken one at a time. In particular, handlers/download.py:311-317 awaits the "congrats" message before `start_processing(next_user)`, so a request arriving during that await finds `is_processing()` false and starts its own download. `Download.DownloadBot.ServeNext` makes that hand-off atomic.
- config.py's setup_logging (131-143) and print_startup_info (146-169): logging and printing only.
- services/search_improved.py: search_tracks, _improved_parse_track_info and get_track_info are not part of this model. No handler calls this alternative parser. Its artist heuristic (`_extract_artist_from_title` and `_fallback_artist_extraction`, 94-141) is modelled by `ArtistSplit`.
- utils.py: send_document_to_user, send_ad_message, safe_delete_message and safe_callback_answer are Telegram calls with error logging. They are not modelled beyond the replies they stand for.
- main_bot.py: the handlers other than the search flow (start, help, stats, history, language, agreement, subscription, the selected-track download, link handling), setup_database, main and import_handlers' fallback are not modelled. The same flows are modelled from handlers/.
- handlers/search.py and handlers/search_handlers.py: search_command only sends a prompt and is modelled by `SearchHandlers.StartSearch`'s state change.
- Python's `int()` accepting underscores and non-ASCII digits, and `lower()` beyond ASCII, are not modelled.
- `.env` file errors (a missing or unreadable file, a decoding error) are not modelled. The ValueError of an illegal assignment is (`MainBot.Loaded`, `Config.Illegal`). Exceptions raised by the Telegram answer calls are not modelled.
- Store.Database.constructor: models `init_db` on a new database file only. Restarting on an existing file, where `CREATE TABLE IF NOT EXISTS` keeps the old rows, is not modelled.
- JSON and yt-dlp `null`: a `Slot` is either missing or holds a value, so a key present with `null` (for example `"title": null` at services/playlist_preview.py:67-72, which reaches `clean_filename(None)`) is not modelled.
- Download: `safe_db_operation` raising (handlers/download.py:28-34, 97, 132, 152-161, 223, 277-281) is not modelled. The store is either present and answers, or absent. The store calls of `get_content_info` are modelled raising (`PlaylistPreview.StoreFault`), but the re-download confirmation in the bot scenarios assumes a store that answers.
- FileProcessor.CreateZipParts / Download.SendZipParts: whether a part file can be created is decided only by whether the base path's directory is among the directories given. So a title with '/' ("AC/DC - Thunderstruck") fails as in the source. A `current_zip.write` that fails (services/file_processor.py:100-106) is not modelled. Neither is a creation that fails for one part but not another (a full disk, permissions).
- FileProcessor: the recursion of `os.walk` (services/file_processor.py:51) is not modelled. The tree becomes one flat listing, the same listing that the non-recursive `get_files_in_directory` (21-36) reads.
- Text.ParseInt: Python's `int()` also accepts surrounding whitespace. The model rejects it, so `SelectedIndex` and `SelectedId` refuse a callback such as `select_track_ 2`, which the source accepts.
- handlers/start.py, handlers/queue.py, bot.py, check_db.py, test_db.py, keyboards/language_kb.py, keyboards/confirm.py and services/__init__.py are not part of this model.

## Findings

| source | as written | input that shows it | evidently intended | confidence | as-written member | corrected member |
|---|---|---|---|---|---|---|
| main_bot.py:272 | The page `tracks[off:off+5]` is passed with `off`, and format_search_results slices it again (main_bot.py:117) | ten results, press next: offset 5 lists no track and says 5 found, page 2/1 | the full results are passed, listing tracks 6-10 of 10 on page 2/2 | not executed | MainBot.NavigatedResultsAsWrittenLosesPage | MainBot.ResultsMeaning |
| handlers/search_handlers.py:88 | The number after `select_track_` is read as a 1-based position, but the keyboard shown (keyboards/main.py:40) carries the track id | one result with id 2: its own button is refused | the track whose id the button carries is picked | not executed | SearchHandlers.PickAsWrittenMissesTrack | SearchHandlers.PickFindsPressedTrack |
| handlers/admin.py:70 | send_message_to_user (utils.py:8-15) swallows every error, so the broadcast loop's `except` never runs | a user who blocked the bot is reported as a success, and blocked reads 0 | failed and blocked sends are counted as such | not executed | Admin.BlockedUserMiscounted | Admin.TallyMeaning |
| handlers/admin.py:19-25 | A first `/announce` handler is registered before the broadcasting one and handles every `/announce` | the administrator sends `/announce hi` with users present: only "panel works" comes back | the broadcast handler runs | not executed | Admin.AnnounceShadowed | Admin.AnnounceMeaning |
| handlers/search_handlers.py:147 | The page is formatted as if it were the whole list, so the count and the page total describe the page | ten results, press next: 5 found, page 2/1 | 10 found, page 2/2 | not executed | SearchHandlers.FormatOfPageAsWrittenSecondPage | SearchHandlers.PagedResultsMeaning |
| handlers/search_handlers.py:67 | The first page is formatted as if it were the whole list | ten results: 5 found, one page in total | 10 found, page 1/2 | not executed | SearchHandlers.FormatOfPageAsWritten | SearchHandlers.PagedResultsMeaning |
| main_bot.py:221 | `tracks[:5]` is formatted as if it were the whole list | ten results: 5 found, page 1/1 | 10 found, page 1/2 | not executed | MainBot.FirstResultsAsWritten | MainBot.ResultsMeaning |
