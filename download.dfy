/**
 * handlers/download.py: the link handler, the re-download confirmation and
 * the download pipeline that runs behind the single-slot queue of core.py.
 *
 * The bot is a step machine. `CallbackDownload` either queues a request or
 * starts it; `CompleteDownload` delivers the job that is in flight, given
 * the listing of the temporary directory after yt-dlp has run and the
 * directories in which a file can be created (for the archive parts), and then
 * serves the next waiting user. What the bot sends is an abstract event log
 * (one `Delivery` per message or document), so the texts of the
 * translations do not matter here.
 */
module Download {
  import opened Wrappers
  import opened Text
  import opened Queue
  import opened Fsm
  import opened Content
  import FP = FileProcessor
  import Store
  import PlaylistPreview
  import Utils

  /** Declared by the handler module but never read. */
  const MaxTracksForZip := 15
  const ZipPartSizeMb := 45
  /** The byte ceiling passed to `create_zip_parts`. */
  const ZipPartSize: nat := ZipPartSizeMb * 1024 * 1024

  /** The callback data `download_zip` / `download_tracks`. */
  datatype DownloadType = ZipDownload | TracksDownload

  /** What `set_user_data` stashes for a waiting user: the FSM data, the button and the language. */
  datatype Job = Job(userData: FsmData, downloadType: DownloadType, lang: string)

  /** The user whose `start_download` is running, and what it was started with. */
  datatype Serving = Serving(user: UserId, job: Job)

  datatype Event =
    | SendLinkFirst
    | Queued(position: nat, size: nat)
    | YourTurn(lang: string)
    | JobError
    | DownloadStarted(title: string)
    | DownloadFailed
    | NothingDownloaded
    | SendingTracks(total: nat)
    | TrackDocument(file: string, title: string, index: nat, total: nat)
    | AllTracksSent
    | ArchiveFailed
    | SendingArchive(parts: nat)
    | PartDocument(path: string, title: string, index: nat, total: nat)
    | ArchiveSent(parts: nat)
    | AdSent
    | AlreadyDownloaded(previousTitle: Option<string>, previousDate: Option<nat>)
    | Preview(kind: ContentType, title: string, user: string, trackCount: Option<int>)
    | LookupFailed(text: string)
    | ErrorAlert
    | ChooseFormat
    | Canceled

  /** One message or document sent to one user. */
  datatype Delivery = Delivery(to: UserId, event: Event)

  function Addressed(u: UserId, events: seq<Event>): (r: seq<Delivery>)
    ensures |r| == |events|
    ensures forall i :: 0 <= i < |events| ==> r[i] == Delivery(u, events[i])
  {
    seq(|events|, i requires 0 <= i < |events| => Delivery(u, events[i]))
  }

  /** The `type` value stored in the FSM data. */
  function TypeName(kind: ContentType): string
  {
    match kind
    case TrackContent => "track"
    case PlaylistContent => "playlist"
    case ErrorContent => "error"
  }

  /**
   * `os.path.join(dir, name)` for two components: an absolute `name` wins,
   * otherwise a separator is inserted unless `dir` is empty or already ends
   * with one.
   */
  function JoinPath(dir: string, name: string): (r: string)
    ensures EndsWith(r, name)
    ensures StartsWith(name, "/") ==> r == name
    ensures !StartsWith(name, "/") ==> StartsWith(r, dir)
  {
    if StartsWith(name, "/") then name
    else
      var r := if dir == [] || EndsWith(dir, "/") then dir + name else dir + "/" + name;
      assert r[..|dir|] == dir;
      assert r[|r| - |name|..] == name;
      r
  }

  // ---------------------------------------------------------------- one job

  /** `download_playlist` reports success when some name in the directory ends with ".mp3". */
  predicate Downloaded(listing: seq<FP.FileEntry>)
  {
    exists k :: 0 <= k < |listing| && EndsWith(listing[k].name, ".mp3")
  }

  /** The names `get_files_in_directory` returns for the download directory, in listing order. */
  function Files(listing: seq<FP.FileEntry>): seq<string>
  {
    FP.Names(FP.RegularFiles(listing))
  }

  /** The job gets as far as sending something: both keys are there, the url is set, and files arrived. */
  predicate Delivers(job: Job, listing: seq<FP.FileEntry>)
  {
    && job.userData.url.Present? && job.userData.url.value.Some?
    && job.userData.playlistTitle.Present?
    && Downloaded(listing) && Files(listing) != []
  }

  /** A delivered job is written to history and statistics unless it is a confirmed re-download. */
  predicate Records(job: Job, listing: seq<FP.FileEntry>)
  {
    Delivers(job, listing) && job.userData.isRedownload != Present(true)
  }

  /** Where the archive parts are written: the title joined onto the system temporary directory. */
  function ZipBase(systemTemp: string, title: string): string
  {
    JoinPath(systemTemp, title)
  }

  /** The parts `create_zip_parts` returns for the download, `dirs` being the directories a file can be created in. */
  function ArchivePlan(listing: seq<FP.FileEntry>, systemTemp: string, dirs: set<string>, title: string): seq<FP.ZipPart>
  {
    FP.ZipResult(FP.Existing(listing), ZipBase(systemTemp, title), ZipPartSize, dirs)
  }

  /** One document per downloaded file, captioned with its 1-based number out of all of them. */
  function TrackDocs(files: seq<string>, title: string): (r: seq<Event>)
    ensures |r| == |files|
    ensures forall i :: 0 <= i < |files| ==> r[i] == TrackDocument(files[i], title, i + 1, |files|)
  {
    seq(|files|, i requires 0 <= i < |files| => TrackDocument(files[i], title, i + 1, |files|))
  }

  /** One document per archive part, captioned with its 1-based number out of all parts. */
  function PartDocs(parts: seq<FP.ZipPart>, title: string): (r: seq<Event>)
    ensures |r| == |parts|
    ensures forall i :: 0 <= i < |parts| ==> r[i] == PartDocument(parts[i].path, title, i + 1, |parts|)
  {
    seq(|parts|, i requires 0 <= i < |parts| => PartDocument(parts[i].path, title, i + 1, |parts|))
  }

  /** The tracks branch: a count, one document per file, and a closing note. */
  function TrackEvents(files: seq<string>, title: string): (ev: seq<Event>)
    ensures |ev| == |files| + 2 && ev[0] == SendingTracks(|files|) && ev[|files| + 1] == AllTracksSent
    ensures forall i :: 1 <= i <= |files| ==> ev[i] == TrackDocument(files[i - 1], title, i, |files|)
  {
    [SendingTracks(|files|)] + TrackDocs(files, title) + [AllTracksSent]
  }

  /** `send_zip_parts`: a failure note when no part was made, otherwise a count, each part, and a closing note. */
  function ArchiveEvents(parts: seq<FP.ZipPart>, title: string): (ev: seq<Event>)
    ensures parts == [] <==> ev == [ArchiveFailed]
    ensures parts != [] ==>
              && |ev| == |parts| + 2 && ev[0] == SendingArchive(|parts|) && ev[|parts| + 1] == ArchiveSent(|parts|)
              && forall i :: 1 <= i <= |parts| ==> ev[i] == PartDocument(parts[i - 1].path, title, i, |parts|)
  {
    if parts == [] then [ArchiveFailed]
    else [SendingArchive(|parts|)] + PartDocs(parts, title) + [ArchiveSent(|parts|)]
  }

  /** Everything `start_download` sends to the user for one job. */
  function JobEvents(job: Job, listing: seq<FP.FileEntry>, systemTemp: string, dirs: set<string>): seq<Event>
  {
    var d := job.userData;
    if d.url.Absent? || d.playlistTitle.Absent? then [JobError]
    else
      var title := d.playlistTitle.value;
      if d.url.value.None? || !Downloaded(listing) then [DownloadStarted(title), DownloadFailed]
      else if Files(listing) == [] then [DownloadStarted(title), NothingDownloaded]
      else [DownloadStarted(title)] + Payload(job.downloadType, listing, systemTemp, dirs, title) + [AdSent]
  }

  /** What a job that downloaded files sends between the start notice and the ad, by the button pressed. */
  function Payload(kind: DownloadType, listing: seq<FP.FileEntry>, systemTemp: string, dirs: set<string>, title: string): seq<Event>
  {
    match kind
    case TracksDownload => TrackEvents(Files(listing), title)
    case ZipDownload => ArchiveEvents(ArchivePlan(listing, systemTemp, dirs, title), title)
  }

  /**
   * A job whose FSM data lacks a key fails before anything else is sent;
   * otherwise the first message names the title; the closing ad is sent
   * exactly when the job delivered something, and then it frames the
   * delivery for the button that was pressed.
   */
  lemma JobEventsOutcome(job: Job, listing: seq<FP.FileEntry>, systemTemp: string, dirs: set<string>)
    ensures var ev := JobEvents(job, listing, systemTemp, dirs);
            && ev != []
            && (job.userData.url.Absent? || job.userData.playlistTitle.Absent? <==> ev == [JobError])
            && (job.userData.url.Present? && job.userData.playlistTitle.Present? ==>
                  ev[0] == DownloadStarted(job.userData.playlistTitle.value))
            && (ev[|ev| - 1] == AdSent <==> Delivers(job, listing))
            && (Delivers(job, listing) ==>
                  var title := job.userData.playlistTitle.value;
                  ev == [DownloadStarted(title)] + Payload(job.downloadType, listing, systemTemp, dirs, title) + [AdSent])
  {
    var d := job.userData;
    var ev := JobEvents(job, listing, systemTemp, dirs);
    if d.url.Absent? || d.playlistTitle.Absent? {
      assert ev == [JobError];
    } else if !Delivers(job, listing) {
      assert |ev| == 2 && ev[1] != AdSent;
    } else {
      var title := d.playlistTitle.value;
      var p := Payload(job.downloadType, listing, systemTemp, dirs, title);
      assert ev == [DownloadStarted(title)] + p + [AdSent];
      assert ev[|ev| - 1] == AdSent;
    }
  }

  /**
   * The archive of a job: every part document carries the path
   * `<temp>/<title>.partNNN.zip` of its number.
   */
  lemma ArchivePartPaths(listing: seq<FP.FileEntry>, systemTemp: string, dirs: set<string>, title: string)
    ensures var parts := ArchivePlan(listing, systemTemp, dirs, title);
            var ev := ArchiveEvents(parts, title);
            forall i :: 1 <= i <= |parts| ==> ev[i].path == FP.PartPath(ZipBase(systemTemp, title), i)
  {
    var parts := ArchivePlan(listing, systemTemp, dirs, title);
    assert FP.Numbered(FP.ZipPlan(FP.Existing(listing), ZipBase(systemTemp, title), ZipPartSize), ZipBase(systemTemp, title));
  }

  /** A relative title is joined under the temporary directory with one '/'. */
  lemma JoinUnderTemp(systemTemp: string, title: string)
    requires systemTemp != [] && systemTemp[|systemTemp| - 1] != '/'
    requires title == [] || title[0] != '/'
    ensures ZipBase(systemTemp, title) == systemTemp + "/" + title
  {
    assert !StartsWith(title, "/") by {
      if |title| >= 1 { assert title[..1] == [title[0]]; }
    }
    assert !EndsWith(systemTemp, "/") by {
      assert systemTemp[|systemTemp| - 1..] == [systemTemp[|systemTemp| - 1]];
    }
  }

  /** The directory of `dir + "/" + tail` is `dir` when `tail` holds no '/' and `dir` does not end with one. */
  lemma DirOfJoined(dir: string, tail: string)
    requires dir != [] && dir[|dir| - 1] != '/'
    requires forall k :: 0 <= k < |tail| ==> tail[k] != '/'
    ensures FP.DirName(dir + "/" + tail) == dir
  {
    var head := dir + "/";
    assert dir + "/" + tail == head + tail;
    FP.SlashEndAppend(head, tail);
    assert (head + tail)[..FP.SlashEnd(head)] == head;
    assert head[|dir| - 1] != '/';
    assert head[..|head| - 1] == dir;
  }

  /**
   * A title without '/' puts the archive parts straight into the system
   * temporary directory, so they are created exactly when that directory is
   * one where files can be created.
   */
  lemma PlainTitleGoesToTemp(listing: seq<FP.FileEntry>, systemTemp: string, dirs: set<string>, title: string)
    requires systemTemp != [] && systemTemp[|systemTemp| - 1] != '/'
    requires forall k :: 0 <= k < |title| ==> title[k] != '/'
    ensures FP.DirName(ZipBase(systemTemp, title)) == systemTemp
    ensures systemTemp in dirs ==> ArchivePlan(listing, systemTemp, dirs, title) == FP.ZipPlan(FP.Existing(listing), ZipBase(systemTemp, title), ZipPartSize)
    ensures systemTemp !in dirs ==> ArchiveEvents(ArchivePlan(listing, systemTemp, dirs, title), title) == [ArchiveFailed]
  {
    JoinUnderTemp(systemTemp, title);
    DirOfJoined(systemTemp, title);
  }

  /**
   * A title of the form `sub/name`, such as one picked from the search
   * results (only links go through `clean_filename`), points the parts at
   * the directory `<temp>/sub`. yt-dlp's download directory is elsewhere,
   * so unless that directory happens to exist no part can be created and
   * the ZIP button sends only the failure note, whatever was downloaded.
   */
  lemma SlashInTitleFailsArchive(listing: seq<FP.FileEntry>, systemTemp: string, dirs: set<string>, sub: string, name: string)
    requires systemTemp != [] && systemTemp[|systemTemp| - 1] != '/'
    requires sub != [] && sub[0] != '/' && sub[|sub| - 1] != '/'
    requires forall k :: 0 <= k < |name| ==> name[k] != '/'
    requires systemTemp + "/" + sub !in dirs
    ensures FP.DirName(ZipBase(systemTemp, sub + "/" + name)) == systemTemp + "/" + sub
    ensures ArchiveEvents(ArchivePlan(listing, systemTemp, dirs, sub + "/" + name), sub + "/" + name) == [ArchiveFailed]
  {
    var title := sub + "/" + name;
    var dir := systemTemp + "/" + sub;
    JoinUnderTemp(systemTemp, title);
    assert systemTemp + "/" + title == dir + "/" + name;
    assert dir[|dir| - 1] == sub[|sub| - 1];
    DirOfJoined(dir, name);
  }

  /** "AC/DC - Thunderstruck" under /tmp: the parts would go to /tmp/AC, so the archive fails. */
  lemma ThunderstruckArchiveFails(listing: seq<FP.FileEntry>)
    ensures ArchiveEvents(ArchivePlan(listing, "/tmp", {"/tmp"}, "AC/DC - Thunderstruck"), "AC/DC - Thunderstruck") == [ArchiveFailed]
  {
    var name := "DC - Thunderstruck";
    assert forall k :: 0 <= k < |name| ==> name[k] in "DC -Thunderstruck";
    assert "AC/DC - Thunderstruck" == "AC" + "/" + name;
    assert "/tmp" + "/" + "AC" != "/tmp";
    SlashInTitleFailsArchive(listing, "/tmp", {"/tmp"}, "AC", name);
  }

  /** The files sent are exactly the names of the regular files in the listing. */
  lemma {:induction false} FilesMeaning(listing: seq<FP.FileEntry>)
    ensures forall f :: f in Files(listing) <==> exists e :: e in listing && e.isFile && e.name == f
  {
    var files := Files(listing);
    var regular := FP.RegularFiles(listing);
    forall f | f in files ensures exists e :: e in listing && e.isFile && e.name == f {
      var i :| 0 <= i < |files| && files[i] == f;
      assert regular[i] in regular;
    }
    forall f | exists e :: e in listing && e.isFile && e.name == f ensures f in files {
      var e :| e in listing && e.isFile && e.name == f;
      var i :| 0 <= i < |regular| && regular[i] == e;
      assert files[i] == f;
    }
  }

  /** `download_playlist`: the listing comprehension and its emptiness test. A missing url fails inside yt-dlp. */
  method DownloadPlaylist(url: Option<string>, listing: seq<FP.FileEntry>) returns (success: bool)
    ensures success <==> url.Some? && Downloaded(listing)
  {
    if url.None? {
      return false;
    }
    var count := 0;
    for k := 0 to |listing|
      invariant count > 0 <==> exists j :: 0 <= j < k && EndsWith(listing[j].name, ".mp3")
    {
      if EndsWith(listing[k].name, ".mp3") {
        count := count + 1;
      }
    }
    success := count > 0;
  }

  /** The loop of the tracks branch. */
  method SendTracks(files: seq<string>, title: string) returns (events: seq<Event>)
    ensures events == TrackEvents(files, title)
  {
    var total := |files|;
    events := [SendingTracks(total)];
    for idx := 0 to total
      invariant events == [SendingTracks(total)] + TrackDocs(files, title)[..idx]
    {
      assert TrackDocs(files, title)[..idx + 1] == TrackDocs(files, title)[..idx] + [TrackDocument(files[idx], title, idx + 1, total)];
      events := events + [TrackDocument(files[idx], title, idx + 1, total)];
    }
    assert TrackDocs(files, title)[..total] == TrackDocs(files, title);
    events := events + [AllTracksSent];
  }

  /**
   * `send_zip_parts`: the parts the packer managed to create are sent; when
   * it created none (no files, or no part file could be created where
   * `base` points) only the failure note is sent.
   */
  method SendZipParts(listing: seq<FP.FileEntry>, base: string, dirs: set<string>, title: string) returns (events: seq<Event>)
    ensures events == ArchiveEvents(FP.ZipResult(FP.Existing(listing), base, ZipPartSize, dirs), title)
  {
    var parts := FP.CreateZipParts(FP.Existing(listing), base, ZipPartSize, dirs);
    if parts == [] {
      return [ArchiveFailed];
    }
    var docs := CaptionParts(parts, title);
    events := [SendingArchive(|parts|)] + docs + [ArchiveSent(|parts|)];
  }

  /** The loop of `send_zip_parts` over the parts. */
  method CaptionParts(parts: seq<FP.ZipPart>, title: string) returns (docs: seq<Event>)
    ensures docs == PartDocs(parts, title)
  {
    var total := |parts|;
    docs := [];
    for i := 0 to total
      invariant docs == PartDocs(parts, title)[..i]
    {
      assert PartDocs(parts, title)[..i + 1] == PartDocs(parts, title)[..i] + [PartDocument(parts[i].path, title, i + 1, total)];
      docs := docs + [PartDocument(parts[i].path, title, i + 1, total)];
    }
    assert PartDocs(parts, title)[..total] == PartDocs(parts, title);
  }

  /** The messages of `start_download` for one job, in the order it sends them. */
  method StartDownload(job: Job, listing: seq<FP.FileEntry>, systemTemp: string, dirs: set<string>) returns (events: seq<Event>)
    ensures events == JobEvents(job, listing, systemTemp, dirs)
  {
    var d := job.userData;
    if d.url.Absent? || d.playlistTitle.Absent? {
      return [JobError];
    }
    var title := d.playlistTitle.value;
    events := [DownloadStarted(title)];
    var success := DownloadPlaylist(d.url.value, listing);
    if !success {
      return events + [DownloadFailed];
    }
    var files := FP.GetFilesInDirectory(FP.Existing(listing));
    if files == [] {
      return events + [NothingDownloaded];
    }
    var body;
    match job.downloadType {
      case TracksDownload =>
        body := SendTracks(files, title);
      case ZipDownload =>
        body := SendZipParts(listing, ZipBase(systemTemp, title), dirs, title);
    }
    events := events + body + [AdSent];
  }

  // ---------------------------------------------------------------- the bot

  /** The notice `process_next_in_queue` sends to the head of the queue, when the head has a stash. */
  function TurnNotice(waiting: seq<UserId>, stash: map<UserId, Job>): (r: seq<Delivery>)
    ensures |r| <= 1
    ensures r != [] <==> waiting != [] && waiting[0] in stash
  {
    if waiting != [] && waiting[0] in stash then [Delivery(waiting[0], YourTurn(stash[waiting[0]].lang))] else []
  }

  /**
   * The history row written at the end of `start_download`: one, with the
   * number of files, for a delivered job that is not a confirmed
   * re-download, and none otherwise.
   */
  function HistoryRows(served: Serving, listing: seq<FP.FileEntry>, clock: nat): (rows: seq<Store.HistoryRow>)
    ensures |rows| <= 1
    ensures rows != [] <==> Records(served.job, listing)
    ensures rows != [] ==> rows[0].userId == served.user && rows[0].tracksCount == |Files(listing)|
  {
    if Records(served.job, listing) then
      var d := served.job.userData;
      [Store.HistoryRow(served.user, d.url.value.value, d.playlistTitle.value, |Files(listing)|, clock)]
    else []
  }

  /** The statistics row that goes with the history row, one clock tick later. */
  function StatRows(served: Serving, listing: seq<FP.FileEntry>, clock: nat): (rows: seq<Store.StatRow>)
    ensures |rows| <= 1
    ensures rows != [] <==> Records(served.job, listing)
    ensures rows != [] ==> rows[0].actionType == "download" && rows[0].tracksCount == |Files(listing)|
  {
    if Records(served.job, listing) then [Store.StatRow(served.user, "download", |Files(listing)|, clock + 1)] else []
  }

  /** The `safe_db_operation` writes at the end of `start_download`; nothing happens without a database. */
  method RecordDownload(db: Store.Database?, served: Serving, listing: seq<FP.FileEntry>)
    requires db != null ==> db.Valid()
    modifies db
    ensures db != null ==> db.Valid() && db.users == old(db.users) && db.cache == old(db.cache)
    ensures db != null ==> db.history == old(db.history) + HistoryRows(served, listing, old(db.clock))
    ensures db != null ==> db.statistics == old(db.statistics) + StatRows(served, listing, old(db.clock))
  {
    if db != null && Records(served.job, listing) {
      var d := served.job.userData;
      var n := |Files(listing)|;
      db.AddDownloadHistory(served.user, d.url.value.value, d.playlistTitle.value, n);
      db.AddStatistics(served.user, "download", n);
    }
  }

  class DownloadBot {
    const queue: QueueManager<Job>
    /** `db_manager.get_db()`; null when no database is configured. */
    const db: Store.Database?
    /** `tempfile.gettempdir()` */
    const systemTemp: string
    var log: seq<Delivery>
    var inFlight: Option<Serving>
    /**
     * Users started by `process_next_in_queue` whose frame has not returned
     * yet, outermost first: each frame removes its user's stash when the
     * chain of downloads it started comes to an end.
     */
    var pending: seq<UserId>

    /** Holds between steps, including while the slot is being handed on. */
    ghost predicate Consistent()
      reads this, queue, db
    {
      && queue.Valid()
      && (db != null ==> db.Valid())
      && (queue.processing <==> inFlight.Some?)
      && (inFlight.Some? ==> queue.currentUser == Some(inFlight.value.user))
      && (forall v :: v in queue.queue ==> v > 0 && v in queue.userData)
      && (forall v :: v in queue.userData ==> v in queue.queue || v in pending)
    }

    /** Between steps: a free slot means nobody is waiting and every stash is gone. */
    ghost predicate Valid()
      reads this, queue, db
    {
      Consistent() && (inFlight.None? ==> queue.queue == [] && pending == [] && queue.userData == map[])
    }

    constructor (db: Store.Database?, systemTemp: string)
      requires db != null ==> db.Valid()
      ensures Valid() && fresh(queue)
      ensures this.db == db && this.systemTemp == systemTemp
      ensures log == [] && inFlight == None
    {
      queue := new QueueManager<Job>();
      this.db := db;
      this.systemTemp := systemTemp;
      log := [];
      inFlight := None;
      pending := [];
    }

    /** `get_user_language` behind `safe_db_operation`: "ua" without a database or for an unknown user. */
    function Language(u: UserId): string
      reads this, db
    {
      if db == null then Store.DefaultLanguage
      else match Store.FindUser(db.users, u)
        case Some(row) => row.language
        case None => Store.DefaultLanguage
    }

    method LanguageOf(u: UserId) returns (lang: string)
      ensures lang == Language(u)
    {
      lang := Store.DefaultLanguage;
      if db != null {
        lang := db.GetUserLanguage(u);
      }
    }

    /**
     * `callback_download`. Without a link in the FSM data the user is asked
     * for one; while the slot is taken the request is queued with its stash
     * and the user is told the position; otherwise the job starts at once.
     * Telegram user ids are positive.
     */
    method CallbackDownload(u: UserId, data: FsmData, kind: DownloadType)
      requires Valid() && u > 0
      modifies this, queue
      ensures Valid()
      ensures data.url.Absent? ==>
                && log == old(log) + [Delivery(u, SendLinkFirst)] && inFlight == old(inFlight)
                && queue.queue == old(queue.queue) && queue.userData == old(queue.userData) && pending == old(pending)
      ensures data.url.Present? && old(inFlight).Some? ==>
                && queue.queue == Enqueue(old(queue.queue), u)
                && queue.userData == old(queue.userData)[u := Job(data, kind, Language(u))]
                && log == old(log) + [Delivery(u, Queued(Position(queue.queue, u), |queue.queue|))]
                && inFlight == old(inFlight) && pending == old(pending)
      ensures data.url.Present? && old(inFlight).None? ==>
                && inFlight == Some(Serving(u, Job(data, kind, Language(u))))
                && queue.queue == [] && queue.userData == map[] && pending == [] && log == old(log)
    {
      if data.url.Absent? {
        log := log + [Delivery(u, SendLinkFirst)];
        return;
      }
      var lang := LanguageOf(u);
      var busy := queue.IsProcessing();
      if busy {
        QueueRequest(u, Job(data, kind, lang));
      } else {
        queue.StartProcessing(u);
        inFlight := Some(Serving(u, Job(data, kind, lang)));
      }
    }

    /** The busy branch of `callback_download`: `add_to_queue`, `set_user_data`, and the position message. */
    method QueueRequest(u: UserId, job: Job)
      requires Valid() && inFlight.Some? && u > 0
      modifies this, queue
      ensures Valid()
      ensures queue.queue == Enqueue(old(queue.queue), u) && queue.userData == old(queue.userData)[u := job]
      ensures log == old(log) + [Delivery(u, Queued(Position(queue.queue, u), |queue.queue|))]
      ensures inFlight == old(inFlight) && pending == old(pending)
    {
      var position := queue.AddToQueue(u);
      queue.SetUserData(u, job);
      var size := queue.GetQueueSize();
      log := log + [Delivery(u, Queued(position, size))];
      PositionOfIndex(queue.queue, position - 1);
    }

    /**
     * `process_next_in_queue`: nothing while the slot is taken; with a
     * waiting user, that user is told it is their turn and started; with
     * nobody left, the chain of frames returns and each removes its user's
     * stash. Every waiting user has a stash here, so the source's early
     * return for a user without one does not arise.
     */
    method ProcessNextInQueue()
      requires Consistent()
      modifies this, queue
      ensures Valid()
      ensures old(inFlight).Some? ==>
                && inFlight == old(inFlight) && log == old(log) && pending == old(pending)
                && queue.queue == old(queue.queue) && queue.userData == old(queue.userData)
      ensures old(inFlight).None? && old(queue.queue) == [] ==>
                inFlight == None && log == old(log) && pending == [] && queue.queue == [] && queue.userData == map[]
      ensures old(inFlight).None? && old(queue.queue) != [] ==>
                var next := old(queue.queue)[0];
                var job := old(queue.userData)[next];
                && inFlight == Some(Serving(next, job))
                && log == old(log) + [Delivery(next, YourTurn(job.lang))]
                && queue.queue == old(queue.queue)[1..] && queue.userData == old(queue.userData)
                && pending == old(pending) + [next]
    {
      var busy := queue.IsProcessing();
      if busy {
        return;
      }
      var next := queue.GetNextUser();
      assert queue.queue != [] ==> queue.queue[0] in queue.queue;
      if next.None? || next.value == 0 {
        Unwind();
        return;
      }
      ServeNext(next.value);
    }

    /**
     * The serving branch of `process_next_in_queue`: the head is told it is
     * their turn and started, as one step. The source awaits the notice
     * before `start_processing` (handlers/download.py:311-317); a request
     * arriving in between is not modelled.
     */
    method ServeNext(user: UserId)
      requires Consistent() && inFlight.None? && queue.queue != [] && user == queue.queue[0]
      modifies this, queue
      ensures Valid()
      ensures var job := old(queue.userData)[user];
              && inFlight == Some(Serving(user, job))
              && log == old(log) + [Delivery(user, YourTurn(job.lang))]
              && queue.queue == old(queue.queue)[1..] && queue.userData == old(queue.userData)
              && pending == old(pending) + [user]
    {
      assert user in queue.queue;
      var stash := queue.GetUserData(user);
      var job := stash.value;
      log := log + [Delivery(user, YourTurn(job.lang))];
      assert Position(queue.queue, user) == 1;
      queue.StartProcessing(user);
      pending := pending + [user];
      inFlight := Some(Serving(user, job));
    }

    /** The `finally` clauses of the pending frames, innermost first. */
    method Unwind()
      requires Consistent() && inFlight.None? && queue.queue == []
      modifies this, queue
      ensures Valid()
      ensures pending == [] && queue.userData == map[]
      ensures inFlight == old(inFlight) && log == old(log) && queue.queue == old(queue.queue)
    {
      var i := |pending|;
      assert pending[..i] == pending;
      while i > 0
        invariant 0 <= i <= |pending|
        invariant queue.Valid() && queue.queue == [] && !queue.processing
        invariant forall v :: v in queue.userData ==> v in pending[..i]
        invariant inFlight == old(inFlight) && log == old(log)
      {
        i := i - 1;
        assert pending[..i + 1] == pending[..i] + [pending[i]];
        queue.RemoveUserData(pending[i]);
      }
      assert pending[..i] == [];
      assert forall v :: v !in queue.userData;
      pending := [];
    }

    /**
     * The rest of `start_download` for the job in flight, given the
     * directory listing after the download: its messages, the history and
     * statistics rows, then the hand-off to the next waiting user.
     */
    method CompleteDownload(listing: seq<FP.FileEntry>, dirs: set<string>)
      requires Valid() && inFlight.Some?
      modifies this, queue, db
      ensures Valid()
      ensures var served := old(inFlight).value;
              log == old(log) + Addressed(served.user, JobEvents(served.job, listing, systemTemp, dirs))
                     + TurnNotice(old(queue.queue), old(queue.userData))
      ensures old(queue.queue) != [] ==>
                var next := old(queue.queue)[0];
                && next in old(queue.userData)
                && inFlight == Some(Serving(next, old(queue.userData)[next]))
                && queue.queue == old(queue.queue)[1..] && pending == old(pending) + [next]
      ensures old(queue.queue) == [] ==> inFlight == None && pending == [] && queue.userData == map[]
      ensures db != null ==> db.users == old(db.users) && db.cache == old(db.cache)
      ensures db != null ==> db.history == old(db.history) + HistoryRows(old(inFlight).value, listing, old(db.clock))
      ensures db != null ==> db.statistics == old(db.statistics) + StatRows(old(inFlight).value, listing, old(db.clock))
    {
      var served := inFlight.value;
      var events := StartDownload(served.job, listing, systemTemp, dirs);
      log := log + Addressed(served.user, events);
      RecordDownload(db, served, listing);
      HandOff();
    }

    /** The `finally` of `start_download`: `finish_processing`, then `process_next_in_queue`. */
    method HandOff()
      requires Valid() && inFlight.Some?
      modifies this, queue
      ensures Valid()
      ensures log == old(log) + TurnNotice(old(queue.queue), old(queue.userData))
      ensures old(queue.queue) != [] ==>
                var next := old(queue.queue)[0];
                && next in old(queue.userData)
                && inFlight == Some(Serving(next, old(queue.userData)[next]))
                && queue.queue == old(queue.queue)[1..] && pending == old(pending) + [next]
      ensures old(queue.queue) == [] ==> inFlight == None && pending == [] && queue.userData == map[]
    {
      assert queue.queue != [] ==> queue.queue[0] in queue.queue;
      queue.FinishProcessing();
      inFlight := None;
      ProcessNextInQueue();
    }
  }

  // ---------------------------------------------------------------- the link handlers

  /**
   * The reply to a link that gets looked up: one message, either the
   * lookup error with the FSM data untouched, or a preview of a track or
   * playlist (the count is shown for a playlist only) whose link, type,
   * title and count are what the FSM data now holds.
   */
  ghost predicate PreviewAnswer(url: string, replies: seq<Event>, before: FsmData, after: FsmData)
  {
    && |replies| == 1
    && match replies[0]
       case LookupFailed(_) => after == before
       case Preview(kind, title, _, count) =>
         && kind != ErrorContent && (count.Some? <==> kind == PlaylistContent)
         && after.trackCount.Present? && (count.Some? ==> after.trackCount.value == count.value)
         && after == before.(url := Present(Some(url)), contentType := Present(TypeName(kind)),
                             playlistTitle := Present(title), trackCount := after.trackCount)
       case _ => false
  }

  /**
   * `playlist_handler`: a message that is not a link is ignored; a link
   * this user already has in history is answered with the newest such
   * download and remembered for confirmation, without a lookup; any other
   * link is looked up and answered by `ShowPreview`.
   */
  method PlaylistHandler(u: UserId, text: string, db: Store.Database?, conv: Conversation, fault: PlaylistPreview.StoreFault,
                         extraction: PlaylistPreview.Extraction, texts: PlaylistPreview.Texts)
    returns (replies: seq<Event>)
    requires db != null ==> db.Valid()
    modifies db, conv
    ensures db != null ==> db.Valid() && db.users == old(db.users) && db.history == old(db.history) && db.statistics == old(db.statistics)
    ensures !Utils.IsValidUrl(Strip(text)) ==>
              replies == [] && conv.data == old(conv.data) && (db != null ==> db.cache == old(db.cache))
    ensures Utils.IsValidUrl(Strip(text)) && db != null && Store.Latest(old(db.history), u, Strip(text)).Some? ==>
              var row := Store.Latest(old(db.history), u, Strip(text)).value;
              && replies == [AlreadyDownloaded(Some(row.title), Some(row.createdAt))]
              && conv.data == old(conv.data).(redownloadUrl := Present(Strip(text)))
              && db.cache == old(db.cache)
    ensures Utils.IsValidUrl(Strip(text)) && !(db != null && Store.Latest(old(db.history), u, Strip(text)).Some?) ==>
              PreviewAnswer(Strip(text), replies, old(conv.data), conv.data)
  {
    var url := Strip(text);
    if !Utils.IsValidUrl(url) {
      return [];
    }
    if db != null {
      var found, title, date := db.IsPlaylistDownloaded(u, url);
      Store.LatestIsNewest(db.history, u, url);
      if found {
        conv.data := conv.data.(redownloadUrl := Present(url));
        return [AlreadyDownloaded(title, date)];
      }
    }
    replies := ShowPreview(url, db, conv, fault, extraction, texts);
  }

  /** The lookup and reply half of `playlist_handler`; a cached link is previewed from the cache. */
  method ShowPreview(url: string, db: Store.Database?, conv: Conversation, fault: PlaylistPreview.StoreFault,
                     extraction: PlaylistPreview.Extraction, texts: PlaylistPreview.Texts)
    returns (replies: seq<Event>)
    requires db != null ==> db.Valid()
    modifies db, conv
    ensures db != null ==> db.Valid() && db.users == old(db.users) && db.history == old(db.history) && db.statistics == old(db.statistics)
    ensures PreviewAnswer(url, replies, old(conv.data), conv.data)
    ensures db != null && !fault.LookupRaises? && url in old(db.cache) && old(db.cache)[url].playlist.kind != ErrorContent ==>
              replies[0].Preview? && replies[0].title == old(db.cache)[url].playlist.title
  {
    var info, _ := PlaylistPreview.GetContentInfo(url, true, db, fault, extraction, texts);
    if info.kind == ErrorContent {
      return [LookupFailed(info.title)];
    }
    conv.data := conv.data.(url := Present(Some(url)), contentType := Present(TypeName(info.kind)),
                            playlistTitle := Present(info.title), trackCount := Present(info.trackCount));
    var shownCount := if info.kind == PlaylistContent then Some(info.trackCount) else None;
    replies := [Preview(info.kind, info.title, info.user, shownCount)];
  }

  /**
   * `confirm_redownload`: without a remembered link the user gets an
   * alert; otherwise the link is looked up again, and on success the FSM
   * data is marked as a re-download, so the job that follows writes no
   * history.
   */
  method ConfirmRedownload(db: Store.Database?, conv: Conversation, fault: PlaylistPreview.StoreFault,
                           extraction: PlaylistPreview.Extraction, texts: PlaylistPreview.Texts)
    returns (replies: seq<Event>)
    requires db != null ==> db.Valid()
    modifies db, conv
    ensures db != null ==> db.Valid() && db.users == old(db.users) && db.history == old(db.history) && db.statistics == old(db.statistics)
    ensures old(conv.data.redownloadUrl).Absent? || old(conv.data.redownloadUrl).value == [] ==>
              replies == [ErrorAlert] && conv.data == old(conv.data) && (db != null ==> db.cache == old(db.cache))
    ensures old(conv.data.redownloadUrl).Present? && old(conv.data.redownloadUrl).value != [] ==>
              && |replies| == 1
              && match replies[0]
                 case LookupFailed(_) => conv.data == old(conv.data)
                 case ChooseFormat =>
                   && conv.data.isRedownload == Present(true)
                   && conv.data.url == Present(Some(old(conv.data.redownloadUrl).value))
                   && conv.data.redownloadUrl == old(conv.data.redownloadUrl)
                   && conv.data.playlistTitle.Present? && conv.data.trackCount.Present?
                 case _ => false
  {
    var remembered := conv.data.redownloadUrl;
    if remembered.Absent? || remembered.value == [] {
      return [ErrorAlert];
    }
    var url := remembered.value;
    var info, _ := PlaylistPreview.GetContentInfo(url, true, db, fault, extraction, texts);
    if info.kind == ErrorContent {
      return [LookupFailed(info.error.GetOr("Ошибка загрузки"))];
    }
    conv.data := conv.data.(url := Present(Some(url)), contentType := Present(TypeName(info.kind)),
                            playlistTitle := Present(info.title), trackCount := Present(info.trackCount),
                            isRedownload := Present(true));
    replies := [ChooseFormat];
  }

  /** `cancel_redownload`: the conversation is cleared and the user told so. */
  method CancelRedownload(conv: Conversation) returns (replies: seq<Event>)
    modifies conv
    ensures conv.phase == NoPhase && conv.data == EmptyData
    ensures replies == [Canceled]
  {
    conv.Clear();
    replies := [Canceled];
  }

  // ---------------------------------------------------------------- clients

  /**
   * With the slot free, `a` starts at once and `b` and `c` queue behind it
   * at positions 1 and 2.
   */
  method QueueBehindBusySlot(bot: DownloadBot, a: UserId, b: UserId, c: UserId, data: FsmData)
    requires bot.Valid() && bot.inFlight.None?
    requires a > 0 && b > 0 && c > 0 && b != c && data.url.Present?
    modifies bot, bot.queue
  {
    bot.CallbackDownload(a, data, TracksDownload);
    assert bot.inFlight.value.user == a;
    bot.CallbackDownload(b, data, TracksDownload);
    assert bot.log[|bot.log| - 1] == Delivery(b, Queued(1, 1));
    bot.CallbackDownload(c, data, ZipDownload);
    assert bot.queue.queue == [b, c];
    assert bot.log[|bot.log| - 1] == Delivery(c, Queued(2, 2));
  }

  /** Each completion hands the slot to the next in line, in arrival order. */
  method ServeInArrivalOrder(bot: DownloadBot, b: UserId, c: UserId, listing: seq<FP.FileEntry>, dirs: set<string>)
    requires bot.Valid() && bot.inFlight.Some? && bot.queue.queue == [b, c]
    modifies bot, bot.queue, bot.db
  {
    bot.CompleteDownload(listing, dirs);
    assert bot.inFlight.value.user == b && bot.queue.queue == [c];
    bot.CompleteDownload(listing, dirs);
    assert bot.inFlight.value.user == c && bot.queue.queue == [];
  }

  /** A confirmed re-download delivers the files again but adds no history row. */
  method RedownloadLeavesHistory(bot: DownloadBot, u: UserId, conv: Conversation, extraction: PlaylistPreview.Extraction,
                                 texts: PlaylistPreview.Texts, listing: seq<FP.FileEntry>, dirs: set<string>)
    requires bot.Valid() && bot.inFlight.None? && bot.db != null && u > 0
    requires conv.data.redownloadUrl.Present? && conv.data.redownloadUrl.value != []
    modifies bot, bot.queue, bot.db, conv
  {
    var replies := ConfirmRedownload(bot.db, conv, PlaylistPreview.Answers, extraction, texts);
    if replies == [ChooseFormat] {
      var before := bot.db.history;
      bot.CallbackDownload(u, conv.data, TracksDownload);
      bot.CompleteDownload(listing, dirs);
      assert bot.db.history == before;
    }
  }
}
