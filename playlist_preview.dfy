/**
 * services/playlist_preview.py: what the bot learns about a link before it
 * downloads it. The extractor (yt_dlp's `extract_info`) is a parameter: its
 * outcome is given to the lookup as an `Extraction`.
 */
module PlaylistPreview {
  import opened Wrappers
  import opened Text
  import opened Content
  import Store

  // ---------------------------------------------------------------- clean_filename

  /** The characters of the pattern `[<>:"/\\|?*]`. */
  predicate Forbidden(c: char)
  {
    c in {'<', '>', ':', '"', '/', '\\', '|', '?', '*'}
  }

  predicate NoForbidden(s: string)
  {
    forall k :: 0 <= k < |s| ==> !Forbidden(s[k])
  }

  /** `re.sub(r'[<>:"/\\|?*]', '', s)`: every forbidden character dropped, the others kept in order. */
  function RemoveForbidden(s: string): (r: string)
    ensures |r| <= |s|
    ensures NoForbidden(r)
    ensures forall c :: c in r <==> c in s && !Forbidden(c)
    ensures NoForbidden(s) ==> r == s
  {
    if s == [] then ""
    else (if Forbidden(s[0]) then "" else [s[0]]) + RemoveForbidden(s[1..])
  }

  /** The longest title `clean_filename` keeps whole; longer ones keep 47 characters and "...". */
  const MaxTitle := 50

  /** The stripped text between removing the forbidden characters and shortening. */
  function Cleaned(filename: string): string
  {
    Strip(RemoveForbidden(filename))
  }

  /** A title `clean_filename` would return unchanged. */
  predicate IsClean(s: string)
  {
    s != [] && |s| <= MaxTitle && NoForbidden(s) && !IsSpace(s[0]) && !IsSpace(s[|s| - 1])
  }

  /** Every character `clean_filename` keeps comes from its input and is not a forbidden one. */
  lemma CleanedComesFromInput(filename: string)
    ensures forall c :: c in Cleaned(filename) ==> c in filename && !Forbidden(c)
    ensures NoForbidden(Cleaned(filename))
  {
    StripKeeps(RemoveForbidden(filename));
  }

  /** `clean_filename(filename)`, with `unknown` the translated 'unknown' placeholder. */
  function CleanFilename(filename: string, unknown: string): (r: string)
    ensures filename == [] || Cleaned(filename) == [] ==> r == unknown
    ensures filename != [] && Cleaned(filename) != [] ==>
              && IsClean(r)
              && (|Cleaned(filename)| <= MaxTitle ==> r == Cleaned(filename))
              && (|Cleaned(filename)| > MaxTitle ==> r == Cleaned(filename)[..47] + "...")
  {
    if filename == [] then unknown
    else
      var cleaned := Cleaned(filename);
      CleanedComesFromInput(filename);
      if cleaned == [] then unknown
      else if |cleaned| > MaxTitle then
        var shortened := cleaned[..47] + "...";
        assert forall k :: 0 <= k < 47 ==> shortened[k] == cleaned[k];
        shortened
      else cleaned
  }

  /** Cleaning an already clean title, or a clean placeholder, changes nothing: `clean_filename` is idempotent. */
  lemma CleanFilenameIdempotent(filename: string, unknown: string)
    requires IsClean(unknown)
    ensures CleanFilename(CleanFilename(filename, unknown), unknown) == CleanFilename(filename, unknown)
  {
    var r := CleanFilename(filename, unknown);
    assert IsClean(r);
    assert RemoveForbidden(r) == r;
    StripNoEdgeSpace(r);
  }

  // ---------------------------------------------------------------- extractor result

  /** One element of `entries`; `ignoreerrors` lets the extractor put `None` there. */
  datatype EntryInfo = NullEntry | EntryDict(title: Slot<string>)

  /**
   * The `entries` key: missing, `None`, a list, or another iterable (a
   * generator, which is truthy and is not a `list`).
   */
  datatype Entries = NoEntries | NullEntries | ListOf(items: seq<EntryInfo>) | Iterable(items: seq<EntryInfo>)

  /** The keys of the extractor's dict that the lookup reads. */
  datatype Info = Info(
    kind: Slot<string>,
    entries: Entries,
    playlistCount: Slot<int>,
    title: Slot<string>,
    uploader: Slot<string>,
    channel: Slot<string>)

  /** What the extractor call produced: it raised, returned nothing, or returned a dict. */
  datatype Extraction = Raised(message: string) | NoInfo | Extracted(info: Info)

  /**
   * How the store behaves during one lookup: it answers, or
   * `get_cached_playlist` or `cache_playlist` raises with the given text.
   */
  datatype StoreFault = Answers | LookupRaises(message: string) | CacheRaises(message: string)

  /** The translated placeholders: 'unknown_playlist', 'unknown_artist' and 'unknown'. */
  datatype Texts = Texts(unknownPlaylist: string, unknownArtist: string, unknown: string)

  /** Classification: the content type and the track count the dict reports. */
  function Classify(info: Info): (r: (ContentType, int))
    ensures r.0 != ErrorContent
    ensures info.kind == Present("playlist") ==> r.0 == PlaylistContent
    ensures info.kind != Present("playlist") ==>
              (r.0 == PlaylistContent <==> info.entries.ListOf? && |info.entries.items| > 1)
    ensures r.0 == TrackContent ==> r.1 == 1
    ensures info.entries.ListOf? && r.0 == PlaylistContent ==> r.1 == |info.entries.items|
    ensures info.kind == Present("playlist") && info.entries.NoEntries? ==> r.1 == 0
    ensures info.kind == Present("playlist") && (info.entries.NullEntries? || info.entries.Iterable?) ==>
              r.1 == info.playlistCount.GetOr(1)
  {
    if info.kind == Present("playlist") then
      match info.entries
      case NoEntries => (PlaylistContent, 0)
      case ListOf(items) => (PlaylistContent, |items|)
      case _ => (PlaylistContent, info.playlistCount.GetOr(1))
    else if info.entries.ListOf? && |info.entries.items| > 1 then (PlaylistContent, |info.entries.items|)
    else (TrackContent, 1)
  }

  /** Python truthiness of `info.get('entries')`. */
  predicate EntriesTruthy(e: Entries)
  {
    match e
    case NoEntries => false
    case NullEntries => false
    case ListOf(items) => items != []
    case Iterable(_) => true
  }

  /** The manifest's default for an entry without a title. */
  function TrackPlaceholder(i: nat): string
  {
    "Track " + NatToString(i + 1)
  }

  /**
   * The cached track manifest, or `None` when building it raises (a `None`
   * entry has no `.get`).
   */
  function Manifest(info: Info, kind: ContentType): (r: Option<seq<string>>)
  {
    if kind == PlaylistContent && EntriesTruthy(info.entries) then
      var items := info.entries.items;
      if exists k :: 0 <= k < |items| && items[k].NullEntry? then None
      else Some(seq(|items|, i requires 0 <= i < |items| => items[i].title.GetOr(TrackPlaceholder(i))))
    else Some([info.title.GetOr(UnknownTrackTitle)])
  }

  const UnknownTrackTitle := "Unknown Track"

  /** A playlist manifest has one title per entry, the placeholder numbering entries from 1; anything else has one title. */
  lemma ManifestMeaning(info: Info, kind: ContentType)
    ensures kind == PlaylistContent && EntriesTruthy(info.entries) ==>
              (Manifest(info, kind).None? <==> exists k :: 0 <= k < |info.entries.items| && info.entries.items[k].NullEntry?)
    ensures kind == PlaylistContent && EntriesTruthy(info.entries) && Manifest(info, kind).Some? ==>
              var m := Manifest(info, kind).value;
              && |m| == |info.entries.items|
              && forall i :: 0 <= i < |m| ==>
                   m[i] == (if info.entries.items[i].title.Present? then info.entries.items[i].title.value else TrackPlaceholder(i))
    ensures !(kind == PlaylistContent && EntriesTruthy(info.entries)) ==>
              Manifest(info, kind) == Some([info.title.GetOr(UnknownTrackTitle)])
  {
  }

  /** When the entries are a non-empty list of dicts, the manifest lists as many titles as the reported track count. */
  lemma ManifestAgreesWithCount(info: Info)
    requires info.entries.ListOf? && info.entries.items != []
    requires forall k :: 0 <= k < |info.entries.items| ==> info.entries.items[k].EntryDict?
    ensures Manifest(info, Classify(info).0).Some?
    ensures |Manifest(info, Classify(info).0).value| == Classify(info).1
  {
  }

  /** The placeholders are distinct for distinct entries. */
  lemma TrackPlaceholdersDistinct(i: nat, j: nat)
    requires i != j
    ensures TrackPlaceholder(i) != TrackPlaceholder(j)
  {
    DigitsOfNat(i + 1);
    DigitsOfNat(j + 1);
    assert TrackPlaceholder(i)[6..] == NatToString(i + 1);
    assert TrackPlaceholder(j)[6..] == NatToString(j + 1);
  }

  /** Python's `a or b` on optional strings: the first non-empty one. */
  function FirstNonEmpty(a: Slot<string>, b: Slot<string>, default: string): (r: string)
    ensures a.Present? && a.value != [] ==> r == a.value
    ensures !(a.Present? && a.value != []) && b.Present? && b.value != [] ==> r == b.value
    ensures !(a.Present? && a.value != []) && !(b.Present? && b.value != []) ==> r == default
  {
    if a.Present? && a.value != [] then a.value
    else if b.Present? && b.value != [] then b.value
    else default
  }

  /** The dict a successful lookup returns. */
  function Described(url: string, info: Info, texts: Texts): (r: ContentInfo)
    ensures r.kind == Classify(info).0 && r.trackCount == Classify(info).1
    ensures r.url == Some(url) && r.error == None
    ensures r.user == FirstNonEmpty(info.uploader, info.channel, texts.unknownArtist)
    ensures var t := CleanFilename(info.title.GetOr(""), texts.unknown);
            r.title == (if t == [] then texts.unknownPlaylist else t)
  {
    var (kind, count) := Classify(info);
    var t := CleanFilename(info.title.GetOr(""), texts.unknown);
    ContentInfo(kind, if t == [] then texts.unknownPlaylist else t, count,
                FirstNonEmpty(info.uploader, info.channel, texts.unknownArtist), Some(url), None)
  }

  /** The dict of a failed lookup: type 'error', no tracks, the placeholders, and the exception's text if there was one. */
  function Failure(texts: Texts, error: Option<string>): (r: ContentInfo)
    ensures r.kind == ErrorContent && r.trackCount == 0 && r.url == None && r.error == error
    ensures r.title == texts.unknownPlaylist && r.user == texts.unknownArtist
  {
    ContentInfo(ErrorContent, texts.unknownPlaylist, 0, texts.unknownArtist, None, error)
  }

  /** `str(e)` for the `UnboundLocalError` a cache hit raises when no message was given. */
  const UnboundLoadingMessage := "cannot access local variable 'loading_msg' where it is not associated with a value"

  /** `str(e)` for the `AttributeError` a `None` entry raises while the manifest is built. */
  const NoneEntryMessage := "'NoneType' object has no attribute 'get'"

  /**
   * `get_content_info`. `hasMessage` says whether a message was passed (and a
   * "getting info" notice sent); `fault` says whether a store call raises;
   * `extractorCalled` says whether the extractor was consulted. Every
   * exception is caught by the outer `try` and gives the error dict.
   */
  method GetContentInfo(url: string, hasMessage: bool, db: Store.Database?, fault: StoreFault, extraction: Extraction, texts: Texts)
    returns (info: ContentInfo, extractorCalled: bool)
    requires db != null ==> db.Valid()
    modifies db
    ensures db != null ==> db.Valid()
    ensures db != null ==> db.users == old(db.users) && db.history == old(db.history) && db.statistics == old(db.statistics)
    // A lookup that raises gives the error dict with its text, before the extractor.
    ensures db != null && fault.LookupRaises? ==>
              !extractorCalled && info == Failure(texts, Some(fault.message)) && db.cache == old(db.cache)
    // A cache hit answers from the cache, without the extractor; with no message to delete it raises instead.
    ensures db != null && !fault.LookupRaises? && url in old(db.cache) ==>
              && !extractorCalled && db.cache == old(db.cache)
              && info == (if hasMessage then old(db.cache)[url].playlist else Failure(texts, Some(UnboundLoadingMessage)))
    ensures !(db != null && (fault.LookupRaises? || url in old(db.cache))) ==> extractorCalled
    ensures !(db != null && (fault.LookupRaises? || url in old(db.cache))) && extraction.Raised? ==>
              info == Failure(texts, Some(extraction.message)) && (db != null ==> db.cache == old(db.cache))
    ensures !(db != null && (fault.LookupRaises? || url in old(db.cache))) && extraction.NoInfo? ==>
              info == Failure(texts, None) && (db != null ==> db.cache == old(db.cache))
    ensures db == null && extraction.Extracted? ==> info == Described(url, extraction.info, texts)
    // With a store, a described link is cached with its manifest; a manifest or a cache write that raises caches nothing.
    ensures db != null && !fault.LookupRaises? && url !in old(db.cache) && extraction.Extracted? ==>
              var x := extraction.info;
              var m := Manifest(x, Classify(x).0);
              && (m.Some? && !fault.CacheRaises? ==>
                    info == Described(url, x, texts) && db.cache == old(db.cache)[url := Store.CacheRow(info, m.value)])
              && (m.Some? && fault.CacheRaises? ==> info == Failure(texts, Some(fault.message)) && db.cache == old(db.cache))
              && (m.None? ==> info == Failure(texts, Some(NoneEntryMessage)) && db.cache == old(db.cache))
  {
    extractorCalled := false;
    if db != null {
      if fault.LookupRaises? {
        return Failure(texts, Some(fault.message)), false;
      }
      var cached := db.GetCachedPlaylist(url);
      if cached.Some? {
        if hasMessage {
          return cached.value.playlist, false;
        }
        return Failure(texts, Some(UnboundLoadingMessage)), false;
      }
    }
    extractorCalled := true;
    match extraction
    case Raised(message) =>
      info := Failure(texts, Some(message));
    case NoInfo =>
      info := Failure(texts, None);
    case Extracted(x) =>
      var described := Described(url, x, texts);
      if db != null {
        var manifest := Manifest(x, described.kind);
        if manifest.None? {
          return Failure(texts, Some(NoneEntryMessage)), true;
        }
        if fault.CacheRaises? {
          return Failure(texts, Some(fault.message)), true;
        }
        db.CachePlaylist(url, described, manifest.value);
      }
      info := described;
  }

  /** Cache-first: a second lookup of a link the first one described is answered from the cache, without the extractor. */
  method LookupTwice(url: string, db: Store.Database, x: Info, later: Extraction, texts: Texts)
    requires db.Valid() && url !in db.cache
    requires Manifest(x, Classify(x).0).Some?
    modifies db
  {
    var first, calledFirst := GetContentInfo(url, true, db, Answers, Extracted(x), texts);
    assert calledFirst && first == Described(url, x, texts);
    var second, calledSecond := GetContentInfo(url, true, db, Answers, later, texts);
    assert !calledSecond && second == first;
  }
}
