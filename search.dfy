/**
 * services/search.py: turning the SoundCloud search API's JSON items into
 * the track records the bot keeps, with the availability filter, the
 * defaults for missing fields and the "M:SS" duration text.
 */
module Search {
  import opened Wrappers
  import opened Text

  /** The `user` field of an item: JSON `null`, or an object that may carry a `username`. */
  datatype UserField = NullUser | UserObject(username: Slot<string>)

  /** One element of the API's `collection`, each field present or absent. */
  datatype Item = Item(
    id: Slot<int>,
    title: Slot<string>,
    user: Slot<UserField>,
    duration: Slot<int>,
    permalinkUrl: Slot<string>,
    policy: Slot<string>,
    streamable: Slot<bool>)

  /** The track dict built for each result (`artwork_url` is carried by the source but never read). */
  datatype Track = Track(
    id: Option<int>,
    title: string,
    artist: string,
    duration: int,
    durationFormatted: string,
    permalinkUrl: Option<string>,
    streamable: bool)

  const UnknownTrack := "Unknown Track"
  const UnknownArtist := "Unknown Artist"

  /** `f"{ms // 60000}:{(ms % 60000) // 1000:02d}"` for a non-zero duration, "0:00" otherwise. */
  function FormatDuration(ms: int): string
  {
    if ms != 0 then IntToString(ms / 60000) + ":" + ZeroPad((ms % 60000) / 1000, 2) else "0:00"
  }

  /**
   * The duration text is minutes, a colon and exactly two second digits;
   * the seconds are below 60, and together they are the duration rounded
   * down to whole seconds.
   */
  lemma FormatDurationMeaning(ms: int)
    ensures ms == 0 ==> FormatDuration(ms) == "0:00"
    ensures ms != 0 ==>
      var minutes := ms / 60000;
      var seconds := (ms % 60000) / 1000;
      var r := FormatDuration(ms);
      && 0 <= seconds < 60
      && |r| == |IntToString(minutes)| + 3
      && r[..|IntToString(minutes)|] == IntToString(minutes)
      && r[|IntToString(minutes)|] == ':'
      && AllDigits(r[|IntToString(minutes)| + 1..])
      && DigitsValue(r[|IntToString(minutes)| + 1..]) == seconds
      && minutes * 60000 + seconds * 1000 <= ms < minutes * 60000 + (seconds + 1) * 1000
  {
    if ms != 0 {
      var seconds := (ms % 60000) / 1000;
      DurationArithmetic(ms);
      NatToStringShort(seconds);
      ZeroPadValue(seconds, 2);
      ColonShape(IntToString(ms / 60000), ZeroPad(seconds, 2));
    }
  }

  /** Whole minutes and the seconds left over bracket the duration to the second. */
  lemma DurationArithmetic(ms: int)
    ensures var minutes := ms / 60000;
      var seconds := (ms % 60000) / 1000;
      && 0 <= seconds < 60
      && minutes * 60000 + seconds * 1000 <= ms < minutes * 60000 + (seconds + 1) * 1000
  {
    var minutes := ms / 60000;
    var rest := ms % 60000;
    var seconds := rest / 1000;
    assert ms == minutes * 60000 + rest;
    assert rest == seconds * 1000 + rest % 1000;
  }

  /** The parts of `m + ":" + p`. */
  lemma ColonShape(m: string, p: string)
    ensures var r := m + ":" + p;
      && |r| == |m| + 1 + |p|
      && r[..|m|] == m && r[|m|] == ':' && r[|m| + 1..] == p
  {
  }

  /** Python truthiness of an optional integer field read with a default of 0. */
  function DurationOf(item: Item): int
  {
    item.duration.GetOr(0)
  }

  /**
   * The dict both parsers build; `None` when the `user` field is `null`,
   * where `.get('username', …)` raises and the item is dropped.
   */
  function BuildTrack(item: Item): (r: Option<Track>)
    ensures r.Some? <==> item.user != Present(NullUser)
  {
    match item.user
    case Present(NullUser) => None
    case _ =>
      var artist := match item.user
        case Present(UserObject(name)) => name.GetOr(UnknownArtist)
        case _ => UnknownArtist;
      Some(Track(
        id := match item.id case Present(i) => Some(i) case Absent => None,
        title := item.title.GetOr(UnknownTrack),
        artist := artist,
        duration := DurationOf(item),
        durationFormatted := FormatDuration(DurationOf(item)),
        permalinkUrl := match item.permalinkUrl case Present(u) => Some(u) case Absent => None,
        streamable := item.streamable.GetOr(false)))
  }

  /** The availability filter of `_parse_search_results`. */
  predicate Available(item: Item)
  {
    item.policy == Present("ALLOW") && item.streamable == Present(true)
  }

  /** What one item of the collection contributes to the result. */
  function ParseItem(item: Item): Option<Track>
  {
    if !Available(item) then None else BuildTrack(item)
  }

  /** The result of `_parse_search_results` over the items seen so far. */
  function Parsed(items: seq<Item>): seq<Track>
  {
    if items == [] then []
    else
      var last := ParseItem(items[|items| - 1]);
      Parsed(items[..|items| - 1]) + (if last.Some? then [last.value] else [])
  }

  /**
   * An item survives exactly when it is allowed, streamable and has a
   * non-null user; a survivor carries the item's fields or their defaults.
   */
  lemma ParseItemMeaning(item: Item)
    ensures ParseItem(item).Some? <==>
      item.policy == Present("ALLOW") && item.streamable == Present(true) && item.user != Present(NullUser)
    ensures ParseItem(item).Some? ==>
      var t := ParseItem(item).value;
      && t.streamable
      && t.title == (if item.title.Present? then item.title.value else UnknownTrack)
      && (item.user == Absent || item.user == Present(UserObject(Absent)) ==> t.artist == UnknownArtist)
      && (item.user.Present? && item.user.value.UserObject? && item.user.value.username.Present? ==>
            t.artist == item.user.value.username.value)
      && (item.duration == Absent ==> t.duration == 0 && t.durationFormatted == "0:00")
  {
  }

  /** Surviving items keep their input order: the result grows by one track per surviving item. */
  lemma {:induction false} ParsedOrder(items: seq<Item>, i: nat)
    requires i < |items|
    ensures Parsed(items[..i + 1]) ==
      Parsed(items[..i]) + (if ParseItem(items[i]).Some? then [ParseItem(items[i]).value] else [])
    ensures |Parsed(items)| <= |items|
  {
    assert items[..i + 1][..i] == items[..i];
    ParsedLength(items);
  }

  lemma {:induction false} ParsedLength(items: seq<Item>)
    ensures |Parsed(items)| <= |items|
  {
    if items != [] {
      ParsedLength(items[..|items| - 1]);
    }
  }

  /** Every returned track was allowed and streamable. */
  lemma {:induction false} ParsedAllStreamable(items: seq<Item>)
    ensures forall k :: 0 <= k < |Parsed(items)| ==> Parsed(items)[k].streamable
  {
    if items != [] {
      ParsedAllStreamable(items[..|items| - 1]);
    }
  }

  /** `_parse_search_results`: the loop over `data.get('collection', [])`. */
  method ParseSearchResults(collection: Slot<seq<Item>>) returns (tracks: seq<Track>)
    ensures tracks == Parsed(collection.GetOr([]))
  {
    var items := collection.GetOr([]);
    tracks := [];
    for i := 0 to |items|
      invariant tracks == Parsed(items[..i])
    {
      assert items[..i + 1][..i] == items[..i];
      var item := items[i];
      if !Available(item) {
        continue;
      }
      var track := BuildTrack(item);
      if track.None? {
        continue;
      }
      tracks := tracks + [track.value];
    }
    assert items[..|items|] == items;
  }

  /** `_parse_track_info`: the same dict without the availability filter. */
  function ParseTrackInfo(data: Item): (r: Option<Track>)
    ensures r.Some? <==> data.user != Present(NullUser)
    ensures r.Some? ==> r.value.streamable == (data.streamable == Present(true))
  {
    BuildTrack(data)
  }

  /** How the HTTP request of `search_tracks` ended. */
  datatype Response = Reply(status: int, collection: Slot<seq<Item>>) | TimedOut | Failed

  /** `search_tracks`: the parsed results of a 200 reply, and `[]` for any other outcome. */
  method SearchTracks(response: Response) returns (tracks: seq<Track>)
    ensures response.Reply? && response.status == 200 ==> tracks == Parsed(response.collection.GetOr([]))
    ensures !(response.Reply? && response.status == 200) ==> tracks == []
  {
    match response
    case Reply(status, collection) =>
      if status == 200 {
        tracks := ParseSearchResults(collection);
      } else {
        tracks := [];
      }
    case TimedOut =>
      tracks := [];
    case Failed =>
      tracks := [];
  }
}
