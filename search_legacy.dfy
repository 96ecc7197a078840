/**
 * handlers/search.py: the older `/search` flow. It refuses queries shorter
 * than three characters, picks the selected track by the id the keyboard
 * of keyboards/main.py carries, and formats a page without a page number.
 * Its error branch names a `logger` the file never defines.
 */
module SearchLegacy {
  import opened Wrappers
  import opened Text
  import opened Search
  import opened Fsm
  import opened Pagination
  import Keyboards

  // ----- format_search_results -----

  /**
   * `format_search_results(tracks, query, lang, offset)`: the query header,
   * one entry per given track numbered from `offset + 1` (titles cut at 40,
   * artists at 20, the artist line always present), the length of the list
   * it is given, and no page number. An empty list is not singled out.
   */
  function Format(tracks: seq<Track>, query: string, offset: int): Listing
  {
    Listing(query, Entries(tracks, offset, 20, None), |tracks|, None)
  }

  /** `format_search_results`, whose loop over the tracks is `ListEntries`. */
  method FormatSearchResults(tracks: seq<Track>, query: string, offset: int) returns (listing: Listing)
    ensures listing == Format(tracks, query, offset)
  {
    var entries := ListEntries(tracks, offset, 20, None);
    listing := Listing(query, entries, |tracks|, None);
  }

  /**
   * For the page at an offset the navigation keeps, the message lists the
   * page's tracks in order with their artist lines, and the count it
   * reports is the page's length: five, or all results when there are
   * fewer.
   */
  lemma PageListing(tracks: seq<Track>, query: string, offset: int)
    requires OffsetOk(offset, |tracks|)
    ensures var l := Format(Page(tracks, offset), query, offset);
      && l.found == |l.entries| == (if |tracks| < PageSize then |tracks| else PageSize)
      && (forall i :: 0 <= i < |l.entries| ==>
            && l.entries[i] == EntryOf(tracks[offset + i], offset + i + 1, 20, None)
            && l.entries[i].detail.Some?)
      && l.page.None?
  {
    PageFullAtOkOffset(tracks, offset);
    PageMeaning(tracks, offset);
  }

  // ----- handlers -----

  /**
   * What replaces the loading message. An error from the search raises
   * again in the `except` block, at the undefined `logger`, before any
   * message is edited.
   */
  function SearchReplies(query: string, outcome: SearchOutcome): seq<Reply>
  {
    match outcome
    case Found(tracks) =>
      if tracks == [] then [NoResults(query)]
      else [ShowResults(Format(Page(tracks, 0), query, 0), Keyboards.SelectionKeyboard(tracks, 0))]
    case TimedOut => [SearchTimeout]
    case Raised => []
  }

  /**
   * `process_search_query` in the waiting-for-query state. A stripped query
   * of fewer than 3 characters is refused without searching; otherwise a
   * loading message precedes the outcome. Results are stored with offset 0
   * and their first five shown; no results or a timeout end the
   * conversation; an error leaves only the loading message, and the
   * conversation keeps waiting for a query with its data as it was.
   */
  method ProcessSearchQuery(conv: Conversation, text: string, outcome: SearchOutcome)
    returns (replies: seq<Reply>, searched: bool)
    requires conv.phase == WaitingQuery
    modifies conv
    ensures var query := Strip(text);
      && (searched <==> |query| >= 3)
      && (!searched ==> replies == [TooShort] && conv.phase == old(conv.phase) && conv.data == old(conv.data))
      && (searched ==> replies == [Loading] + SearchReplies(query, outcome))
      && (searched && Stored(outcome) ==>
            conv.phase == ShowingResults && conv.data == StoreResults(old(conv.data), outcome.tracks, query))
      && (searched && outcome.Raised? ==> conv.phase == old(conv.phase) && conv.data == old(conv.data))
      && (searched && !Stored(outcome) && !outcome.Raised? ==> conv.phase == NoPhase && conv.data == EmptyData)
  {
    var query := Strip(text);
    if |query| < 3 {
      return [TooShort], false;
    }
    searched := true;
    match outcome
    case Found(tracks) =>
      if tracks == [] {
        replies := [Loading, NoResults(query)];
        conv.Clear();
        return;
      }
      conv.data := StoreResults(conv.data, tracks, query);
      var first := PySlice(tracks, 0, PageSize);
      var listing := FormatSearchResults(first, query, 0);
      var kb := Keyboards.TrackSelectionKeyboard(tracks, 0);
      replies := [Loading, ShowResults(listing, kb)];
      conv.phase := ShowingResults;
    case TimedOut =>
      replies := [Loading, SearchTimeout];
      conv.Clear();
    case Raised =>
      replies := [Loading];
  }

  /** The first page lists the first five results (or all of them), numbered from 1. */
  lemma FirstPageListing(tracks: seq<Track>, query: string)
    requires tracks != []
    ensures var l := SearchReplies(query, Found(tracks))[0].listing;
      && |l.entries| == l.found == (if |tracks| < PageSize then |tracks| else PageSize)
      && forall i :: 0 <= i < |l.entries| ==> l.entries[i] == EntryOf(tracks[i], i + 1, 20, None)
  {
    var page := Page(tracks, 0);
    assert SearchReplies(query, Found(tracks))[0].listing == Format(page, query, 0);
    PageListing(tracks, query, 0);
  }

  /**
   * `select_track` in the showing-results state: the first stored track
   * whose id equals the number the button carries is made a single-track
   * download request and the search state is left; a number naming no
   * stored track is refused with the state unchanged; data whose third
   * field is not a number raises, and nothing is sent or changed.
   */
  method SelectTrack(conv: Conversation, data: string) returns (replies: seq<Reply>)
    requires conv.phase == ShowingResults
    modifies conv
    ensures match PickById(old(conv.data).searchResults.GetOr([]), data)
      case Unparsable => replies == [] && conv.phase == old(conv.phase) && conv.data == old(conv.data)
      case NotFound => replies == [SelectionError] && conv.phase == old(conv.phase) && conv.data == old(conv.data)
      case Picked(t) =>
        && replies == [TrackCard(t)]
        && conv.phase == NoPhase && conv.data == SelectedTrackData(old(conv.data), t)
  {
    var tracks := conv.data.searchResults.GetOr([]);
    match PickById(tracks, data)
    case Unparsable =>
      replies := [];
    case NotFound =>
      replies := [SelectionError];
    case Picked(t) =>
      conv.data := SelectedTrackData(conv.data, t);
      conv.phase := NoPhase;
      replies := [TrackCard(t)];
  }

  /**
   * `navigate_search_results` in the showing-results state: only the
   * second `_`-field is read and the offset comes from the stored state;
   * prev and next store the clamped offset and show that page; cancel
   * deletes the message and ends the conversation; anything else changes
   * nothing.
   */
  method NavigateSearchResults(conv: Conversation, data: string) returns (replies: seq<Reply>)
    requires conv.phase == ShowingResults && StartsWith(data, "search_")
    modifies conv
    ensures var action := ActionOf(Split(data[7..], '_')[0]);
      var tracks := old(conv.data).searchResults.GetOr([]);
      var query := old(conv.data).searchQuery.GetOr("");
      match NewOffset(action, old(conv.data).offset.GetOr(0), |tracks|)
      case Some(offset) =>
        && conv.phase == ShowingResults && conv.data == old(conv.data).(offset := Present(offset))
        && replies == [ShowResults(Format(Page(tracks, offset), query, offset), Keyboards.SelectionKeyboard(tracks, offset))]
      case None =>
        if action == Cancel then replies == [Deleted] && conv.phase == NoPhase && conv.data == EmptyData
        else replies == [] && conv.phase == old(conv.phase) && conv.data == old(conv.data)
  {
    assert data == "search_" + data[7..];
    NavigationDataAction(data[7..]);
    var action := ActionOf(Field(data, 1).value);
    var tracks := conv.data.searchResults.GetOr([]);
    var query := conv.data.searchQuery.GetOr("");
    match NewOffset(action, conv.data.offset.GetOr(0), |tracks|)
    case Some(offset) =>
      conv.data := conv.data.(offset := Present(offset));
      var page := PySlice(tracks, offset, offset + PageSize);
      var listing := FormatSearchResults(page, query, offset);
      var kb := Keyboards.TrackSelectionKeyboard(tracks, offset);
      replies := [ShowResults(listing, kb)];
    case None =>
      if action == Cancel {
        conv.Clear();
        replies := [Deleted];
      } else {
        replies := [];
      }
  }
}
