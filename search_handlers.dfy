/**
 * handlers/search_handlers.py: the `/search` flow that sends the keyboard
 * of keyboards/main.py. Its selection handler reads the number a button
 * carries, its navigation handler clamps the stored offset, and its
 * `format_search_results` builds the results message.
 */
module SearchHandlers {
  import opened Wrappers
  import opened Text
  import opened Search
  import opened Fsm
  import opened Pagination
  import Keyboards
  import SearchLegacy

  // ----- format_search_results -----

  /**
   * `format_search_results(tracks, query, lang, offset)` over the list it is
   * given: nothing-found (without the query) for an empty list; otherwise
   * the entries numbered from `offset + 1` (titles cut at 40, artists at
   * 20), the length of that list, and page `offset // 5 + 1` of
   * `(len + 4) // 5`.
   */
  function Format(tracks: seq<Track>, query: string, offset: int): Listing
  {
    if tracks == [] then NothingFound(None)
    else Listing(query, Entries(tracks, offset, 20, None), |tracks|,
                 Some(PageNumber(offset / PageSize + 1, (|tracks| + PageSize - 1) / PageSize)))
  }

  /** `format_search_results`, whose loop over the tracks is `ListEntries`. */
  method FormatSearchResults(tracks: seq<Track>, query: string, offset: int) returns (listing: Listing)
    ensures listing == Format(tracks, query, offset)
  {
    if tracks == [] {
      return NothingFound(None);
    }
    var entries := ListEntries(tracks, offset, 20, None);
    listing := Listing(query, entries, |tracks|, Some(PageNumber(offset / PageSize + 1, (|tracks| + PageSize - 1) / PageSize)));
  }

  /**
   * Every track of a non-empty list appears in order, numbered from
   * `offset + 1`, with its artist line, and the message reports the
   * list's length.
   */
  lemma FormatMeaning(tracks: seq<Track>, query: string, offset: int)
    requires tracks != []
    ensures var l := Format(tracks, query, offset);
      && l.Listing? && l.query == query && l.found == |tracks|
      && |l.entries| == |tracks|
      && (forall i :: 0 <= i < |tracks| ==>
            && l.entries[i].number == offset + i + 1
            && l.entries[i].detail.Some?
            && l.entries[i].detail.value.duration == tracks[i].durationFormatted
            && (|tracks[i].title| <= 40 ==> l.entries[i].title == tracks[i].title))
  {
  }

  /**
   * The intended message for the page at `offset` of the full results:
   * the page's entries, the number of all results and page
   * `offset // 5 + 1` of as many pages as the results fill.
   */
  function PagedResults(tracks: seq<Track>, query: string, offset: int): Listing
  {
    var page := Page(tracks, offset);
    if page == [] then NothingFound(None)
    else Listing(query, Entries(page, offset, 20, None), |tracks|,
                 Some(PageNumber(offset / PageSize + 1, (|tracks| + PageSize - 1) / PageSize)))
  }

  /**
   * At an offset the navigation keeps, the intended message lists exactly
   * the page's tracks, reports every result, and its page number lies
   * between 1 and the number of pages.
   */
  lemma PagedResultsMeaning(tracks: seq<Track>, query: string, offset: int)
    requires tracks != [] && OffsetOk(offset, |tracks|)
    ensures var l := PagedResults(tracks, query, offset);
      && l.Listing?
      && |l.entries| == |Page(tracks, offset)|
      && (forall i :: 0 <= i < |l.entries| ==> l.entries[i] == EntryOf(tracks[offset + i], offset + i + 1, 20, None))
      && l.found == |tracks|
      && 1 <= l.page.value.current <= l.page.value.total
  {
    PageMeaning(tracks, offset);
  }

  /**
   * As written, both handlers pass the page `tracks[off:off+5]`
   * (handlers/search_handlers.py:67 and 147): the entries are right, but
   * the message reports the page's length as the number found and always
   * one page in total.
   */
  lemma FormatOfPageAsWritten(tracks: seq<Track>, query: string, offset: int)
    requires offset >= 0 && Page(tracks, offset) != []
    ensures var page := Page(tracks, offset);
      Format(page, query, offset)
        == PagedResults(tracks, query, offset).(found := |page|, page := Some(PageNumber(offset / PageSize + 1, 1)))
  {
    PageMeaning(tracks, offset);
  }

  /** With ten results, the second page says 5 found and "page 2/1" where 10 and "2/2" are meant. */
  lemma FormatOfPageAsWrittenSecondPage(tracks: seq<Track>, query: string)
    requires |tracks| == 10
    ensures Format(Page(tracks, 5), query, 5).found == 5
    ensures Format(Page(tracks, 5), query, 5).page == Some(PageNumber(2, 1))
    ensures PagedResults(tracks, query, 5).found == 10
    ensures PagedResults(tracks, query, 5).page == Some(PageNumber(2, 2))
  {
    PageMeaning(tracks, 5);
  }

  /**
   * On a non-empty page the message of handlers/search.py lists the same
   * entries as the intended one here; the two differ only in the count and
   * the page number.
   */
  lemma SameEntriesAsLegacy(tracks: seq<Track>, query: string, offset: int)
    requires Page(tracks, offset) != []
    ensures var intended := PagedResults(tracks, query, offset);
      && intended.Listing?
      && SearchLegacy.Format(Page(tracks, offset), query, offset) == intended.(found := |Page(tracks, offset)|, page := None)
  {
  }

  // ----- select_track -----

  /**
   * As written (handlers/search_handlers.py:88-98): the number after
   * `select_track_` is read as a 1-based position. The keyboard these
   * results are shown with (keyboards/main.py:40) carries the track's id,
   * so the pick that is meant is `PickById`.
   */
  function PickAsWritten(tracks: seq<Track>, data: string): (r: Choice)
    ensures r.Picked? ==> r.track in tracks
    ensures r.NotFound? <==> SelectedIndex(data).Some? && !(0 <= SelectedIndex(data).value < |tracks|)
  {
    match SelectedIndex(data)
    case None => Unparsable
    case Some(index) => if 0 <= index < |tracks| then Picked(tracks[index]) else NotFound
  }

  /**
   * When the results have distinct ids, pressing the selection button of
   * the `i`-th track on the page picks that very track.
   */
  lemma PickFindsPressedTrack(tracks: seq<Track>, offset: int, i: nat)
    requires offset >= 0 && i < |Page(tracks, offset)| && Page(tracks, offset)[i].id.Some?
    requires forall j, k :: 0 <= j < k < |tracks| && tracks[j].id.Some? ==> tracks[j].id != tracks[k].id
    ensures PickById(tracks, Keyboards.SelectionKeyboard(tracks, offset)[i][0].data) == Picked(Page(tracks, offset)[i])
  {
    var page: seq<Track> := Page(tracks, offset);
    var t := page[i];
    var j: nat := offset + i;
    assert j < |tracks| && tracks[j] == t by {
      PageMeaning(tracks, offset);
    }
    var data := "select_track_" + IntToString(t.id.value);
    PickByIdFindsTrack(tracks, j, t);
    assert Keyboards.SelectionKeyboard(tracks, offset)[i][0].data == data by {
      Keyboards.SelectButtonCarriesId(tracks, offset, i);
    }
  }

  /**
   * As written, a single result whose id is 2 or more cannot be selected
   * with its own button: the id is taken for a position past the end.
   */
  lemma PickAsWrittenMissesTrack(t: Track)
    requires t.id.Some? && t.id.value >= 2
    ensures Keyboards.SelectionKeyboard([t], 0)[0][0].data == "select_track_" + IntToString(t.id.value)
    ensures PickAsWritten([t], "select_track_" + IntToString(t.id.value)) == NotFound
    ensures PickById([t], "select_track_" + IntToString(t.id.value)) == Picked(t)
  {
    assert Page([t], 0) == [t];
    Keyboards.SelectButtonCarriesId([t], 0, 0);
    SelectDataRoundTrip(t.id.value);
    PickByIdFindsTrack([t], 0, t);
  }

  // ----- handlers -----

  /** `/search` and the "search_tracks" button: wait for a query, keeping the data. */
  method StartSearch(conv: Conversation)
    modifies conv
    ensures conv.phase == WaitingQuery && conv.data == old(conv.data)
  {
    conv.phase := WaitingQuery;
  }

  /** What replaces the loading message. */
  function SearchReplies(query: string, outcome: SearchOutcome): seq<Reply>
  {
    match outcome
    case Found(tracks) =>
      if tracks == [] then [NoResults(query)]
      else [ShowResults(PagedResults(tracks, query, 0), Keyboards.SelectionKeyboard(tracks, 0))]
    case TimedOut => [SearchTimeout]
    case Raised => [SearchError]
  }

  /**
   * `process_search_query` in the waiting-for-query state. A stripped query
   * of fewer than 2 characters is refused without searching, the state
   * staying; otherwise a loading message precedes the outcome: no results,
   * a timeout or an error end the conversation; results are stored with
   * offset 0 and shown from the first page, as the intended message
   * (`PagedResults`) that counts every track; line 67 as written formats
   * only the page (`FormatOfPageAsWritten`).
   */
  method ProcessSearchQuery(conv: Conversation, text: string, outcome: SearchOutcome)
    returns (replies: seq<Reply>, searched: bool)
    requires conv.phase == WaitingQuery
    modifies conv
    ensures var query := Strip(text);
      && (searched <==> |query| >= 2)
      && (!searched ==> replies == [TooShort] && conv.phase == old(conv.phase) && conv.data == old(conv.data))
      && (searched ==> replies == [Loading] + SearchReplies(query, outcome))
      && (searched && Stored(outcome) ==>
            conv.phase == ShowingResults && conv.data == StoreResults(old(conv.data), outcome.tracks, query))
      && (searched && !Stored(outcome) ==> conv.phase == NoPhase && conv.data == EmptyData)
  {
    var query := Strip(text);
    if |query| < 2 {
      return [TooShort], false;
    }
    searched := true;
    match outcome
    case Found(tracks) =>
      if tracks == [] {
        replies := [Loading, NoResults(query)];
        conv.Clear();
        return;
      }
      conv.data := StoreResults(conv.data, tracks, query);
      var listing := ShowPage(tracks, query, 0);
      var kb := Keyboards.TrackSelectionKeyboard(tracks, 0);
      replies := [Loading, ShowResults(listing, kb)];
      conv.phase := ShowingResults;
    case TimedOut =>
      replies := [Loading, SearchTimeout];
      conv.Clear();
    case Raised =>
      replies := [Loading, SearchError];
      conv.Clear();
  }

  /** The intended message for the page at `offset`: that page's entries, with every result counted. */
  method ShowPage(tracks: seq<Track>, query: string, offset: int) returns (listing: Listing)
    ensures listing == PagedResults(tracks, query, offset)
  {
    var page := PySlice(tracks, offset, offset + PageSize);
    if page == [] {
      return NothingFound(None);
    }
    var entries := ListEntries(page, offset, 20, None);
    listing := Listing(query, entries, |tracks|, Some(PageNumber(offset / PageSize + 1, (|tracks| + PageSize - 1) / PageSize)));
  }

  /**
   * `select_track` as it is meant to work with the keyboard it is shown
   * with: the pick by id of handlers/search.py. A track that the pressed
   * button names is made a single-track download request and the search
   * state is left; a number naming no stored track is refused with the
   * state unchanged; data whose third field is not a number raises, and
   * nothing is sent or changed.
   */
  method SelectTrack(conv: Conversation, data: string) returns (replies: seq<Reply>)
    requires conv.phase == ShowingResults
    modifies conv
    ensures match PickById(old(conv.data).searchResults.GetOr([]), data)
      case Unparsable => replies == [] && conv.phase == old(conv.phase) && conv.data == old(conv.data)
      case NotFound => replies == [SelectionError] && conv.phase == old(conv.phase) && conv.data == old(conv.data)
      case Picked(t) =>
        && replies == [TrackCard(t)]
        && conv.phase == NoPhase && conv.data == SelectedTrackData(old(conv.data), t)
  {
    replies := SearchLegacy.SelectTrack(conv, data);
  }

  /**
   * `navigate_search_results` in the showing-results state: only the
   * second `_`-field is read; prev and next store the clamped offset and
   * show that page of the stored results; cancel deletes the message and
   * ends the conversation; anything else changes nothing.
   */
  method NavigateSearchResults(conv: Conversation, data: string) returns (replies: seq<Reply>)
    requires conv.phase == ShowingResults && StartsWith(data, "search_")
    modifies conv
    ensures var action := ActionOf(Split(data[7..], '_')[0]);
      var tracks := old(conv.data).searchResults.GetOr([]);
      var query := old(conv.data).searchQuery.GetOr("");
      match NewOffset(action, old(conv.data).offset.GetOr(0), |tracks|)
      case Some(offset) =>
        && conv.phase == ShowingResults && conv.data == old(conv.data).(offset := Present(offset))
        && replies == [ShowResults(PagedResults(tracks, query, offset), Keyboards.SelectionKeyboard(tracks, offset))]
      case None =>
        if action == Cancel then replies == [Deleted] && conv.phase == NoPhase && conv.data == EmptyData
        else replies == [] && conv.phase == old(conv.phase) && conv.data == old(conv.data)
  {
    assert data == "search_" + data[7..];
    NavigationDataAction(data[7..]);
    var action := ActionOf(Field(data, 1).value);
    var tracks := conv.data.searchResults.GetOr([]);
    var query := conv.data.searchQuery.GetOr("");
    match NewOffset(action, conv.data.offset.GetOr(0), |tracks|)
    case Some(offset) =>
      conv.data := conv.data.(offset := Present(offset));
      var listing := ShowPage(tracks, query, offset);
      var kb := Keyboards.TrackSelectionKeyboard(tracks, offset);
      replies := [ShowResults(listing, kb)];
    case None =>
      if action == Cancel {
        conv.Clear();
        replies := [Deleted];
      } else {
        replies := [];
      }
  }

  /**
   * Pressing a navigation button that the keyboard shows, from an offset
   * the navigation keeps, leads to such an offset again, and the page there
   * is listed in full under a valid page number.
   */
  lemma NavigationShowsFullPage(tracks: seq<Track>, query: string, offset: int, action: Action)
    requires tracks != [] && OffsetOk(offset, |tracks|)
    requires (action == Prev && offset > 0) || (action == Next && offset + PageSize < |tracks|)
    ensures var next := NewOffset(action, offset, |tracks|).value;
      && OffsetOk(next, |tracks|)
      && |PagedResults(tracks, query, next).entries| == |Page(tracks, next)| == (if |tracks| < PageSize then |tracks| else PageSize)
      && 1 <= PagedResults(tracks, query, next).page.value.current <= PagedResults(tracks, query, next).page.value.total
  {
    NavigationKeepsOffsetOk(action, offset, |tracks|);
    var next := NewOffset(action, offset, |tracks|).value;
    PageFullAtOkOffset(tracks, next);
    PagedResultsMeaning(tracks, query, next);
  }
}
