/**
 * main_bot.py: the bot's own `.env` loader and its search flow, with a
 * selection keyboard whose buttons carry 1-based positions, a results text
 * that slices the page itself, and the query, navigation and selection
 * handlers over the conversation state.
 */
module MainBot {
  import opened Wrappers
  import opened Text
  import opened Search
  import opened Fsm
  import opened Pagination
  import Config

  // ----- load_env -----

  /** A non-space character survives `strip()`. */
  lemma KeptByStrip(line: string, c: char)
    requires c in line && !IsSpace(c)
    ensures c in Strip(line)
  {
    var k :| 0 <= k < |line| && line[k] == c;
    assert StripStart(line) <= k < StripEnd(line);
    assert Strip(line)[k - StripStart(line)] == c;
  }

  /**
   * What one line of `.env` sets: a line holding `=` and not starting with
   * `#` is stripped and split at its first `=`; other lines set nothing.
   */
  function EnvLine(line: string): (r: Option<(string, string)>)
    ensures r.None? <==> '=' !in line || StartsWith(line, "#")
    ensures r.Some? ==> Strip(line) == r.value.0 + "=" + r.value.1 && '=' !in r.value.0
  {
    if '=' in line && !StartsWith(line, "#") then
      var s := Strip(line);
      KeptByStrip(line, '=');
      var i := CharIndex(s, '=');
      assert s == s[..i] + "=" + s[i + 1..];
      Some((s[..i], s[i + 1..]))
    else None
  }

  /**
   * The environment after the given lines, each accepted line overwriting
   * its key; `None` when an assignment raises ValueError (an empty name, or
   * a NUL character), which `load_env` does not catch, so importing
   * main_bot.py fails there.
   */
  function Loaded(env: map<string, string>, lines: seq<string>): Option<map<string, string>>
  {
    if lines == [] then Some(env)
    else
      match Loaded(env, lines[..|lines| - 1])
      case None => None
      case Some(before) =>
        match EnvLine(lines[|lines| - 1])
        case Some((key, value)) => if Config.Illegal(key, value) then None else Some(before[key := value])
        case None => Some(before)
  }

  /** Whether the `i`-th line is accepted and its assignment raises. */
  predicate RaisesAt(lines: seq<string>, i: int)
    requires 0 <= i < |lines|
  {
    EnvLine(lines[i]).Some? && Config.Illegal(EnvLine(lines[i]).value.0, EnvLine(lines[i]).value.1)
  }

  /**
   * `load_env`: the loop over the file's lines, which stops at the first
   * assignment that raises and reports it.
   */
  method LoadEnv(env0: map<string, string>, lines: seq<string>) returns (env: map<string, string>, raised: bool)
    ensures raised <==> Loaded(env0, lines).None?
    ensures !raised ==> env == Loaded(env0, lines).value
  {
    env := env0;
    for i := 0 to |lines|
      invariant Loaded(env0, lines[..i]) == Some(env)
    {
      assert lines[..i + 1][..i] == lines[..i];
      match EnvLine(lines[i])
      case Some((key, value)) =>
        if Config.Illegal(key, value) {
          RaisedStaysRaised(env0, lines, i + 1);
          return env, true;
        }
        env := env[key := value];
      case None =>
    }
    assert lines[..|lines|] == lines;
    raised := false;
  }

  /** Once an assignment has raised, reading more lines does not undo it. */
  lemma {:induction false} RaisedStaysRaised(env: map<string, string>, lines: seq<string>, n: nat)
    requires n <= |lines| && Loaded(env, lines[..n]).None?
    ensures Loaded(env, lines).None?
    decreases |lines| - n
  {
    if n < |lines| {
      var next := lines[..n + 1];
      assert next[..|next| - 1] == lines[..n];
      RaisedStaysRaised(env, lines, n + 1);
    } else {
      assert lines[..n] == lines;
    }
  }

  /** Importing main_bot.py fails exactly when some accepted line's assignment raises. */
  lemma LoadRaisesIff(env: map<string, string>, lines: seq<string>)
    ensures Loaded(env, lines).None? <==> exists i :: 0 <= i < |lines| && RaisesAt(lines, i)
  {
    if Loaded(env, lines).None? {
      var i := RaiseFound(env, lines);
    } else {
      forall i | 0 <= i < |lines|
        ensures !RaisesAt(lines, i)
      {
        if RaisesAt(lines, i) {
          RaiseFailsLoad(env, lines, i);
        }
      }
    }
  }

  /** A failed load points at a line whose assignment raises. */
  lemma {:induction false} RaiseFound(env: map<string, string>, lines: seq<string>) returns (i: nat)
    requires Loaded(env, lines).None?
    ensures i < |lines| && RaisesAt(lines, i)
  {
    var init := lines[..|lines| - 1];
    LoadedStep(env, lines);
    if Loaded(env, init).None? {
      i := RaiseFound(env, init);
      RaisesInPrefix(init, lines, i);
    } else {
      i := |lines| - 1;
    }
  }

  /** A line whose assignment raises makes the whole load fail. */
  lemma RaiseFailsLoad(env: map<string, string>, lines: seq<string>, i: nat)
    requires i < |lines| && RaisesAt(lines, i)
    ensures Loaded(env, lines).None?
  {
    var upto := lines[..i + 1];
    RaisesInPrefix(upto, lines, i);
    LoadedStep(env, upto);
    assert upto[..|upto| - 1] == lines[..i];
    if Loaded(env, lines[..i]).None? {
      RaisedStaysRaised(env, lines, i);
    } else {
      RaisedStaysRaised(env, lines, i + 1);
    }
  }

  /** Whether a line raises does not depend on the lines after it. */
  lemma RaisesInPrefix(init: seq<string>, lines: seq<string>, i: int)
    requires init <= lines && 0 <= i < |init|
    ensures RaisesAt(init, i) == RaisesAt(lines, i)
  {
    assert init[i] == lines[i];
  }

  /** One more line raises exactly when the earlier ones did or this one does. */
  lemma LoadedStep(env: map<string, string>, lines: seq<string>)
    requires lines != []
    ensures Loaded(env, lines).None? <==> Loaded(env, lines[..|lines| - 1]).None? || RaisesAt(lines, |lines| - 1)
  {
  }

  /** A key that no accepted line names keeps whatever the environment held. */
  lemma {:induction false} LoadedKeepsUnnamed(env: map<string, string>, lines: seq<string>, key: string)
    requires Loaded(env, lines).Some?
    requires forall i :: 0 <= i < |lines| && EnvLine(lines[i]).Some? ==> EnvLine(lines[i]).value.0 != key
    ensures key in Loaded(env, lines).value <==> key in env
    ensures key in env ==> Loaded(env, lines).value[key] == env[key]
  {
    if lines != [] {
      LoadedSucceedsStep(env, lines);
      LoadedKeepsUnnamed(env, lines[..|lines| - 1], key);
    }
  }

  /** The last accepted line that names a key decides its value, whatever the environment held. */
  lemma {:induction false} LoadedLastWins(env: map<string, string>, lines: seq<string>, i: nat)
    requires Loaded(env, lines).Some?
    requires i < |lines| && EnvLine(lines[i]).Some?
    requires forall j :: i < j < |lines| && EnvLine(lines[j]).Some? ==> EnvLine(lines[j]).value.0 != EnvLine(lines[i]).value.0
    ensures var (key, value) := EnvLine(lines[i]).value;
      key in Loaded(env, lines).value && Loaded(env, lines).value[key] == value
  {
    LoadedSucceedsStep(env, lines);
    if i < |lines| - 1 {
      LoadedLastWins(env, lines[..|lines| - 1], i);
    }
  }

  /** A load that succeeds succeeded on all but its last line, which then sets its key or nothing. */
  lemma LoadedSucceedsStep(env: map<string, string>, lines: seq<string>)
    requires lines != [] && Loaded(env, lines).Some?
    ensures Loaded(env, lines[..|lines| - 1]).Some?
    ensures var before := Loaded(env, lines[..|lines| - 1]).value;
      var line := EnvLine(lines[|lines| - 1]);
      Loaded(env, lines).value == if line.Some? then before[line.value.0 := line.value.1] else before
  {
  }

  // ----- get_track_selection_keyboard -----

  /** `f"{offset + i}. {title}"`, the title cut at 30 characters with "...". */
  function SelectCaption(number: int, t: Track): string
  {
    IntToString(number) + ". " + Truncate(t.title, 30)
  }

  /** This keyboard's buttons carry the position, `select_track_{offset + i}`. */
  function SelectButton(t: Track, number: int): Button
  {
    Select(SelectCaption(number, t), "select_track_" + IntToString(number))
  }

  function SelectButtons(page: seq<Track>, offset: int): (r: seq<Button>)
    ensures |r| == |page|
    ensures forall i :: 0 <= i < |page| ==> r[i] == SelectButton(page[i], offset + i + 1)
  {
    seq(|page|, i requires 0 <= i < |page| => SelectButton(page[i], offset + i + 1))
  }

  function PrevButton(offset: int): Option<Button>
  {
    if offset > 0 then Some(PrevPage("search_prev")) else None
  }

  function NextButton(count: nat, offset: int): Option<Button>
  {
    if offset + PageSize < count then Some(NextPage("search_next")) else None
  }

  function SelectionKeyboard(tracks: seq<Track>, offset: int): seq<seq<Button>>
  {
    Layout(SelectButtons(Page(tracks, offset), offset), PrevButton(offset), NextButton(|tracks|, offset))
  }

  /** `get_track_selection_keyboard` */
  method TrackSelectionKeyboard(tracks: seq<Track>, offset: int) returns (kb: seq<seq<Button>>)
    ensures kb == SelectionKeyboard(tracks, offset)
  {
    kb := BuildLayout(SelectButtons(Page(tracks, offset), offset), PrevButton(offset), NextButton(|tracks|, offset));
  }

  /**
   * The keyboard has one selection row per track of the page, numbered from
   * `offset + 1`, then the navigation row if it has a button, then the
   * cancel row.
   */
  lemma KeyboardRows(tracks: seq<Track>, offset: int)
    ensures var kb := SelectionKeyboard(tracks, offset);
      var page := Page(tracks, offset);
      && |kb| == |page| + (if offset > 0 || offset + PageSize < |tracks| then 1 else 0) + 1
      && (forall i :: 0 <= i < |page| ==> kb[i] == [SelectButton(page[i], offset + i + 1)])
      && kb[|kb| - 1] == [CancelSearch("search_cancel")]
  {
    LayoutRows(SelectButtons(Page(tracks, offset), offset), PrevButton(offset), NextButton(|tracks|, offset));
  }

  /** The prev button appears iff the offset is positive, the next button iff a track follows the page. */
  lemma KeyboardNavigation(tracks: seq<Track>, offset: int)
    ensures HasPrev(SelectionKeyboard(tracks, offset)) <==> offset > 0
    ensures HasNext(SelectionKeyboard(tracks, offset)) <==> offset + PageSize < |tracks|
  {
    LayoutNavigation(SelectButtons(Page(tracks, offset), offset), PrevButton(offset), NextButton(|tracks|, offset));
  }

  /**
   * Pressing the i-th selection button of a page selects the track that
   * button shows: its data names position `offset + i + 1`, which the
   * selection handler turns back into index `offset + i`.
   */
  lemma SelectionButtonPicksItsTrack(tracks: seq<Track>, offset: int, i: nat)
    requires offset >= 0 && i < |Page(tracks, offset)|
    ensures SelectionKeyboard(tracks, offset)[i][0].data == "select_track_" + IntToString(offset + i + 1)
    ensures SelectedIndex("select_track_" + IntToString(offset + i + 1)) == Some(offset + i)
    ensures 0 <= offset + i < |tracks| && tracks[offset + i] == Page(tracks, offset)[i]
  {
    var kb: seq<seq<Button>> := SelectionKeyboard(tracks, offset);
    var page: seq<Track> := Page(tracks, offset);
    assert kb[i][0].data == "select_track_" + IntToString(offset + i + 1) by {
      KeyboardRows(tracks, offset);
    }
    assert SelectedIndex("select_track_" + IntToString(offset + i + 1)) == Some(offset + i) by {
      SelectDataRoundTrip(offset + i + 1);
    }
    assert 0 <= offset + i < |tracks| && tracks[offset + i] == page[i] by {
      PageMeaning(tracks, offset);
    }
  }

  // ----- format_search_results -----

  /**
   * The results message for `tracks` at `offset`: nothing-found with the
   * query for no tracks; otherwise the page's entries numbered from
   * `offset + 1` (titles cut at 40, artists at 25, the artist line dropped
   * for the unknown-artist text), the number of tracks, and page
   * `offset // 5 + 1` of `(len + 4) // 5`.
   */
  function Results(tracks: seq<Track>, query: string, offset: int, unknownArtist: string): Listing
  {
    if tracks == [] then NothingFound(Some(query))
    else Listing(query, Entries(Page(tracks, offset), offset, 25, Some(unknownArtist)), |tracks|,
                 Some(PageNumber(offset / PageSize + 1, (|tracks| + PageSize - 1) / PageSize)))
  }

  /** `format_search_results`, whose loop over the page is `ListEntries`. */
  method FormatSearchResults(tracks: seq<Track>, query: string, offset: int, unknownArtist: string) returns (listing: Listing)
    ensures listing == Results(tracks, query, offset, unknownArtist)
  {
    if tracks == [] {
      return NothingFound(Some(query));
    }
    var entries := ListEntries(Page(tracks, offset), offset, 25, Some(unknownArtist));
    listing := Listing(query, entries, |tracks|, Some(PageNumber(offset / PageSize + 1, (|tracks| + 3 + 1) / PageSize)));
  }

  /**
   * For the full list at an in-range offset the message lists exactly the
   * page's tracks in order, reports every track found, and its page number
   * lies between 1 and the page count.
   */
  lemma ResultsMeaning(tracks: seq<Track>, query: string, offset: int, unknownArtist: string)
    requires tracks != [] && OffsetOk(offset, |tracks|)
    ensures var l := Results(tracks, query, offset, unknownArtist);
      && l.Listing?
      && |l.entries| == |Page(tracks, offset)|
      && (forall i :: 0 <= i < |l.entries| ==>
            l.entries[i] == EntryOf(tracks[offset + i], offset + i + 1, 25, Some(unknownArtist)))
      && l.found == |tracks|
      && 1 <= l.page.value.current <= l.page.value.total
  {
    PageMeaning(tracks, offset);
  }

  /**
   * As written, the navigation handler (main_bot.py:272) passes the page
   * `tracks[off:off+5]` together with `off`, and `format_search_results`
   * slices again; the first page (main_bot.py:221) passes `tracks[:5]`.
   */
  function NavigatedResultsAsWritten(tracks: seq<Track>, query: string, offset: int, unknownArtist: string): Listing
  {
    Results(Page(tracks, offset), query, offset, unknownArtist)
  }

  /**
   * With ten results, "next" from the first page leads to offset 5, and the
   * as-written message lists no track at all, reports 5 found and "page
   * 2/1", although the page holds five tracks.
   */
  lemma NavigatedResultsAsWrittenLosesPage(tracks: seq<Track>, query: string, unknownArtist: string)
    requires |tracks| == 10
    ensures NewOffset(Next, 0, |tracks|) == Some(5)
    ensures |Page(tracks, 5)| == 5
    ensures NavigatedResultsAsWritten(tracks, query, 5, unknownArtist) == Listing(query, [], 5, Some(PageNumber(2, 1)))
    ensures |Results(tracks, query, 5, unknownArtist).entries| == 5
  {
    PageMeaning(tracks, 5);
    var page := Page(tracks, 5);
    assert Page(page, 5) == [];
  }

  /**
   * With ten results, the first message as written (main_bot.py:221)
   * reports 5 found and "page 1/1", where 10 found on page 1 of 2 is meant;
   * its entries are the intended ones.
   */
  lemma FirstResultsAsWritten(tracks: seq<Track>, query: string, unknownArtist: string)
    requires |tracks| == 10
    ensures var l := NavigatedResultsAsWritten(tracks, query, 0, unknownArtist);
      l.found == 5 && l.page == Some(PageNumber(1, 1))
    ensures var l := Results(tracks, query, 0, unknownArtist);
      l.found == 10 && l.page == Some(PageNumber(1, 2))
    ensures NavigatedResultsAsWritten(tracks, query, 0, unknownArtist).entries == Results(tracks, query, 0, unknownArtist).entries
  {
    PageMeaning(tracks, 0);
    var page := Page(tracks, 0);
    PageMeaning(page, 0);
    assert Page(page, 0) == page;
  }

  /** In general the as-written message lists nothing on every page after the first. */
  lemma NavigatedResultsAsWrittenEmpty(tracks: seq<Track>, query: string, offset: int, unknownArtist: string)
    requires offset >= PageSize && Page(tracks, offset) != []
    ensures NavigatedResultsAsWritten(tracks, query, offset, unknownArtist).entries == []
  {
    PageMeaning(tracks, offset);
  }

  // ----- handlers -----

  /**
   * `process_search_query` in the waiting-for-query state. A stripped query
   * of fewer than 2 characters is refused without searching and the state
   * stays; otherwise a loading message precedes the outcome: no results or
   * a failed search end the conversation; results are stored with offset 0
   * and shown from the first page, with the "more results" notice when
   * there are more than five. The first message is the intended one, which
   * counts every track; main_bot.py:221 formats only the first five
   * (`FirstResultsAsWritten`).
   */
  method ProcessSearchQuery(conv: Conversation, text: string, outcome: SearchOutcome, unknownArtist: string)
    returns (replies: seq<Reply>, searched: bool)
    requires conv.phase == WaitingQuery
    modifies conv
    ensures var query := Strip(text);
      && (searched <==> |query| >= 2)
      && (!searched ==> replies == [TooShort] && conv.phase == old(conv.phase) && conv.data == old(conv.data))
      && (searched ==> replies == [Loading] + SearchReplies(query, outcome, unknownArtist))
      && (searched && Stored(outcome) ==>
            conv.phase == ShowingResults && conv.data == StoreResults(old(conv.data), outcome.tracks, query))
      && (searched && !Stored(outcome) ==> conv.phase == NoPhase && conv.data == EmptyData)
  {
    var query := Strip(text);
    if |query| < 2 {
      return [TooShort], false;
    }
    searched := true;
    match outcome
    case Found(tracks) =>
      if tracks == [] {
        replies := [Loading, NoResults(query)];
        conv.Clear();
        return;
      }
      var more := if |tracks| > PageSize then [MoreResults] else [];
      conv.data := StoreResults(conv.data, tracks, query);
      var listing := FormatSearchResults(tracks, query, 0, unknownArtist);
      var kb := TrackSelectionKeyboard(tracks, 0);
      replies := [Loading] + (more + [ShowResults(listing, kb)]);
      conv.phase := ShowingResults;
    case TimedOut =>
      replies := [Loading, SearchTimeout];
      conv.Clear();
    case Raised =>
      replies := [Loading, SearchError];
      conv.Clear();
  }

  /** What follows the loading message. */
  function SearchReplies(query: string, outcome: SearchOutcome, unknownArtist: string): seq<Reply>
  {
    match outcome
    case Found(tracks) =>
      if tracks == [] then [NoResults(query)]
      else (if |tracks| > PageSize then [MoreResults] else [])
           + [ShowResults(Results(tracks, query, 0, unknownArtist), SelectionKeyboard(tracks, 0))]
    case TimedOut => [SearchTimeout]
    case Raised => [SearchError]
  }

  /**
   * `navigate_search_results` in the showing-results state: prev and next
   * store the clamped offset and show that page of the stored results;
   * cancel deletes the message and ends the conversation; anything else
   * changes nothing.
   */
  method NavigateSearchResults(conv: Conversation, data: string, unknownArtist: string) returns (replies: seq<Reply>)
    requires conv.phase == ShowingResults && StartsWith(data, "search_")
    modifies conv
    ensures var action := ActionOf(Split(data[7..], '_')[0]);
      var tracks := old(conv.data).searchResults.GetOr([]);
      var query := old(conv.data).searchQuery.GetOr("");
      match NewOffset(action, old(conv.data).offset.GetOr(0), |tracks|)
      case Some(offset) =>
        && conv.phase == ShowingResults && conv.data == old(conv.data).(offset := Present(offset))
        && replies == [ShowResults(Results(tracks, query, offset, unknownArtist), SelectionKeyboard(tracks, offset))]
      case None =>
        if action == Cancel then replies == [Deleted] && conv.phase == NoPhase && conv.data == EmptyData
        else replies == [] && conv.phase == old(conv.phase) && conv.data == old(conv.data)
  {
    assert data == "search_" + data[7..];
    NavigationDataAction(data[7..]);
    var action := ActionOf(Field(data, 1).value);
    var tracks := conv.data.searchResults.GetOr([]);
    var query := conv.data.searchQuery.GetOr("");
    match NewOffset(action, conv.data.offset.GetOr(0), |tracks|)
    case Some(offset) =>
      conv.data := conv.data.(offset := Present(offset));
      var listing := FormatSearchResults(tracks, query, offset, unknownArtist);
      var kb := TrackSelectionKeyboard(tracks, offset);
      replies := [ShowResults(listing, kb)];
    case None =>
      if action == Cancel {
        conv.Clear();
        replies := [Deleted];
      } else {
        replies := [];
      }
  }

  /**
   * `select_track_callback` in the showing-results state: `select_track_N`
   * picks the stored result at index N-1 and makes it a single-track
   * download request, leaving the search state; an index outside the
   * results is refused with the state unchanged; data whose third field is
   * not a number raises, and nothing is sent or changed.
   */
  method SelectTrackCallback(conv: Conversation, data: string) returns (replies: seq<Reply>)
    requires conv.phase == ShowingResults
    modifies conv
    ensures var tracks := old(conv.data).searchResults.GetOr([]);
      match SelectedIndex(data)
      case None => replies == [] && conv.phase == old(conv.phase) && conv.data == old(conv.data)
      case Some(index) =>
        if 0 <= index < |tracks| then
          && replies == [TrackCard(tracks[index])]
          && conv.phase == NoPhase && conv.data == SelectedTrackData(old(conv.data), tracks[index])
        else replies == [SelectionError] && conv.phase == old(conv.phase) && conv.data == old(conv.data)
  {
    var tracks := conv.data.searchResults.GetOr([]);
    match SelectedIndex(data)
    case None =>
      replies := [];
    case Some(index) =>
      if index < 0 || index >= |tracks| {
        replies := [SelectionError];
      } else {
        conv.data := SelectedTrackData(conv.data, tracks[index]);
        conv.phase := NoPhase;
        replies := [TrackCard(tracks[index])];
      }
  }
}
