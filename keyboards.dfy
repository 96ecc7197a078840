/**
 * keyboards/main.py, `get_track_selection_keyboard`: the inline keyboard
 * under a page of search results that handlers/search_handlers.py and
 * handlers/search.py send. The selection buttons carry the track's id;
 * the navigation buttons carry the offset they lead to.
 */
module Keyboards {
  import opened Wrappers
  import opened Text
  import opened Search
  import opened Pagination

  /** `f"{track['id']}"`: the number, or "None" for a track without an id. */
  function IdText(id: Option<int>): string
  {
    match id
    case Some(n) => IntToString(n)
    case None => "None"
  }

  /** `f"{offset + i}. {title} - {artist}"`, the title cut at 30 characters with "...". */
  function SelectCaption(number: int, t: Track): string
  {
    IntToString(number) + ". " + Truncate(t.title, 30) + " - " + t.artist
  }

  function SelectButton(t: Track, number: int): Button
  {
    Select(SelectCaption(number, t), "select_track_" + IdText(t.id))
  }

  /** The prev button when `offset > 0`, carrying `offset - 5`. */
  function PrevButton(offset: int): Option<Button>
  {
    if offset > 0 then Some(PrevPage("search_prev_" + IntToString(offset - PageSize))) else None
  }

  /** The next button when another track follows the page, carrying `offset + 5`. */
  function NextButton(count: nat, offset: int): Option<Button>
  {
    if offset + PageSize < count then Some(NextPage("search_next_" + IntToString(offset + PageSize))) else None
  }

  /** The selection buttons for `page`, numbered from `offset + 1`. */
  function SelectButtons(page: seq<Track>, offset: int): (r: seq<Button>)
    ensures |r| == |page|
    ensures forall i :: 0 <= i < |page| ==> r[i] == SelectButton(page[i], offset + i + 1)
  {
    seq(|page|, i requires 0 <= i < |page| => SelectButton(page[i], offset + i + 1))
  }

  /** The keyboard for the page of `tracks` at `offset`. */
  function SelectionKeyboard(tracks: seq<Track>, offset: int): seq<seq<Button>>
  {
    Layout(SelectButtons(Page(tracks, offset), offset), PrevButton(offset), NextButton(|tracks|, offset))
  }

  /** `get_track_selection_keyboard`: the selection rows, the navigation row if any, the cancel row. */
  method TrackSelectionKeyboard(tracks: seq<Track>, offset: int) returns (kb: seq<seq<Button>>)
    ensures kb == SelectionKeyboard(tracks, offset)
  {
    kb := BuildLayout(SelectButtons(Page(tracks, offset), offset), PrevButton(offset), NextButton(|tracks|, offset));
  }

  /**
   * The keyboard has one selection row per track of the page, numbered from
   * `offset + 1`, then the navigation row if it has a button, then the
   * cancel row.
   */
  lemma KeyboardRows(tracks: seq<Track>, offset: int)
    ensures var kb := SelectionKeyboard(tracks, offset);
      var page := Page(tracks, offset);
      && |kb| == |page| + (if offset > 0 || offset + PageSize < |tracks| then 1 else 0) + 1
      && (forall i :: 0 <= i < |page| ==> kb[i] == [Select(SelectCaption(offset + i + 1, page[i]), "select_track_" + IdText(page[i].id))])
      && kb[|kb| - 1] == [CancelSearch("search_cancel")]
  {
    LayoutRows(SelectButtons(Page(tracks, offset), offset), PrevButton(offset), NextButton(|tracks|, offset));
  }

  /** The `i`-th selection button of the page carries the id of the `i`-th track there. */
  lemma SelectButtonCarriesId(tracks: seq<Track>, offset: int, i: nat)
    requires i < |Page(tracks, offset)|
    ensures SelectionKeyboard(tracks, offset)[i] == [SelectButton(Page(tracks, offset)[i], offset + i + 1)]
    ensures SelectionKeyboard(tracks, offset)[i][0].data == "select_track_" + IdText(Page(tracks, offset)[i].id)
  {
    LayoutRows(SelectButtons(Page(tracks, offset), offset), PrevButton(offset), NextButton(|tracks|, offset));
  }

  /** The prev button appears iff the offset is positive, the next button iff a track follows the page. */
  lemma KeyboardNavigation(tracks: seq<Track>, offset: int)
    ensures HasPrev(SelectionKeyboard(tracks, offset)) <==> offset > 0
    ensures HasNext(SelectionKeyboard(tracks, offset)) <==> offset + PageSize < |tracks|
  {
    LayoutNavigation(SelectButtons(Page(tracks, offset), offset), PrevButton(offset), NextButton(|tracks|, offset));
  }

  /** The offset a navigation button carries is a number that parses back. */
  lemma NavigationOffsetRoundTrip(offset: int)
    ensures Field("search_prev_" + IntToString(offset - PageSize), 2) == Some(IntToString(offset - PageSize))
    ensures Field("search_next_" + IntToString(offset + PageSize), 2) == Some(IntToString(offset + PageSize))
    ensures ParseInt(IntToString(offset - PageSize)) == Some(offset - PageSize)
    ensures ParseInt(IntToString(offset + PageSize)) == Some(offset + PageSize)
  {
    assert "search_prev_" + IntToString(offset - PageSize) == "search" + "_" + "prev" + "_" + IntToString(offset - PageSize);
    assert "search_next_" + IntToString(offset + PageSize) == "search" + "_" + "next" + "_" + IntToString(offset + PageSize);
    ThirdFieldRoundTrip("search", "prev", offset - PageSize);
    ThirdFieldRoundTrip("search", "next", offset + PageSize);
  }
}
