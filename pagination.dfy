/**
 * The search-result paging that main_bot.py, handlers/search_handlers.py,
 * handlers/search.py and keyboards/main.py each repeat: pages of five,
 * Python slicing (negative and out-of-range bounds included), the prev/next
 * offset clamps, the `_`-separated fields of a button's callback data, and
 * the structure of a results message and of an inline keyboard.
 */
module Pagination {
  import opened Wrappers
  import opened Text
  import opened Search
  import opened Fsm

  const PageSize: nat := 5

  /** Where the Python slice bound `k` lands in a sequence of length `n`. */
  function SliceBound(k: int, n: nat): (b: nat)
    ensures b <= n
    ensures 0 <= k <= n ==> b == k
  {
    if k < 0 then (if k + n < 0 then 0 else k + n) else if k > n then n else k
  }

  /** `s[lo:hi]` in Python. */
  function PySlice<T>(s: seq<T>, lo: int, hi: int): (r: seq<T>)
    ensures |r| <= |s|
  {
    var a := SliceBound(lo, |s|);
    var b := SliceBound(hi, |s|);
    if a <= b then s[a..b] else []
  }

  /** `tracks[offset:offset+5]`: the page that starts at `offset`. */
  function Page<T>(tracks: seq<T>, offset: int): seq<T>
  {
    PySlice(tracks, offset, offset + PageSize)
  }

  /**
   * For a non-negative offset the page holds the (at most five) elements
   * from `offset` on, in order.
   */
  lemma PageMeaning<T>(tracks: seq<T>, offset: int)
    requires offset >= 0
    ensures var p := Page(tracks, offset);
      && |p| == (if offset >= |tracks| then 0 else if offset + PageSize <= |tracks| then PageSize else |tracks| - offset)
      && forall i :: 0 <= i < |p| ==> p[i] == tracks[offset + i]
  {
  }

  /** The second `_`-separated field of a navigation button's data. */
  datatype Action = Prev | Next | Cancel | OtherAction

  function ActionOf(field: string): Action
  {
    if field == "prev" then Prev else if field == "next" then Next else if field == "cancel" then Cancel else OtherAction
  }

  /**
   * The offset after a navigation press: `max(0, off - 5)` for prev,
   * `min(len - 5, off + 5)` for next, none for cancel or anything else.
   */
  function NewOffset(action: Action, current: int, count: nat): (r: Option<int>)
    ensures r.Some? <==> action in {Prev, Next}
    ensures action == Prev ==> r.value >= 0 && (current >= PageSize ==> r.value == current - PageSize)
    ensures action == Next ==> r.value <= count - PageSize && r.value <= current + PageSize
  {
    match action
    case Prev => Some(if current - PageSize > 0 then current - PageSize else 0)
    case Next => Some(if count - PageSize < current + PageSize then count - PageSize else current + PageSize)
    case _ => None
  }

  /**
   * The offsets the prev/next buttons can lead to from offset 0: the first
   * page, or a page that ends inside the list.
   */
  predicate OffsetOk(offset: int, count: nat)
  {
    0 <= offset && (offset == 0 || offset + PageSize <= count)
  }

  /**
   * Pressing a navigation button that the keyboard shows (prev iff the
   * offset is positive, next iff another track follows the page) keeps the
   * offset in range; next moves forward by five unless that would run past
   * the end, in which case it shows the last five.
   */
  lemma NavigationKeepsOffsetOk(action: Action, offset: int, count: nat)
    requires OffsetOk(offset, count)
    requires action == Prev ==> offset > 0
    requires action == Next ==> offset + PageSize < count
    requires action in {Prev, Next}
    ensures var r := NewOffset(action, offset, count).value;
      && OffsetOk(r, count)
      && (action == Prev ==> r < offset)
      && (action == Next ==> offset < r && (r == offset + PageSize <==> offset + 2 * PageSize <= count))
  {
  }

  /** Every page an in-range offset shows is full, unless the whole list is shorter than a page. */
  lemma PageFullAtOkOffset<T>(tracks: seq<T>, offset: int)
    requires OffsetOk(offset, |tracks|)
    ensures |Page(tracks, offset)| == if |tracks| < PageSize then |tracks| else PageSize
  {
    PageMeaning(tracks, offset);
  }

  /** `data.split('_')[k]`, or `None` where Python raises IndexError. */
  function Field(data: string, k: nat): Option<string>
  {
    var parts := Split(data, '_');
    if k < |parts| then Some(parts[k]) else None
  }

  /** A word without `_` followed by `_` is the first field. */
  lemma SplitAfterWord(w: string, rest: string)
    requires '_' !in w
    ensures Split(w + "_" + rest, '_') == [w] + Split(rest, '_')
  {
    SplitAround(w, rest, '_');
    SplitWhole(w, '_');
  }

  /** Numbers print without `_`. */
  lemma NoUnderscoreInNumber(n: int)
    ensures '_' !in IntToString(n)
  {
    if n < 0 {
      var digits := NatToString(-n);
      assert IntToString(n) == ['-'] + digits;
      assert forall k :: 0 <= k < |digits| ==> IsDigit(digits[k]);
    }
  }

  /** The number in `prefix + "_" + str(n)` is its third field, and it parses back to `n`. */
  lemma ThirdFieldRoundTrip(first: string, second: string, n: int)
    requires '_' !in first && '_' !in second
    ensures Field(first + "_" + second + "_" + IntToString(n), 2) == Some(IntToString(n))
    ensures ParseInt(IntToString(n)) == Some(n)
  {
    var digits := IntToString(n);
    NoUnderscoreInNumber(n);
    assert first + "_" + second + "_" + digits == first + "_" + (second + "_" + digits);
    SplitAfterWord(first, second + "_" + digits);
    SplitAfterWord(second, digits);
    SplitWhole(digits, '_');
    IntRoundTrip(n);
  }

  /** The action named by a navigation button's data. */
  lemma NavigationDataAction(rest: string)
    ensures Field("search_" + rest, 1) == Some(Split(rest, '_')[0])
  {
    var w := "search";
    assert w[0] != '_' && w[1] != '_' && w[2] != '_' && w[3] != '_' && w[4] != '_' && w[5] != '_';
    assert "search_" + rest == w + "_" + rest;
    SplitAfterWord(w, rest);
  }

  /**
   * `int(data.split("_")[2]) - 1`: the 0-based index a `select_track_N`
   * button names when N is read as a 1-based position; `None` where Python
   * raises (no third field, or not a number).
   */
  function SelectedIndex(data: string): (r: Option<int>)
    ensures r.Some? ==> Field(data, 2).Some? && ParseInt(Field(data, 2).value) == Some(r.value + 1)
  {
    match Field(data, 2)
    case None => None
    case Some(f) =>
      match ParseInt(f)
      case None => None
      case Some(n) => Some(n - 1)
  }

  /** `int(data.split("_")[2])`, read as a track id. */
  function SelectedId(data: string): (r: Option<int>)
    ensures r.Some? ==> Field(data, 2).Some? && ParseInt(Field(data, 2).value) == r
  {
    match Field(data, 2)
    case None => None
    case Some(f) => ParseInt(f)
  }

  /**
   * A number written after `select_track_` reads back as itself, and as
   * the index one below it when taken for a 1-based position.
   */
  lemma SelectDataRoundTrip(n: int)
    ensures SelectedId("select_track_" + IntToString(n)) == Some(n)
    ensures SelectedIndex("select_track_" + IntToString(n)) == Some(n - 1)
  {
    var digits := IntToString(n);
    var data := "select_track_" + digits;
    assert data == "select" + "_" + "track" + "_" + digits;
    ThirdFieldRoundTrip("select", "track", n);
    assert Field(data, 2) == Some(digits) && ParseInt(digits) == Some(n);
  }

  /** `next((t for t in tracks if t['id'] == id), None)` */
  function FindById(tracks: seq<Track>, id: int): (r: Option<Track>)
    ensures r.Some? ==> r.value in tracks && r.value.id == Some(id)
    ensures r.None? <==> forall k :: 0 <= k < |tracks| ==> tracks[k].id != Some(id)
  {
    if tracks == [] then None
    else if tracks[0].id == Some(id) then Some(tracks[0])
    else FindById(tracks[1..], id)
  }

  /** How a `select_track_…` press resolves against the stored results. */
  datatype Choice = Unparsable | NotFound | Picked(track: Track)

  /**
   * The track a `select_track_{id}` press names: `Unparsable` where
   * `int()` raises, `NotFound` when no result has that id.
   */
  function PickById(tracks: seq<Track>, data: string): (r: Choice)
    ensures r.Picked? ==> r.track in tracks && SelectedId(data) == r.track.id
    ensures r.NotFound? <==> SelectedId(data).Some? && forall k :: 0 <= k < |tracks| ==> tracks[k].id != SelectedId(data)
    ensures r.Unparsable? <==> SelectedId(data).None?
  {
    match SelectedId(data)
    case None => Unparsable
    case Some(id) =>
      match FindById(tracks, id)
      case None => NotFound
      case Some(t) => Picked(t)
  }

  /** When ids are distinct, the id of the track at `i` finds that very track. */
  lemma {:induction false} FindByIdUnique(tracks: seq<Track>, i: nat)
    requires i < |tracks| && tracks[i].id.Some?
    requires forall j, k :: 0 <= j < k < |tracks| && tracks[j].id.Some? ==> tracks[j].id != tracks[k].id
    ensures FindById(tracks, tracks[i].id.value) == Some(tracks[i])
  {
    if i > 0 {
      assert tracks[0].id != tracks[i].id;
      FindByIdUnique(tracks[1..], i - 1);
    }
  }

  /** With distinct ids, the selection data carrying a track's id picks that track. */
  lemma PickByIdFindsTrack(tracks: seq<Track>, j: nat, t: Track)
    requires j < |tracks| && tracks[j] == t && t.id.Some?
    requires forall j, k :: 0 <= j < k < |tracks| && tracks[j].id.Some? ==> tracks[j].id != tracks[k].id
    ensures PickById(tracks, "select_track_" + IntToString(t.id.value)) == Picked(t)
  {
    SelectDataRoundTrip(t.id.value);
    FindByIdUnique(tracks, j);
  }

  /** The conversation data after a successful search: the results, the query, offset 0. */
  function StoreResults(data: FsmData, tracks: seq<Track>, query: string): (r: FsmData)
    ensures r.searchResults == Present(tracks) && r.searchQuery == Present(query) && r.offset == Present(0)
    ensures r.(searchResults := data.searchResults, searchQuery := data.searchQuery, offset := data.offset) == data
  {
    data.(searchResults := Present(tracks), searchQuery := Present(query), offset := Present(0))
  }

  /** The artist line under a result: the (truncated) artist and the "M:SS" duration. */
  datatype Detail = Detail(artist: string, duration: string)

  /** One numbered result in a results message. */
  datatype Entry = Entry(number: int, title: string, detail: Option<Detail>)

  /** "page current/total" */
  datatype PageNumber = PageNumber(current: int, total: int)

  /**
   * A results message: the nothing-found text (with the query where the
   * text names it), or the query header, the numbered entries, the count
   * of tracks the message reports and, in two of the three variants, the
   * page number.
   */
  datatype Listing =
    | NothingFound(searched: Option<string>)
    | Listing(query: string, entries: seq<Entry>, found: nat, page: Option<PageNumber>)

  /**
   * One result line: the title cut at 40 characters, the artist at
   * `artistWidth`, each with "..."; the artist line is dropped when the
   * (cut) artist equals `hiddenArtist`.
   */
  function EntryOf(t: Track, number: int, artistWidth: nat, hiddenArtist: Option<string>): (e: Entry)
    ensures e.number == number
    ensures |e.title| <= 43 && (|t.title| <= 40 ==> e.title == t.title)
    ensures e.detail.None? <==> hiddenArtist == Some(Truncate(t.artist, artistWidth))
    ensures e.detail.Some? ==>
      && |e.detail.value.artist| <= artistWidth + 3
      && e.detail.value.duration == t.durationFormatted
  {
    var artist := Truncate(t.artist, artistWidth);
    Entry(number, Truncate(t.title, 40), if hiddenArtist == Some(artist) then None else Some(Detail(artist, t.durationFormatted)))
  }

  /** The entries for `page`, numbered from `offset + 1`. */
  function Entries(page: seq<Track>, offset: int, artistWidth: nat, hiddenArtist: Option<string>): (r: seq<Entry>)
    ensures |r| == |page|
    ensures forall i :: 0 <= i < |r| ==> r[i] == EntryOf(page[i], offset + i + 1, artistWidth, hiddenArtist)
  {
    seq(|page|, i requires 0 <= i < |page| => EntryOf(page[i], offset + i + 1, artistWidth, hiddenArtist))
  }

  /** The `for i, track in enumerate(page, 1)` loop that writes the result lines. */
  method ListEntries(page: seq<Track>, offset: int, artistWidth: nat, hiddenArtist: Option<string>) returns (entries: seq<Entry>)
    ensures entries == Entries(page, offset, artistWidth, hiddenArtist)
  {
    ghost var all := Entries(page, offset, artistWidth, hiddenArtist);
    entries := [];
    for i := 0 to |page|
      invariant entries == all[..i]
    {
      var e := EntryOf(page[i], offset + i + 1, artistWidth, hiddenArtist);
      assert e == all[i];
      assert all[..i + 1] == all[..i] + [e];
      entries := entries + [e];
    }
    assert all[..|page|] == all;
  }

  /** An inline button, by what pressing it sends back. */
  datatype Button =
    | Select(caption: string, data: string)
    | PrevPage(data: string)
    | NextPage(data: string)
    | CancelSearch(data: string)

  /** Where a keyboard has a button of the given kind. */
  predicate HasPrev(kb: seq<seq<Button>>)
  {
    exists r, b :: 0 <= r < |kb| && 0 <= b < |kb[r]| && kb[r][b].PrevPage?
  }

  predicate HasNext(kb: seq<seq<Button>>)
  {
    exists r, b :: 0 <= r < |kb| && 0 <= b < |kb[r]| && kb[r][b].NextPage?
  }

  /**
   * The layout both selection keyboards share: one `Select` row per
   * `selects` entry, then the prev/next row if it has a button, then the
   * cancel row.
   */
  function Layout(selects: seq<Button>, prev: Option<Button>, next: Option<Button>): seq<seq<Button>>
  {
    Rows(selects) + NavRow(prev, next) + [[CancelSearch("search_cancel")]]
  }

  /** One row per button. */
  function Rows(buttons: seq<Button>): (r: seq<seq<Button>>)
    ensures |r| == |buttons|
    ensures forall i :: 0 <= i < |r| ==> r[i] == [buttons[i]]
  {
    if buttons == [] then [] else Rows(buttons[..|buttons| - 1]) + [[buttons[|buttons| - 1]]]
  }

  /** Rows holding one button each, in order, are the rows of those buttons. */
  lemma RowsOfElements(rows: seq<seq<Button>>, buttons: seq<Button>)
    requires |rows| == |buttons|
    requires forall k :: 0 <= k < |rows| ==> rows[k] == [buttons[k]]
    ensures rows == Rows(buttons)
  {
  }

  /** The navigation row, present only when it holds a button. */
  function NavRow(prev: Option<Button>, next: Option<Button>): seq<seq<Button>>
  {
    var nav := (if prev.Some? then [prev.value] else []) + (if next.Some? then [next.value] else []);
    if nav != [] then [nav] else []
  }

  /**
   * The `get_track_selection_keyboard` loop and conditionals: one row per
   * selection button, the navigation row when it holds a button, the
   * cancel row.
   */
  method BuildLayout(selects: seq<Button>, prev: Option<Button>, next: Option<Button>) returns (kb: seq<seq<Button>>)
    ensures kb == Layout(selects, prev, next)
  {
    kb := [];
    for i := 0 to |selects|
      invariant |kb| == i
      invariant forall k :: 0 <= k < i ==> kb[k] == [selects[k]]
    {
      kb := kb + [[selects[i]]];
    }
    RowsOfElements(kb, selects);
    var nav: seq<Button> := [];
    if prev.Some? {
      nav := nav + [prev.value];
    }
    if next.Some? {
      nav := nav + [next.value];
    }
    assert nav == (if prev.Some? then [prev.value] else []) + (if next.Some? then [next.value] else []);
    if nav != [] {
      kb := kb + [nav];
    }
    kb := kb + [[CancelSearch("search_cancel")]];
  }

  /** A layout holds the selection rows in order, one button each, and the cancel row last. */
  lemma LayoutRows(selects: seq<Button>, prev: Option<Button>, next: Option<Button>)
    ensures var kb := Layout(selects, prev, next);
      && |kb| == |selects| + (if prev.Some? || next.Some? then 1 else 0) + 1
      && (forall i :: 0 <= i < |selects| ==> kb[i] == [selects[i]])
      && kb[|kb| - 1] == [CancelSearch("search_cancel")]
  {
  }

  /** A layout shows a prev button iff `prev` is given, and a next button iff `next` is. */
  lemma {:induction false} LayoutNavigation(selects: seq<Button>, prev: Option<Button>, next: Option<Button>)
    requires forall i :: 0 <= i < |selects| ==> selects[i].Select?
    requires prev.Some? ==> prev.value.PrevPage?
    requires next.Some? ==> next.value.NextPage?
    ensures HasPrev(Layout(selects, prev, next)) <==> prev.Some?
    ensures HasNext(Layout(selects, prev, next)) <==> next.Some?
  {
    var kb := Layout(selects, prev, next);
    var nav := (if prev.Some? then [prev.value] else []) + (if next.Some? then [next.value] else []);
    var n := |selects|;
    LayoutRows(selects, prev, next);
    assert forall r :: n <= r < |kb| - 1 ==> kb[r] == nav;
    if prev.Some? {
      assert kb[n][0].PrevPage?;
    }
    if next.Some? {
      assert kb[n][|nav| - 1].NextPage?;
    }
  }

  /** What the search engine call ends in. */
  datatype SearchOutcome = Found(tracks: seq<Track>) | TimedOut | Raised

  /** Whether a search outcome leaves results in the conversation. */
  predicate Stored(outcome: SearchOutcome)
  {
    outcome.Found? && outcome.tracks != []
  }

  /** What the search handlers send or edit, in order. */
  datatype Reply =
    | TooShort
    | Loading
    | NoResults(query: string)
    | MoreResults
    | ShowResults(listing: Listing, keyboard: seq<seq<Button>>)
    | SearchTimeout
    | SearchError
    | SelectionError
    | TrackCard(track: Track)
    | Deleted
}
