/**
 * The per-user conversation state that the handlers keep in aiogram's FSM
 * storage: a phase (the `StatesGroup` state) and a dict of data. Each key the
 * handlers use is a field that is either absent or holds a value.
 */
module Fsm {
  import opened Wrappers
  import opened Search

  /** The search flow's states; `NoPhase` is aiogram's `None` state. */
  datatype Phase = NoPhase | WaitingQuery | ShowingResults

  datatype FsmData = FsmData(
    url: Slot<Option<string>>,
    contentType: Slot<string>,
    playlistTitle: Slot<string>,
    trackCount: Slot<int>,
    artist: Slot<string>,
    isRedownload: Slot<bool>,
    redownloadUrl: Slot<string>,
    searchResults: Slot<seq<Track>>,
    searchQuery: Slot<string>,
    offset: Slot<int>)

  const EmptyData := FsmData(Absent, Absent, Absent, Absent, Absent, Absent, Absent, Absent, Absent, Absent)

  /**
   * The `update_data` every track-selection handler makes: the chosen search
   * result becomes a single-track download request.
   */
  function SelectedTrackData(data: FsmData, t: Track): (r: FsmData)
    ensures r.url == Present(t.permalinkUrl) && r.contentType == Present("track")
    ensures r.playlistTitle == Present(t.title) && r.trackCount == Present(1) && r.artist == Present(t.artist)
    ensures r.searchResults == data.searchResults && r.searchQuery == data.searchQuery && r.offset == data.offset
    ensures r.isRedownload == data.isRedownload && r.redownloadUrl == data.redownloadUrl
  {
    data.(url := Present(t.permalinkUrl), contentType := Present("track"), playlistTitle := Present(t.title),
          trackCount := Present(1), artist := Present(t.artist))
  }

  /** One user's `FSMContext`. */
  class Conversation {
    var phase: Phase
    var data: FsmData

    constructor ()
      ensures phase == NoPhase && data == EmptyData
    {
      phase := NoPhase;
      data := EmptyData;
    }

    /** `state.clear()`: the phase and every key are dropped. */
    method Clear()
      modifies this
      ensures phase == NoPhase && data == EmptyData
    {
      phase := NoPhase;
      data := EmptyData;
    }
  }
}
