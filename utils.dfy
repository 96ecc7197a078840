/**
 * utils.py: link validation, the database fallback wrapper, the history line
 * layout and the splitting of long messages into Telegram-sized chunks.
 */
module Utils {
  import opened Wrappers
  import opened Text

  // ---------------------------------------------------------------- is_valid_url

  /** The prefixes a link may start with. */
  predicate HasLinkPrefix(t: string)
  {
    StartsWith(t, "http://") || StartsWith(t, "https://") || StartsWith(t, "soundcloud.com/")
  }

  /** `is_valid_url(text)` for a `str` argument. */
  function IsValidUrl(text: string): (r: bool)
    ensures r ==> text != []
    ensures r <==> HasLinkPrefix(Strip(text)) && ' ' !in Strip(text) && '\n' !in Strip(text)
  {
    if text == [] then false
    else
      var t := Strip(text);
      HasLinkPrefix(t) && ' ' !in t && '\n' !in t
  }

  /** Validation looks only at the stripped text: stripping first changes nothing. */
  lemma ValidUrlIgnoresSurroundingSpace(text: string)
    ensures IsValidUrl(Strip(text)) == IsValidUrl(text)
  {
    StripIdempotent(text);
  }

  /** A valid link, once stripped, is one unbroken word starting with a known prefix. */
  lemma ValidUrlShape(text: string)
    requires IsValidUrl(text)
    ensures |Strip(text)| >= 7
    ensures forall k :: 0 <= k < |Strip(text)| ==> Strip(text)[k] != ' ' && Strip(text)[k] != '\n'
  {
  }

  // ---------------------------------------------------------------- safe_db_operation

  /** The result of running an operation on the store: no store configured, it raised, or it returned. */
  datatype DbCall<T> = NoDb | DbRaised | DbReturned(value: T)

  /** `safe_db_operation(operation, fallback)` */
  function SafeDbOperation<T>(call: DbCall<T>, fallback: T): T
  {
    match call
    case DbReturned(v) => v
    case _ => fallback
  }

  /** `get_user_language_safe`: the stored language, else 'ua'. */
  function UserLanguageSafe(call: DbCall<string>): string
  {
    SafeDbOperation(call, "ua")
  }

  /** The fallback is returned exactly when the store is missing or fails (or returns the fallback itself). */
  lemma SafeDbFallback<T>(call: DbCall<T>, fallback: T)
    ensures !call.DbReturned? ==> SafeDbOperation(call, fallback) == fallback
    ensures call.DbReturned? ==> SafeDbOperation(call, fallback) == call.value
  {
  }

  /** A user's language reads 'ua' exactly when the store is missing or fails, or holds 'ua'. */
  lemma LanguageFallback(call: DbCall<string>)
    ensures UserLanguageSafe(call) == "ua" <==> !call.DbReturned? || call.value == "ua"
  {
  }

  // ---------------------------------------------------------------- format_history_item

  /** A history row's date: a `datetime`, a string, or anything else. */
  datatype DateValue = DateTime(formatted: string) | DateText(text: string) | OtherDate

  /** The date column as shown: the `strftime` text, the first 16 characters of a string, or 'unknown'. */
  function DateShown(date: DateValue, unknown: string): (r: string)
    ensures date.DateText? ==> |r| <= 16 && |r| <= |date.text| && r == date.text[..|r|]
  {
    match date
    case DateTime(f) => f
    case DateText(t) => if |t| > 16 then t[..16] else t
    case OtherDate => unknown
  }

  /**
   * `format_history_item`: four lines, the first numbered and holding the
   * title cut to 50 characters plus "...". `sizeText` is the caller's
   * `f"{size:.1f}"`, since floats are not modelled.
   */
  function FormatHistoryItem(title: string, tracks: int, sizeText: string, date: DateValue,
                             trackWord: string, unknown: string, index: int): (lines: seq<string>)
    ensures |lines| == 4 && lines[3] == ""
    ensures lines[0] == IntToString(index) + ". **" + Truncate(title, 50) + "**"
  {
    [IntToString(index) + ". **" + Truncate(title, 50) + "**",
     "   🎵 " + IntToString(tracks) + " " + trackWord + ", 💾 " + sizeText + "MB",
     "   📅 " + DateShown(date, unknown),
     ""]
  }

  /** The title shown never exceeds 53 characters and always begins with the title's own first characters. */
  lemma HistoryTitleBound(title: string)
    ensures |Truncate(title, 50)| <= 53
    ensures |title| <= 50 ==> Truncate(title, 50) == title
    ensures |title| > 50 ==> Truncate(title, 50)[..50] == title[..50] && EndsWith(Truncate(title, 50), "...")
  {
    if |title| <= 50 {
    } else {
      assert |Truncate(title, 50)| == 53;
    }
  }

  // ---------------------------------------------------------------- send_chunked_message

  /** The loop state of the chunker: the finished chunks and the one being filled. */
  datatype Chunking = Chunking(chunks: seq<string>, current: string)

  /** One iteration of the chunker's loop over the lines. */
  function ChunkStep(st: Chunking, line: string, maxLength: int): Chunking
  {
    if |st.current| + |line| + 1 > maxLength then
      Chunking(if st.current != "" then st.chunks + [st.current] else st.chunks, line)
    else if st.current != "" then Chunking(st.chunks, st.current + "\n" + line)
    else Chunking(st.chunks, line)
  }

  /** The chunker's state after the given lines. */
  function ChunkFold(lines: seq<string>, maxLength: int): Chunking
  {
    if lines == [] then Chunking([], "")
    else ChunkStep(ChunkFold(lines[..|lines| - 1], maxLength), lines[|lines| - 1], maxLength)
  }

  /** The chunks of a long text: the finished ones and a non-empty last one. */
  function Chunks(text: string, maxLength: int): seq<string>
  {
    var st := ChunkFold(Split(text, '\n'), maxLength);
    if st.current != "" then st.chunks + [st.current] else st.chunks
  }

  /** The "📄 Часть i/n" header, present only when there is more than one chunk. */
  function PartPrefix(i: nat, n: nat): string
  {
    if n > 1 then "📄 Часть " + NatToString(i + 1) + "/" + NatToString(n) + "\n\n" else ""
  }

  /** Each chunk behind its part header. */
  function NumberedParts(cs: seq<string>): seq<string>
  {
    seq(|cs|, i requires 0 <= i < |cs| => PartPrefix(i, |cs|) + cs[i])
  }

  /** The messages `send_chunked_message` sends, in order. */
  function ChunkedMessages(text: string, maxLength: int): seq<string>
  {
    if |text| <= maxLength then [text] else NumberedParts(Chunks(text, maxLength))
  }

  /** A chunk of the text is acceptable: non-empty, and within the limit unless it is one over-long line. */
  predicate GoodChunk(c: string, lines: seq<string>, maxLength: int)
  {
    c != "" && (|c| <= maxLength || c in lines)
  }

  /** The chunk being filled is empty or acceptable. */
  predicate GoodCurrent(c: string, lines: seq<string>, maxLength: int)
  {
    c == "" || GoodChunk(c, lines, maxLength)
  }

  lemma {:induction false} ChunkFoldGood(lines: seq<string>, maxLength: int)
    ensures var st := ChunkFold(lines, maxLength);
      && (forall k :: 0 <= k < |st.chunks| ==> GoodChunk(st.chunks[k], lines, maxLength))
      && GoodCurrent(st.current, lines, maxLength)
  {
    if lines != [] {
      var init := lines[..|lines| - 1];
      ChunkFoldGood(init, maxLength);
      var st := ChunkFold(init, maxLength);
      forall k | 0 <= k < |st.chunks| ensures GoodChunk(st.chunks[k], lines, maxLength) {
        if st.chunks[k] in init {
          var j :| 0 <= j < |init| && init[j] == st.chunks[k];
          assert lines[j] == init[j];
        }
      }
      if st.current in init {
        var j :| 0 <= j < |init| && init[j] == st.current;
        assert lines[j] == init[j];
      }
    }
  }

  /**
   * No chunk is empty, and a chunk is longer than `maxLength` only when it is a
   * single line of the text that is itself longer.
   */
  lemma ChunksAreGood(text: string, maxLength: int)
    ensures forall k :: 0 <= k < |Chunks(text, maxLength)| ==>
              GoodChunk(Chunks(text, maxLength)[k], Split(text, '\n'), maxLength)
  {
    ChunkFoldGood(Split(text, '\n'), maxLength);
  }

  /** The non-empty strings of a list, in order. */
  function NonEmpty(xs: seq<string>): (r: seq<string>)
    ensures |r| <= |xs|
  {
    if xs == [] then []
    else NonEmpty(xs[..|xs| - 1]) + (if xs[|xs| - 1] != "" then [xs[|xs| - 1]] else [])
  }

  lemma {:induction false} NonEmptyAppend(xs: seq<string>, ys: seq<string>)
    ensures NonEmpty(xs + ys) == NonEmpty(xs) + NonEmpty(ys)
    decreases |ys|
  {
    if ys != [] {
      assert (xs + ys)[..|xs + ys| - 1] == xs + ys[..|ys| - 1];
      NonEmptyAppend(xs, ys[..|ys| - 1]);
    } else {
      assert xs + ys == xs;
    }
  }

  /** The lines of every chunk, one after the other. */
  function Pieces(chunks: seq<string>): seq<string>
  {
    if chunks == [] then [] else Pieces(chunks[..|chunks| - 1]) + Split(chunks[|chunks| - 1], '\n')
  }

  lemma PiecesSnoc(chunks: seq<string>, c: string)
    ensures Pieces(chunks + [c]) == Pieces(chunks) + Split(c, '\n')
  {
    assert (chunks + [c])[..|chunks|] == chunks;
  }

  /** The non-empty lines held by a chunker state, finished chunks first. */
  function Held(st: Chunking): seq<string>
  {
    NonEmpty(Pieces(st.chunks) + Split(st.current, '\n'))
  }

  lemma HeldParts(st: Chunking)
    ensures Held(st) == NonEmpty(Pieces(st.chunks)) + NonEmpty(Split(st.current, '\n'))
  {
    NonEmptyAppend(Pieces(st.chunks), Split(st.current, '\n'));
  }

  /** A line that does not fit closes a non-empty chunk and starts the next one. */
  lemma OverflowKeepsLines(st: Chunking, line: string)
    requires '\n' !in line && st.current != ""
    ensures Held(Chunking(st.chunks + [st.current], line)) == Held(st) + NonEmpty([line])
  {
    SplitWhole(line, '\n');
    HeldParts(st);
    HeldParts(Chunking(st.chunks + [st.current], line));
    PiecesSnoc(st.chunks, st.current);
    NonEmptyAppend(Pieces(st.chunks), Split(st.current, '\n'));
  }

  /** A line that fits is added to the chunk being filled after a newline. */
  lemma ExtendKeepsLines(st: Chunking, line: string)
    requires '\n' !in line
    ensures Held(Chunking(st.chunks, st.current + "\n" + line)) == Held(st) + NonEmpty([line])
  {
    var p := Pieces(st.chunks);
    var c := Split(st.current, '\n');
    SplitWhole(line, '\n');
    SplitAround(st.current, line, '\n');
    assert st.current + "\n" + line == st.current + ['\n'] + line;
    calc {
      Held(Chunking(st.chunks, st.current + "\n" + line));
      NonEmpty(p + (c + [line]));
      { NonEmptyAppend(p, c + [line]); }
      NonEmpty(p) + NonEmpty(c + [line]);
      { NonEmptyAppend(c, [line]); }
      NonEmpty(p) + (NonEmpty(c) + NonEmpty([line]));
      { NonEmptyAppend(p, c); }
      NonEmpty(p + c) + NonEmpty([line]);
    }
  }

  /** An empty chunk being filled is replaced by the line. */
  lemma ReplaceKeepsLines(st: Chunking, line: string)
    requires '\n' !in line && st.current == ""
    ensures Held(Chunking(st.chunks, line)) == Held(st) + NonEmpty([line])
  {
    SplitWhole(line, '\n');
    HeldParts(st);
    HeldParts(Chunking(st.chunks, line));
    assert Split(st.current, '\n') == [""];
  }

  /** One step of the chunker adds the new line, if it is not empty, after the lines already held. */
  lemma ChunkStepKeepsLines(st: Chunking, line: string, maxLength: int)
    requires '\n' !in line
    ensures Held(ChunkStep(st, line, maxLength)) == Held(st) + NonEmpty([line])
  {
    if st.current == "" {
      ReplaceKeepsLines(st, line);
    } else if |st.current| + |line| + 1 > maxLength {
      OverflowKeepsLines(st, line);
    } else {
      ExtendKeepsLines(st, line);
    }
  }

  /** The chunker keeps the non-empty lines it has read, in order. */
  lemma {:induction false} ChunkFoldKeepsLines(lines: seq<string>, maxLength: int)
    requires forall k :: 0 <= k < |lines| ==> '\n' !in lines[k]
    ensures Held(ChunkFold(lines, maxLength)) == NonEmpty(lines)
  {
    if lines != [] {
      var init := lines[..|lines| - 1];
      var line := lines[|lines| - 1];
      ChunkFoldKeepsLines(init, maxLength);
      ChunkStepKeepsLines(ChunkFold(init, maxLength), line, maxLength);
      assert lines == init + [line];
      NonEmptyAppend(init, [line]);
    }
  }

  /**
   * Reading the chunks line by line gives back exactly the text's non-empty
   * lines, in their original order (empty lines can be dropped at chunk
   * boundaries).
   */
  lemma ChunksKeepLines(text: string, maxLength: int)
    ensures NonEmpty(Pieces(Chunks(text, maxLength))) == NonEmpty(Split(text, '\n'))
  {
    var st := ChunkFold(Split(text, '\n'), maxLength);
    SplitPiecesFree(text, '\n');
    ChunkFoldKeepsLines(Split(text, '\n'), maxLength);
    HeldParts(st);
    if st.current != "" {
      PiecesSnoc(st.chunks, st.current);
      NonEmptyAppend(Pieces(st.chunks), Split(st.current, '\n'));
    } else {
      assert Split(st.current, '\n') == [""];
    }
  }

  /** A short text goes out as it is; a long one as chunks, numbered only when there are several. */
  lemma ChunkedMessagesMeaning(text: string, maxLength: int)
    ensures |text| <= maxLength ==> ChunkedMessages(text, maxLength) == [text]
    ensures |text| > maxLength ==>
              var cs := Chunks(text, maxLength);
              && |ChunkedMessages(text, maxLength)| == |cs|
              && (|cs| == 1 ==> ChunkedMessages(text, maxLength) == cs)
              && forall i :: 0 <= i < |cs| ==> EndsWith(ChunkedMessages(text, maxLength)[i], cs[i])
  {
    if |text| > maxLength {
      var cs := Chunks(text, maxLength);
      var ms := ChunkedMessages(text, maxLength);
      forall i | 0 <= i < |cs| ensures EndsWith(ms[i], cs[i]) {
        assert ms[i] == PartPrefix(i, |cs|) + cs[i];
        assert ms[i][|ms[i]| - |cs[i]|..] == cs[i];
      }
      if |cs| == 1 {
        assert ms[0] == cs[0];
      }
    }
  }

  /** The first loop of `send_chunked_message`: gathering the lines into chunks. */
  method GatherChunks(text: string, maxLength: int) returns (chunks: seq<string>)
    ensures chunks == Chunks(text, maxLength)
  {
    var lines := Split(text, '\n');
    chunks := [];
    var current := "";
    for i := 0 to |lines|
      invariant ChunkFold(lines[..i], maxLength) == Chunking(chunks, current)
    {
      var line := lines[i];
      assert lines[..i + 1][..i] == lines[..i];
      assert ChunkFold(lines[..i + 1], maxLength) == ChunkStep(Chunking(chunks, current), line, maxLength);
      if |current| + |line| + 1 > maxLength {
        if current != "" {
          chunks := chunks + [current];
        }
        current := line;
      } else {
        if current != "" {
          current := current + "\n" + line;
        } else {
          current := line;
        }
      }
    }
    assert lines[..|lines|] == lines;
    if current != "" {
      chunks := chunks + [current];
    }
  }

  /** `send_chunked_message`: the texts it sends, in order. */
  method SendChunkedMessage(text: string, maxLength: int) returns (messages: seq<string>)
    ensures messages == ChunkedMessages(text, maxLength)
  {
    if |text| <= maxLength {
      return [text];
    }
    var chunks := GatherChunks(text, maxLength);
    ghost var all := NumberedParts(chunks);
    messages := [];
    for i := 0 to |chunks|
      invariant messages == all[..i]
    {
      var m := PartPrefix(i, |chunks|) + chunks[i];
      assert all[..i + 1] == all[..i] + [m];
      messages := messages + [m];
    }
    assert all[..|chunks|] == all;
  }
}
