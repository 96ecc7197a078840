/**
 * services/search_improved.py, `_extract_artist_from_title` and
 * `_fallback_artist_extraction`: the heuristic that splits a SoundCloud
 * title into an artist and a title. Five regular expressions
 * `^(.*?)\s*SEP\s*(.*)$` (or `^(.*?)\s*OPEN(.*)CLOSE$`) are tried in order
 * with `re.match`; the first whose stripped groups pass the length check
 * wins. Otherwise the uploader is the artist, and failing that a comma or
 * a separator near the start of a long title is used.
 *
 * The regular expressions are modelled by how Python's backtracking
 * matcher runs them: `.` stops at a line break, `$` matches at the end or
 * before a final line break, `\s` is `str.isspace`.
 */
module ArtistSplit {
  import opened Wrappers
  import opened Text

  /** The five patterns, by what separates the artist from the title. */
  datatype Pattern = Dash | Bar | Colon | Guillemets | Quotes

  /** The order in which the patterns are tried. */
  const Patterns: seq<Pattern> := [Dash, Bar, Colon, Guillemets, Quotes]

  /** The characters that end the first group: `[-–—]`, `[|]`, `:`, `«`, `"`. */
  predicate Opens(p: Pattern, c: char)
  {
    match p
    case Dash => c == '-' || c == '\U{2013}' || c == '\U{2014}'
    case Bar => c == '|'
    case Colon => c == ':'
    case Guillemets => c == '\U{AB}'
    case Quotes => c == '"'
  }

  /** The character that must close the second group, for the two quoting patterns. */
  function Closer(p: Pattern): Option<char>
  {
    match p
    case Guillemets => Some('\U{BB}')
    case Quotes => Some('"')
    case _ => None
  }

  /**
   * A way the pattern matches `t`: group 1 is `t[..k]`, the whitespace
   * `t[k..j]` and the separator `t[j]` follow, and group 2 is
   * `t[start..end]`.
   */
  datatype Span = Span(k: nat, j: nat, start: nat, end: nat)

  /**
   * The regular expression matches `t` with these groups: `.` never
   * crosses a line break, `\s*` covers only whitespace, and `$` sits at the
   * end of `t` or before its final line break.
   */
  predicate Fits(t: string, p: Pattern, sp: Span)
  {
    && sp.k <= sp.j < sp.start <= sp.end <= |t|
    && (forall i :: 0 <= i < sp.k ==> t[i] != '\n')
    && (forall i :: sp.k <= i < sp.j ==> IsSpace(t[i]))
    && Opens(p, t[sp.j])
    && (forall i :: sp.start <= i < sp.end ==> t[i] != '\n')
    && match Closer(p)
       case None =>
         && (forall i :: sp.j < i < sp.start ==> IsSpace(t[i]))
         && (sp.end == |t| || (sp.end == |t| - 1 && t[sp.end] == '\n'))
       case Some(c) =>
         && sp.start == sp.j + 1 && sp.end < |t| && t[sp.end] == c
         && (sp.end == |t| - 1 || (sp.end == |t| - 2 && t[|t| - 1] == '\n'))
  }

  /** No line break at or after `m`, except as the last character. */
  predicate LineEnds(t: string, m: nat)
  {
    forall i :: m <= i < |t| && t[i] == '\n' ==> i == |t| - 1
  }

  /**
   * The second group once the separator at `j` has matched: after the
   * greedy `\s*`, `(.*)$` takes the rest of the line; for the quoting
   * patterns `(.*)` runs up to the closing character that `$` follows.
   */
  function TailAt(t: string, p: Pattern, j: nat): Option<(nat, nat)>
    requires j < |t|
  {
    match Closer(p)
    case None =>
      var m := SkipSpace(t, j + 1);
      if LineEnds(t, m) then Some((m, if m < |t| && t[|t| - 1] == '\n' then |t| - 1 else |t|)) else None
    case Some(c) =>
      var q := if t[|t| - 1] == c then |t| - 1
               else if |t| >= 2 && t[|t| - 1] == '\n' && t[|t| - 2] == c then |t| - 2
               else j;
      if j < q && (forall i :: j < i < q ==> t[i] != '\n') then Some((j + 1, q)) else None
  }

  /** The match with group 1 ending at `k`, if there is one: the greedy `\s*` decides the separator. */
  function AttemptAt(t: string, p: Pattern, k: nat): Option<Span>
    requires k <= |t|
  {
    var j := SkipSpace(t, k);
    if j < |t| && Opens(p, t[j]) then
      match TailAt(t, p, j)
      case Some(g) => Some(Span(k, j, g.0, g.1))
      case None => None
    else None
  }

  /** The lazy `(.*?)`: group 1 grows one character at a time, never over a line break. */
  function MatchFrom(t: string, p: Pattern, k: nat): Option<Span>
    requires k <= |t|
    decreases |t| - k
  {
    match AttemptAt(t, p, k)
    case Some(sp) => Some(sp)
    case None => if k < |t| && t[k] != '\n' then MatchFrom(t, p, k + 1) else None
  }

  /** `re.match(pattern, t)` */
  function Match(t: string, p: Pattern): Option<Span>
  {
    MatchFrom(t, p, 0)
  }

  /** The separators are not whitespace, so the greedy `\s*` stops right at one. */
  lemma OpenerNotSpace(p: Pattern, c: char)
    requires Opens(p, c)
    ensures !IsSpace(c)
  {
  }

  /** What an attempt returns is a match, with the longest whitespace after a separator. */
  lemma AttemptFits(t: string, p: Pattern, k: nat)
    requires k <= |t| && AttemptAt(t, p, k).Some?
    requires forall i :: 0 <= i < k ==> t[i] != '\n'
    ensures Fits(t, p, AttemptAt(t, p, k).value)
    ensures AttemptAt(t, p, k).value.k == k
    ensures Closer(p).None? ==> var s := AttemptAt(t, p, k).value.start; s == |t| || !IsSpace(t[s])
  {
    var j := SkipSpace(t, k);
    var sp := AttemptAt(t, p, k).value;
    if Closer(p).None? {
      var m := SkipSpace(t, j + 1);
      assert sp.start == m;
      if m < |t| && t[|t| - 1] == '\n' {
        assert !IsSpace(t[m]);
        assert m < |t| - 1;
      }
    }
  }

  /** Wherever the pattern can match with group 1 ending at `k`, the attempt at `k` succeeds. */
  lemma FitsAttempt(t: string, p: Pattern, sp: Span)
    requires Fits(t, p, sp)
    ensures AttemptAt(t, p, sp.k).Some?
  {
    OpenerNotSpace(p, t[sp.j]);
    assert SkipSpace(t, sp.k) == sp.j;
    if Closer(p).None? {
      var m := SkipSpace(t, sp.j + 1);
      assert m >= sp.start;
      assert LineEnds(t, m);
    }
  }

  /**
   * Searching from `from` finds a match no later than any `k` after it
   * that can be reached without crossing a line break and where the
   * attempt succeeds.
   */
  lemma {:induction false} MatchFromLeftmost(t: string, p: Pattern, from: nat, k: nat)
    requires from <= k <= |t| && AttemptAt(t, p, k).Some?
    requires forall i :: from <= i < k ==> t[i] != '\n'
    ensures MatchFrom(t, p, from).Some? && MatchFrom(t, p, from).value.k <= k
    decreases k - from
  {
    var here := AttemptAt(t, p, from);
    if here.Some? {
      assert MatchFrom(t, p, from) == here && here.value.k == from;
    } else {
      assert from < k && t[from] != '\n';
      MatchFromLeftmost(t, p, from + 1, k);
      assert MatchFrom(t, p, from) == MatchFrom(t, p, from + 1);
    }
  }

  /** Whatever the search from `from` returns is a match whose group 1 ends at or after `from`. */
  lemma {:induction false} MatchFromFits(t: string, p: Pattern, from: nat)
    requires from <= |t| && MatchFrom(t, p, from).Some?
    requires forall i :: 0 <= i < from ==> t[i] != '\n'
    ensures Fits(t, p, MatchFrom(t, p, from).value) && MatchFrom(t, p, from).value.k >= from
    ensures Closer(p).None? ==> var s := MatchFrom(t, p, from).value.start; s == |t| || !IsSpace(t[s])
    decreases |t| - from
  {
    if AttemptAt(t, p, from).Some? {
      AttemptFits(t, p, from);
    } else {
      MatchFromFits(t, p, from + 1);
    }
  }

  /**
   * `re.match` succeeds exactly when the pattern can match `t`, and then
   * returns the match with the shortest group 1 (the lazy `.*?`) and, for
   * the separator patterns, the longest whitespace before group 2.
   */
  lemma MatchIsLeftmost(t: string, p: Pattern)
    ensures Match(t, p).Some? ==> Fits(t, p, Match(t, p).value)
    ensures Match(t, p).Some? && Closer(p).None? ==>
      var s := Match(t, p).value.start; s == |t| || !IsSpace(t[s])
    ensures forall sp :: Fits(t, p, sp) ==> Match(t, p).Some? && Match(t, p).value.k <= sp.k
  {
    if Match(t, p).Some? {
      MatchFromFits(t, p, 0);
    }
    forall sp | Fits(t, p, sp) ensures Match(t, p).Some? && Match(t, p).value.k <= sp.k {
      FitsAttempt(t, p, sp);
      MatchFromLeftmost(t, p, 0, sp.k);
    }
  }

  /** `(match.group(1).strip(), match.group(2).strip())` */
  function Groups(t: string, sp: Span): (string, string)
    requires sp.k <= |t| && sp.start <= sp.end <= |t|
  {
    (Strip(t[..sp.k]), Strip(t[sp.start..sp.end]))
  }

  /** `len(artist) < 50 and len(clean_title) > 3` */
  predicate Accepted(g: (string, string))
  {
    |g.0| < 50 && |g.1| > 3
  }

  /** The stripped groups of pattern `p`, when it matches `t` and they pass the length check. */
  function AcceptedSplit(t: string, p: Pattern): Option<(string, string)>
  {
    match Match(t, p)
    case None => None
    case Some(sp) =>
      MatchIsLeftmost(t, p);
      var g := Groups(t, sp);
      if Accepted(g) then Some(g) else None
  }

  /** The `for pattern in patterns` loop: the first pattern whose split is accepted. */
  function SplitByPatterns(t: string, ps: seq<Pattern>): (r: Option<(string, string)>)
    ensures r.Some? ==> Accepted(r.value)
  {
    if ps == [] then None
    else
      match AcceptedSplit(t, ps[0])
      case Some(g) => Some(g)
      case None => SplitByPatterns(t, ps[1..])
  }

  /**
   * The patterns are tried in order: the split is that of the first
   * pattern whose groups are accepted, and there is none exactly when no
   * pattern's groups are.
   */
  lemma {:induction false} FirstAcceptedPatternWins(t: string, ps: seq<Pattern>)
    ensures SplitByPatterns(t, ps).None? <==> forall i :: 0 <= i < |ps| ==> AcceptedSplit(t, ps[i]).None?
    ensures forall i :: 0 <= i < |ps| && AcceptedSplit(t, ps[i]).Some? &&
                        (forall h :: 0 <= h < i ==> AcceptedSplit(t, ps[h]).None?) ==>
              SplitByPatterns(t, ps) == AcceptedSplit(t, ps[i])
  {
    if ps != [] {
      FirstAcceptedPatternWins(t, ps[1..]);
      forall i | 1 <= i < |ps| ensures ps[i] == ps[1..][i - 1] {
      }
    }
  }

  /**
   * `_extract_artist_from_title`: an accepted pattern split; otherwise the
   * uploader, unless it is empty or the unknown-artist text, with the title
   * untouched; otherwise `_fallback_artist_extraction`.
   */
  function ExtractArtist(title: string, uploader: string, unknownArtist: string): (string, string)
  {
    match SplitByPatterns(title, Patterns)
    case Some(g) => g
    case None =>
      if uploader != "" && uploader != unknownArtist then (uploader, title)
      else FallbackArtist(title, unknownArtist)
  }

  /** The separators a long title is cut at, in the order they are looked for. */
  const LongTitleSeparators: seq<string> := [" - ", " | ", " : "]

  /** The first of `seps` that occurs in `head`. */
  function FirstSeparatorIn(head: string, seps: seq<string>): (r: Option<string>)
    ensures r.Some? ==> r.value in seps && Contains(head, r.value)
    ensures r.None? ==> forall i :: 0 <= i < |seps| ==> !Contains(head, seps[i])
  {
    if seps == [] then None
    else if Contains(head, seps[0]) then Some(seps[0])
    else FirstSeparatorIn(head, seps[1..])
  }

  /** `(parts[0].strip(), parts[1].strip())` for `title.split(sep, 1)` */
  function StrippedParts(parts: (string, string)): (string, string)
  {
    (Strip(parts.0), Strip(parts.1))
  }

  /**
   * `_fallback_artist_extraction`: the parts around the first comma when
   * the part before it is shorter than 30; else, for a title longer than
   * 40, the parts around the first of " - ", " | ", " : " found in the
   * first 30 characters; else the unknown-artist text and the title.
   */
  function FallbackArtist(title: string, unknownArtist: string): (string, string)
  {
    var comma := SplitOnce(title, ",");
    if comma.Some? && |comma.value.0| < 30 then StrippedParts(comma.value)
    else if |title| > 40 then
      match FirstSeparatorIn(title[..30], LongTitleSeparators)
      case Some(sep) =>
        var parts := SplitOnce(title, sep);
        assert parts.Some? by {
          OccursInPrefix(title, sep, 30, IndexOf(title[..30], sep).value);
        }
        StrippedParts(parts.value)
      case None => (unknownArtist, title)
    else (unknownArtist, title)
  }

  /** A comma with fewer than 30 characters before it splits the title there. */
  lemma FallbackAtComma(title: string, unknownArtist: string, before: string, after: string)
    requires before + "," + after == title && ',' !in before && |before| < 30
    ensures FallbackArtist(title, unknownArtist) == (Strip(before), Strip(after))
  {
    CommaSplit(title, before, after);
  }

  /**
   * Without such a comma, a title longer than 40 characters with a
   * separator in its first 30 is split at that separator's first
   * occurrence, which lies within those 30 characters.
   */
  lemma FallbackAtSeparator(title: string, unknownArtist: string)
    requires !Contains(title, ",") || |SplitOnce(title, ",").value.0| >= 30
    requires |title| > 40 && FirstSeparatorIn(title[..30], LongTitleSeparators).Some?
    ensures var sep := FirstSeparatorIn(title[..30], LongTitleSeparators).value;
      && IndexOf(title, sep).Some? && IndexOf(title, sep).value + |sep| <= 30
      && FallbackArtist(title, unknownArtist) ==
           (Strip(title[..IndexOf(title, sep).value]), Strip(title[IndexOf(title, sep).value + |sep|..]))
  {
    var sep := FirstSeparatorIn(title[..30], LongTitleSeparators).value;
    var k := IndexOf(title[..30], sep).value;
    OccursInPrefix(title, sep, 30, k);
    var i := IndexOf(title, sep).value;
    assert i <= k;
  }

  /** Otherwise the artist is unknown and the title is kept as it is. */
  lemma FallbackUnknown(title: string, unknownArtist: string)
    requires !Contains(title, ",") || |SplitOnce(title, ",").value.0| >= 30
    requires |title| <= 40 || FirstSeparatorIn(title[..30], LongTitleSeparators).None?
    ensures FallbackArtist(title, unknownArtist) == (unknownArtist, title)
  {
  }

  /** The first comma of `before + "," + after`, when `before` has none, is the one after `before`. */
  lemma CommaSplit(title: string, before: string, after: string)
    requires before + "," + after == title && ',' !in before
    ensures SplitOnce(title, ",") == Some((before, after))
  {
    assert OccursAt(title, ",", |before|);
    var i := IndexOf(title, ",").value;
    assert title[i] == ',';
    assert title[..|before|] == before && title[|before| + 1..] == after;
  }

  /**
   * The split in full: an accepted pattern split wins; with none, a real
   * uploader becomes the artist and the title is left as it is; otherwise
   * the fallback decides. A pattern split always has an artist shorter than
   * 50 and a title longer than 3 characters.
   */
  lemma ExtractArtistMeaning(title: string, uploader: string, unknownArtist: string)
    ensures var r := ExtractArtist(title, uploader, unknownArtist);
      && (SplitByPatterns(title, Patterns).Some? ==> r == SplitByPatterns(title, Patterns).value && Accepted(r))
      && (SplitByPatterns(title, Patterns).None? && uploader != "" && uploader != unknownArtist ==> r == (uploader, title))
      && (SplitByPatterns(title, Patterns).None? && (uploader == "" || uploader == unknownArtist) ==>
            r == FallbackArtist(title, unknownArtist))
  {
  }

  /** "A - Song" matches the dash pattern with group 1 "A" and group 2 "Song". */
  lemma DashExampleMatch()
    ensures Match("A - Song", Dash) == Some(Span(1, 2, 4, 8))
  {
    var t := "A - Song";
    assert SkipSpace(t, 0) == 0;
    assert AttemptAt(t, Dash, 0).None?;
    assert SkipSpace(t, 1) == 2 && SkipSpace(t, 3) == 4;
    assert LineEnds(t, 4);
    assert AttemptAt(t, Dash, 1) == Some(Span(1, 2, 4, 8));
  }

  /** "A - Song" is split into the artist "A" and the title "Song", whoever uploaded it. */
  lemma DashExample(uploader: string, unknownArtist: string)
    ensures ExtractArtist("A - Song", uploader, unknownArtist) == ("A", "Song")
  {
    var t := "A - Song";
    DashExampleMatch();
    assert t[..1] == "A";
    assert |t[4..8]| == 4 && t[4..8][0] == 'S' && t[4..8][1] == 'o' && t[4..8][2] == 'n' && t[4..8][3] == 'g';
    assert t[4..8] == "Song";
    StripNoEdgeSpace("A");
    StripNoEdgeSpace("Song");
    assert AcceptedSplit(t, Dash) == Some(("A", "Song"));
    assert Patterns[0] == Dash;
  }
}
