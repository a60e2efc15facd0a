/**
 * The logic of one story card: the two-step report button, the greedy
 * word wrap of the share image, and the name of the downloaded image.
 */
module StoryCard {
  import opened Wrappers
  import opened Strings

  /**
   * The report button of one card. `reportsSent` counts the calls the card
   * makes to its `onReport` callback.
   */
  class ReportButton {
    const storyId: string
    var hasReported: bool
    var isConfirming: bool
    var reportsSent: nat

    /** A card reports at most once, and a reported card is never confirming. */
    ghost predicate Valid()
      reads this
    {
      && reportsSent == (if hasReported then 1 else 0)
      && (hasReported ==> !isConfirming)
    }

    constructor (id: string)
      ensures Valid() && storyId == id
      ensures !hasReported && !isConfirming && reportsSent == 0
    {
      storyId := id;
      hasReported := false;
      isConfirming := false;
      reportsSent := 0;
    }

    /**
     * `handleReportClick`: ignored once reported; from idle it only asks for
     * confirmation; while confirming it reports the story (the returned id
     * is the `onReport` call) and marks the card reported.
     */
    method Click() returns (reported: Option<string>)
      requires Valid()
      modifies this`hasReported, this`isConfirming, this`reportsSent
      ensures Valid() && reportsSent <= 1
      ensures old(hasReported) ==>
                reported == None && hasReported && isConfirming == old(isConfirming) && reportsSent == old(reportsSent)
      ensures !old(hasReported) && !old(isConfirming) ==>
                reported == None && isConfirming && !hasReported && reportsSent == old(reportsSent)
      ensures !old(hasReported) && old(isConfirming) ==>
                reported == Some(storyId) && hasReported && !isConfirming && reportsSent == old(reportsSent) + 1
    {
      if hasReported {
        return None;
      }
      if !isConfirming {
        isConfirming := true;
        reported := None;
      } else {
        reported := Some(storyId);
        reportsSent := reportsSent + 1;
        hasReported := true;
        isConfirming := false;
      }
    }

    /** The three-second timer set on entering confirmation: back to idle, nothing reported. */
    method Timeout()
      requires Valid()
      modifies this`isConfirming
      ensures Valid() && !isConfirming
    {
      isConfirming := false;
    }
  }

  const CanvasWidth := 1080
  const CanvasHeight := 1920
  const MaxLineWidth := 800
  const LineHeight := 100
  /** The baseline of the first line of the message. */
  const FirstLineY := CanvasHeight / 2 - 100

  /** One `fillText` call: the text, centred at `x`, on baseline `y`. */
  datatype TextDraw = TextDraw(text: string, x: int, y: int)

  /** A line as the wrap loop builds it: every word followed by one space. */
  function Spaced(words: seq<string>): string {
    if words == [] then [] else Spaced(words[..|words| - 1]) + words[|words| - 1] + " "
  }

  /** The words of all lines, in order. */
  function Flatten(lines: seq<seq<string>>): seq<string> {
    if lines == [] then [] else Flatten(lines[..|lines| - 1]) + lines[|lines| - 1]
  }

  /** The typographic quotes the share image puts around each line. */
  function Quoted(s: string): string {
    "\U{201C}" + s + "\U{201D}"
  }

  /** The `fillText` call for the `k`-th line of the message, made of `words`. */
  function LineDraw(words: seq<string>, k: nat): TextDraw {
    TextDraw(Quoted(Trim(Spaced(words))), CanvasWidth / 2, FirstLineY + LineHeight * k)
  }

  /** Adding a word to a line appends the word and one space to its text. */
  lemma SpacedSnoc(words: seq<string>, w: string)
    ensures Spaced(words + [w]) == Spaced(words) + w + " "
  {
    assert (words + [w])[..|words|] == words;
  }

  /** Closing a line appends its words to the words placed so far. */
  lemma {:induction false} FlattenSnoc(lines: seq<seq<string>>, line: seq<string>)
    ensures Flatten(lines + [line]) == Flatten(lines) + line
  {
    assert (lines + [line])[..|lines|] == lines;
  }

  /** Concatenation is associative. */
  lemma AppendAssoc<T>(a: seq<T>, b: seq<T>, c: seq<T>)
    ensures a + (b + c) == a + b + c
  {
  }

  /** A prefix one longer is the shorter prefix and the next element. */
  lemma TakeSnoc<T>(s: seq<T>, n: nat)
    requires n < |s|
    ensures s[..n + 1] == s[..n] + [s[n]]
  {
  }

  /**
   * Line breaks a greedy wrap may produce: no line is empty, every line was
   * built only from words that fitted when added, and every break was
   * forced, because the next line's first word would not have fitted on the
   * line before.
   */
  ghost predicate GreedyBreaks(lines: seq<seq<string>>, measure: string -> int) {
    && (forall k :: 0 <= k < |lines| ==> lines[k] != [])
    && (forall k :: 0 <= k < |lines| ==> PrefixesFit(lines[k], measure))
    && (forall k :: 0 < k < |lines| ==> BreakForced(lines, k, measure))
  }

  /**
   * Every word after the first was added to the line only once the line up
   * to and including it measured within `MaxLineWidth`.
   */
  ghost predicate PrefixesFit(line: seq<string>, measure: string -> int) {
    forall j :: 2 <= j <= |line| ==> measure(Spaced(line[..j])) <= MaxLineWidth
  }

  /** A word whose line up to it fits keeps every prefix of the line fitting. */
  lemma PrefixesFitSnoc(line: seq<string>, w: string, measure: string -> int)
    requires PrefixesFit(line, measure)
    requires line != [] ==> measure(Spaced(line + [w])) <= MaxLineWidth
    ensures PrefixesFit(line + [w], measure)
  {
    var next := line + [w];
    forall j | 2 <= j <= |next| ensures measure(Spaced(next[..j])) <= MaxLineWidth {
      if j <= |line| {
        assert next[..j] == line[..j];
      } else {
        assert next[..j] == next;
      }
    }
  }

  /** The break before line `k` was forced: its first word did not fit on line `k - 1`. */
  ghost predicate BreakForced(lines: seq<seq<string>>, k: int, measure: string -> int)
    requires 0 < k < |lines|
  {
    lines[k] != [] && measure(Spaced(lines[k - 1] + [lines[k][0]])) > MaxLineWidth
  }

  /** Closing the current line keeps the breaks greedy. */
  lemma {:induction false} CloseLine(lines: seq<seq<string>>, current: seq<string>, measure: string -> int)
    requires GreedyBreaks(lines, measure) && current != []
    requires PrefixesFit(current, measure)
    requires lines != [] ==> measure(Spaced(lines[|lines| - 1] + [current[0]])) > MaxLineWidth
    ensures GreedyBreaks(lines + [current], measure)
  {
    var next := lines + [current];
    forall k | 0 <= k < |next| ensures next[k] != [] && PrefixesFit(next[k], measure) {
      if k < |lines| {
        assert next[k] == lines[k];
      }
    }
    forall k | 0 < k < |next| ensures BreakForced(next, k, measure) {
      if k == |lines| {
        assert next[k - 1] == lines[|lines| - 1] && next[k] == current;
      } else {
        assert BreakForced(lines, k, measure);
        assert next[k - 1] == lines[k - 1] && next[k] == lines[k];
      }
    }
  }

  /**
   * After the wrap loop has placed `words[..n]`: the finished `lines` and
   * the `current` line hold exactly those words, and `line` is the current
   * line's text.
   */
  ghost predicate Placed(words: seq<string>, n: int, line: string, current: seq<string>, lines: seq<seq<string>>) {
    && 0 <= n <= |words|
    && line == Spaced(current)
    && Flatten(lines) + current == words[..n]
    && (n == 0 ==> lines == [] && current == [])
    && (n > 0 ==> current != [])
  }

  /** Every finished line has been drawn at its row, and `y` is the next row. */
  ghost predicate Drawn(lines: seq<seq<string>>, draws: seq<TextDraw>, y: int) {
    && |draws| == |lines| && y == FirstLineY + LineHeight * |lines|
    && (forall k :: 0 <= k < |lines| ==> draws[k] == LineDraw(lines[k], k))
  }

  /** The breaks so far are greedy, and the current line was built from words that fitted. */
  ghost predicate Greedy(lines: seq<seq<string>>, current: seq<string>, measure: string -> int) {
    && GreedyBreaks(lines, measure)
    && PrefixesFit(current, measure)
    && (lines != [] && current != [] ==> measure(Spaced(lines[|lines| - 1] + [current[0]])) > MaxLineWidth)
  }

  /** A word that does not fit closes the current line and starts a new one. */
  lemma PlaceFlush(words: seq<string>, n: int, line: string, current: seq<string>, lines: seq<seq<string>>)
    requires Placed(words, n, line, current, lines) && 0 < n < |words|
    ensures Placed(words, n + 1, words[n] + " ", [words[n]], lines + [current])
  {
    TakeSnoc(words, n);
    SpacedSnoc([], words[n]);
    FlattenSnoc(lines, current);
  }

  /** A word that fits, or the very first word, is added to the current line. */
  lemma PlaceExtend(words: seq<string>, n: int, line: string, current: seq<string>, lines: seq<seq<string>>)
    requires Placed(words, n, line, current, lines) && 0 <= n < |words|
    ensures Placed(words, n + 1, line + words[n] + " ", current + [words[n]], lines)
  {
    TakeSnoc(words, n);
    SpacedSnoc(current, words[n]);
    AppendAssoc(Flatten(lines), current, [words[n]]);
  }

  /** Drawing the current line, trimmed and quoted at row `y`, keeps every line's draw in place. */
  lemma DrawLine(lines: seq<seq<string>>, draws: seq<TextDraw>, y: int, line: string, current: seq<string>)
    requires Drawn(lines, draws, y) && line == Spaced(current)
    ensures Drawn(lines + [current], draws + [TextDraw(Quoted(Trim(line)), CanvasWidth / 2, y)], y + LineHeight)
  {
  }

  /** Closing a non-empty current line whose next word does not fit keeps the breaks greedy. */
  lemma GreedyFlush(lines: seq<seq<string>>, current: seq<string>, w: string, measure: string -> int)
    requires Greedy(lines, current, measure) && current != []
    requires measure(Spaced(current) + w + " ") > MaxLineWidth
    ensures Greedy(lines + [current], [w], measure)
  {
    CloseLine(lines, current, measure);
    SpacedSnoc(current, w);
    assert (lines + [current])[|lines|] == current;
  }

  /** Adding a word that fits, or a first word, keeps the breaks greedy and the line fitting. */
  lemma GreedyExtend(lines: seq<seq<string>>, current: seq<string>, w: string, measure: string -> int)
    requires Greedy(lines, current, measure)
    requires current != [] ==> measure(Spaced(current) + w + " ") <= MaxLineWidth
    requires lines != [] ==> current != []
    ensures Greedy(lines, current + [w], measure)
  {
    SpacedSnoc(current, w);
    PrefixesFitSnoc(current, w, measure);
    assert current != [] ==> (current + [w])[0] == current[0];
  }

  /** The state of the wrap loop after `n` words. */
  ghost predicate Wrapping(words: seq<string>, measure: string -> int, n: int, line: string,
                           current: seq<string>, lines: seq<seq<string>>, draws: seq<TextDraw>, y: int)
  {
    Placed(words, n, line, current, lines) && Drawn(lines, draws, y) && Greedy(lines, current, measure)
  }

  /** One pass of the loop that overflows: the line is drawn and the word starts the next. */
  lemma FlushStep(words: seq<string>, measure: string -> int, n: int, line: string,
                  current: seq<string>, lines: seq<seq<string>>, draws: seq<TextDraw>, y: int)
    requires Wrapping(words, measure, n, line, current, lines, draws, y)
    requires 0 < n < |words| && measure(line + words[n] + " ") > MaxLineWidth
    ensures Wrapping(words, measure, n + 1, words[n] + " ", [words[n]], lines + [current],
                     draws + [TextDraw(Quoted(Trim(line)), CanvasWidth / 2, y)], y + LineHeight)
  {
    PlaceFlush(words, n, line, current, lines);
    DrawLine(lines, draws, y, line, current);
    GreedyFlush(lines, current, words[n], measure);
  }

  /** One pass of the loop that does not overflow: the word joins the current line. */
  lemma ExtendStep(words: seq<string>, measure: string -> int, n: int, line: string,
                   current: seq<string>, lines: seq<seq<string>>, draws: seq<TextDraw>, y: int)
    requires Wrapping(words, measure, n, line, current, lines, draws, y)
    requires 0 <= n < |words| && !(measure(line + words[n] + " ") > MaxLineWidth && n > 0)
    ensures Wrapping(words, measure, n + 1, line + words[n] + " ", current + [words[n]], lines, draws, y)
  {
    PlaceExtend(words, n, line, current, lines);
    GreedyExtend(lines, current, words[n], measure);
  }

  /** Drawing the last line when the words run out completes the wrap. */
  lemma FinishWrap(words: seq<string>, measure: string -> int, n: int, line: string,
                   current: seq<string>, lines: seq<seq<string>>, draws: seq<TextDraw>, y: int)
    requires Placed(words, n, line, current, lines) && Drawn(lines, draws, y) && Greedy(lines, current, measure)
    requires n >= |words|
    ensures var ls := lines + [current]; var ds := draws + [TextDraw(Quoted(Trim(line)), CanvasWidth / 2, y)];
      && |ls| >= 1 && |ds| == |ls| && Flatten(ls) == words
      && (forall k :: 0 <= k < |ls| ==> ds[k] == LineDraw(ls[k], k))
      && (words != [] ==> GreedyBreaks(ls, measure))
  {
    DrawLine(lines, draws, y, line, current);
    FlattenSnoc(lines, current);
    if current != [] {
      CloseLine(lines, current, measure);
    }
    assert words[..n] == words;
  }

  /**
   * The wrap loop of `generateStoryImage`. Words are added to the current
   * line while the measured line (trailing space included) fits in
   * `MaxLineWidth`; a word that does not fit starts a new line, except the
   * very first word. Each finished line, and the last one, is drawn trimmed
   * and quoted, one `LineHeight` below the previous. `measure` stands for
   * the canvas's `measureText(...).width`; `lines` are the words of each
   * drawn line.
   */
  method WrapWords(words: seq<string>, measure: string -> int)
    returns (lines: seq<seq<string>>, draws: seq<TextDraw>)
    ensures |lines| >= 1 && |draws| == |lines|
    ensures Flatten(lines) == words
    ensures forall k :: 0 <= k < |lines| ==> draws[k] == LineDraw(lines[k], k)
    ensures words != [] ==> GreedyBreaks(lines, measure)
  {
    var line := "";
    var current: seq<string> := [];
    var y := FirstLineY;
    lines, draws := [], [];
    var n := 0;
    while n < |words|
      invariant 0 <= n <= |words|
      invariant Wrapping(words, measure, n, line, current, lines, draws, y)
    {
      var testLine := line + words[n] + " ";
      if measure(testLine) > MaxLineWidth && n > 0 {
        FlushStep(words, measure, n, line, current, lines, draws, y);
        draws := draws + [TextDraw(Quoted(Trim(line)), CanvasWidth / 2, y)];
        lines := lines + [current];
        line := words[n] + " ";
        current := [words[n]];
        y := y + LineHeight;
      } else {
        ExtendStep(words, measure, n, line, current, lines, draws, y);
        line := testLine;
        current := current + [words[n]];
      }
      n := n + 1;
    }
    FinishWrap(words, measure, n, line, current, lines, draws, y);
    draws := draws + [TextDraw(Quoted(Trim(line)), CanvasWidth / 2, y)];
    lines := lines + [current];
  }

  /**
   * The message of the share image: the body split at single spaces, then
   * wrapped. No text is lost: joining the drawn lines' words with single
   * spaces gives the body back, and the breaks are the greedy ones.
   */
  method WrapMessage(body: string, measure: string -> int)
    returns (lines: seq<seq<string>>, draws: seq<TextDraw>)
    ensures |lines| >= 1 && |draws| == |lines|
    ensures Join(Flatten(lines), ' ') == body
    ensures forall k :: 0 <= k < |lines| ==> lines[k] != [] && draws[k] == LineDraw(lines[k], k)
    ensures GreedyBreaks(lines, measure)
  {
    var words := Split(body, ' ');
    lines, draws := WrapWords(words, measure);
    JoinSplit(body, ' ');
  }

  /** The name of the downloaded share image. */
  function DownloadName(id: string): (name: string)
    ensures |name| == |id| + 22
    ensures name[..18] == "unsaid-2025-story-" && name[18..|name| - 4] == id && name[|name| - 4..] == ".png"
  {
    "unsaid-2025-story-" + id + ".png"
  }

  /** Distinct stories download to distinct file names. */
  lemma DownloadNameInjective(a: string, b: string)
    requires DownloadName(a) == DownloadName(b)
    ensures a == b
  {
    var n := DownloadName(a);
    assert a == n[18..|n| - 4];
  }

  /** The download the share button triggers. */
  datatype Download = Download(fileName: string, href: string)

  /**
   * `handleShareToStory`: a rendered image is downloaded under the story's
   * file name; an empty render (the image failed to load) downloads nothing.
   */
  function ShareDownload(dataUrl: string, id: string): (d: Option<Download>)
    ensures d.Some? <==> dataUrl != ""
    ensures d.Some? ==> d.value.href == dataUrl && d.value.fileName == DownloadName(id)
  {
    if dataUrl == "" then None else Some(Download(DownloadName(id), dataUrl))
  }
}
