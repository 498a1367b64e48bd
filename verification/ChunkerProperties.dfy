/** What the chunker guarantees about its windows and chunks, for every text and every legal configuration. */
module ChunkerProperties {
  import opened Chunker
  import opened Sequences
  import opened Text

  // ----- one window -----

  lemma {:induction false} RFindBlankFacts(text: string, start: nat, end: nat)
    requires start <= end <= |text|
    ensures var r := RFindBlank(text, start, end);
      && (r >= 0 ==> text[start + r] == ' ')
      && (forall i :: start <= i < end && i > start + r ==> text[i] != ' ')
    decreases end
  {
    if end > start && text[end - 1] != ' ' {
      RFindBlankFacts(text, start, end - 1);
    }
  }

  /**
   A window that stops short of the end of the text either stops at the last blank within its
   reach, or is full-length because it has no blank after its first character.
   */
  lemma WindowEndsAtBlank(cfg: Config, text: string, start: nat)
    requires cfg.Legal() && start < |text|
    ensures var end := FindChunkEnd(cfg, text, start); var reach := start + cfg.maxCharacters;
      end < |text| ==>
        && reach < |text|
        && (end < reach ==> text[end] == ' ' && forall i :: end < i < reach ==> text[i] != ' ')
        && (end == reach ==> forall i :: start < i < reach ==> text[i] != ' ')
  {
    var reach := start + cfg.maxCharacters;
    if reach < |text| {
      RFindBlankFacts(text, start, reach);
    }
  }

  /**
   The next window repeats exactly the configured overlap, or starts one character later if this one
   is no longer than that, and it does not end before this one.
   */
  lemma NextWindow(cfg: Config, text: string, start: nat)
    requires cfg.Legal() && start < |text| && FindChunkEnd(cfg, text, start) < |text|
    ensures var end := FindChunkEnd(cfg, text, start);
      var next := NextStart(cfg, Window(start, end));
      && start < next <= end <= FindChunkEnd(cfg, text, next)
      && next == if end - start > cfg.overlapCharacters then end - cfg.overlapCharacters else start + 1
  {
    var end := FindChunkEnd(cfg, text, start);
    var next := NextStart(cfg, Window(start, end));
    WindowEndsAtBlank(cfg, text, start);
    WindowEndsAtBlank(cfg, text, next);
  }

  // ----- all windows -----

  ghost predicate Inside(cfg: Config, text: string, w: Window) {
    w.start < w.end <= |text| && w.end - w.start <= cfg.maxCharacters
  }

  ghost predicate AllInside(cfg: Config, text: string, ws: seq<Window>) {
    forall k :: 0 <= k < |ws| ==> Inside(cfg, text, ws[k])
  }

  ghost predicate Follows(cfg: Config, text: string, w: Window, next: Window) {
    && w.start < next.start <= w.end <= next.end && w.end < |text|
    && next.start == if w.end - w.start > cfg.overlapCharacters then w.end - cfg.overlapCharacters else w.start + 1
  }

  ghost predicate Linked(cfg: Config, text: string, ws: seq<Window>) {
    && AllInside(cfg, text, ws)
    && (forall k :: 0 <= k < |ws| - 1 ==> Follows(cfg, text, ws[k], ws[k + 1]))
    && (ws != [] ==> ws[|ws| - 1].end == |text|)
  }

  lemma {:induction false} WindowsAreLinked(cfg: Config, text: string, start: nat)
    requires cfg.Legal() && start < |text|
    ensures var ws := WindowsFrom(cfg, text, start);
      Linked(cfg, text, ws) && ws != [] && ws[0].start == start
    decreases |text| - start
  {
    var w := Window(start, FindChunkEnd(cfg, text, start));
    WindowsStep(cfg, text, start);
    if w.end < |text| {
      NextWindow(cfg, text, start);
      WindowsAreLinked(cfg, text, NextStart(cfg, w));
      LinkFirst(cfg, text, w, WindowsFrom(cfg, text, NextStart(cfg, w)));
    } else {
      assert [w] + [] == [w];
    }
  }

  lemma LinkFirst(cfg: Config, text: string, w: Window, rest: seq<Window>)
    requires Linked(cfg, text, rest) && rest != [] && Inside(cfg, text, w) && Follows(cfg, text, w, rest[0])
    ensures Linked(cfg, text, [w] + rest)
  {
    var ws := [w] + rest;
    forall k | 0 <= k < |ws| - 1
      ensures Follows(cfg, text, ws[k], ws[k + 1])
    {
      if k > 0 {
        assert Follows(cfg, text, rest[k - 1], rest[k - 1 + 1]);
      }
    }
  }

  /** The windows of a normalised text. */
  function Windows(cfg: Config, text: string): seq<Window>
    requires cfg.Legal()
  {
    WindowsFrom(cfg, text, 0)
  }

  lemma {:induction false} LinkedIsOrdered(cfg: Config, text: string, ws: seq<Window>, i: nat, j: nat)
    requires Linked(cfg, text, ws) && i < j < |ws|
    ensures ws[i].start + (j - i) <= ws[j].start && ws[i].end <= ws[j].end
  {
    assert Follows(cfg, text, ws[j - 1], ws[j - 1 + 1]);
    if i + 1 < j {
      LinkedIsOrdered(cfg, text, ws, i, j - 1);
    }
  }

  /**
   Ends never move back: starts strictly increase, ends never decrease, and at most overlap + 1
   windows in a row share an end.
   */
  lemma EndsNeverMoveBack(cfg: Config, text: string, i: nat, j: nat)
    requires cfg.Legal() && i < j < |Windows(cfg, text)|
    ensures var ws := Windows(cfg, text);
      && ws[i].start < ws[j].start
      && ws[i].end <= ws[j].end
      && (ws[i].end == ws[j].end ==> j - i <= cfg.overlapCharacters)
  {
    var ws := Windows(cfg, text);
    WindowsAreLinked(cfg, text, 0);
    LinkedIsOrdered(cfg, text, ws, i, j);
    assert Follows(cfg, text, ws[i], ws[i + 1]);
    if i + 1 < j {
      LinkedIsOrdered(cfg, text, ws, i + 1, j);
    }
    assert Inside(cfg, text, ws[j]);
  }

  /** Every position of a text lies in some window. */
  lemma {:induction false} WindowsCover(cfg: Config, text: string, ws: seq<Window>, p: nat) returns (k: nat)
    requires Linked(cfg, text, ws) && ws != [] && ws[0].start <= p < |text|
    ensures k < |ws| && ws[k].start <= p < ws[k].end
  {
    assert Inside(cfg, text, ws[0]);
    if p < ws[0].end {
      k := 0;
    } else {
      assert Follows(cfg, text, ws[0], ws[1]);
      forall i | 0 <= i < |ws[1..]| - 1
        ensures Follows(cfg, text, ws[1..][i], ws[1..][i + 1])
      {
        assert Follows(cfg, text, ws[i + 1], ws[i + 1 + 1]);
      }
      k := WindowsCover(cfg, text, ws[1..], p);
      k := k + 1;
    }
  }

  function Concat(text: string, ws: seq<Window>): string {
    if ws == [] then "" else Slice(text, ws[0]) + Concat(text, ws[1..])
  }

  /** Without overlap linked windows put end to end are the text. */
  lemma {:induction false} LinkedConcat(cfg: Config, text: string, ws: seq<Window>)
    requires Linked(cfg, text, ws) && ws != [] && cfg.overlapCharacters == 0
    ensures Concat(text, ws) == text[ws[0].start..]
  {
    assert Inside(cfg, text, ws[0]);
    if |ws| > 1 {
      var rest := ws[1..];
      assert ws[0].end == rest[0].start by {
        assert Follows(cfg, text, ws[0], ws[0 + 1]);
      }
      TailIsLinked(cfg, text, ws);
      LinkedConcat(cfg, text, rest);
      ConcatStep(text, ws[0], Concat(text, rest));
    } else {
      assert ws[1..] == [];
      ConcatStep(text, ws[0], "");
    }
  }

  lemma ConcatStep(text: string, w: Window, rest: string)
    requires w.start <= w.end <= |text| && rest == text[w.end..]
    ensures Slice(text, w) + rest == text[w.start..]
  {
    SliceJoin(text, w.start, w.end);
  }

  lemma TailIsLinked(cfg: Config, text: string, ws: seq<Window>)
    requires Linked(cfg, text, ws) && |ws| > 1
    ensures Linked(cfg, text, ws[1..])
  {
    forall i | 0 <= i < |ws[1..]| - 1
      ensures Follows(cfg, text, ws[1..][i], ws[1..][i + 1])
    {
      assert Follows(cfg, text, ws[i + 1], ws[i + 1 + 1]);
    }
  }

  lemma WithoutOverlapNothingRepeats(cfg: Config, text: string)
    requires cfg.Legal() && cfg.overlapCharacters == 0
    ensures Concat(text, Windows(cfg, text)) == text
  {
    if text != "" {
      WindowsAreLinked(cfg, text, 0);
      LinkedConcat(cfg, text, Windows(cfg, text));
    }
  }

  // ----- the chunks -----

  /** The part of a window that stripping leaves, as a window itself. */
  function Trimmed(text: string, w: Window): Window
    requires w.start < w.end <= |text|
  {
    var s := text[w.start..w.end];
    var from := LeadingSpaces(s);
    Window(w.start + from, w.start + InkEnd(s, from))
  }

  /** A span of the text that is a chunk: non-empty, trimmed and not too long. */
  ghost predicate IsChunkSpan(cfg: Config, text: string, span: Window) {
    && span.start < span.end <= |text|
    && span.end - span.start <= cfg.maxCharacters
    && !IsSpace(text[span.start]) && !IsSpace(text[span.end - 1])
  }

  /** Trimming a window is stripping its text. */
  lemma TrimmedIsStripped(text: string, w: Window)
    requires w.start < w.end <= |text|
    ensures var t := Trimmed(text, w);
      && w.start <= t.start <= t.end <= w.end
      && Strip(Slice(text, w)) == text[t.start..t.end]
      && Piece(text, w) == if t.start < t.end then [text[t.start..t.end]] else []
  {
    var s := text[w.start..w.end];
    var from := LeadingSpaces(s);
    SliceOfSlice(text, w.start, w.end, from, InkEnd(s, from));
  }

  lemma TrimmedFacts(cfg: Config, text: string, w: Window)
    requires Inside(cfg, text, w)
    ensures var t := Trimmed(text, w);
      && w.start <= t.start <= t.end <= w.end
      && (forall p :: w.start <= p < w.end && !IsSpace(text[p]) ==> t.start <= p < t.end)
      && (t.start < t.end ==> IsChunkSpan(cfg, text, t))
  {
    var s := text[w.start..w.end];
    StripFacts(s);
    forall p | w.start <= p < w.end && !IsSpace(text[p])
      ensures Trimmed(text, w).start <= p < Trimmed(text, w).end
    {
      assert s[p - w.start] == text[p];
    }
  }

  ghost predicate NotAfter(a: Window, b: Window) {
    a.start <= b.start && a.end <= b.end
  }

  /** Trimming keeps windows in order. */
  lemma TrimmedInOrder(cfg: Config, text: string, w: Window, w': Window)
    requires Inside(cfg, text, w) && Inside(cfg, text, w') && NotAfter(w, w')
    requires Trimmed(text, w).start < Trimmed(text, w).end && Trimmed(text, w').start < Trimmed(text, w').end
    ensures NotAfter(Trimmed(text, w), Trimmed(text, w'))
  {
    TrimmedFacts(cfg, text, w);
    TrimmedFacts(cfg, text, w');
  }

  /** The windows that are not empty, in order. */
  function NonEmpty(ts: seq<Window>): seq<Window> {
    if ts == [] then []
    else if ts[0].start < ts[0].end then [ts[0]] + NonEmpty(ts[1..])
    else NonEmpty(ts[1..])
  }

  lemma {:induction false} NonEmptyHas(ts: seq<Window>, w: nat) returns (k: nat)
    requires w < |ts| && ts[w].start < ts[w].end
    ensures k < |NonEmpty(ts)| && NonEmpty(ts)[k] == ts[w]
  {
    if w == 0 {
      k := 0;
    } else {
      k := NonEmptyHas(ts[1..], w - 1);
      if ts[0].start < ts[0].end {
        k := k + 1;
      }
    }
  }

  lemma {:induction false} NonEmptySource(ts: seq<Window>, k: nat) returns (w: nat)
    requires k < |NonEmpty(ts)|
    ensures w < |ts| && ts[w].start < ts[w].end && NonEmpty(ts)[k] == ts[w]
  {
    if ts[0].start < ts[0].end && k == 0 {
      w := 0;
    } else {
      w := NonEmptySource(ts[1..], if ts[0].start < ts[0].end then k - 1 else k);
      w := w + 1;
    }
  }

  lemma {:induction false} NonEmptyInOrder(ts: seq<Window>, i: nat, j: nat)
    requires forall a, b :: 0 <= a < b < |ts| && ts[a].start < ts[a].end && ts[b].start < ts[b].end ==> NotAfter(ts[a], ts[b])
    requires i < j < |NonEmpty(ts)|
    ensures NotAfter(NonEmpty(ts)[i], NonEmpty(ts)[j])
  {
    if ts[0].start >= ts[0].end {
      NonEmptyInOrder(ts[1..], i, j);
    } else if i > 0 {
      NonEmptyInOrder(ts[1..], i - 1, j - 1);
    } else {
      var w := NonEmptySource(ts[1..], j - 1);
      assert ts[1..][w] == ts[w + 1];
    }
  }

  /** The trimmed windows. */
  ghost function AllTrimmed(cfg: Config, text: string, ws: seq<Window>): (ts: seq<Window>)
    requires AllInside(cfg, text, ws)
    ensures |ts| == |ws| && forall i :: 0 <= i < |ws| ==> Inside(cfg, text, ws[i]) && ts[i] == Trimmed(text, ws[i])
  {
    seq(|ws|, i requires 0 <= i < |ws| && Inside(cfg, text, ws[i]) => Trimmed(text, ws[i]))
  }

  /** The pieces of windows are the texts of the trimmed windows that are not empty. */
  ghost predicate AreTexts(text: string, pieces: seq<string>, spans: seq<Window>) {
    && |pieces| == |spans|
    && forall k :: 0 <= k < |spans| ==> spans[k].start <= spans[k].end <= |text| && pieces[k] == text[spans[k].start..spans[k].end]
  }

  lemma {:induction false} PiecesAreTexts(cfg: Config, text: string, ws: seq<Window>)
    requires AllInside(cfg, text, ws)
    ensures AreTexts(text, Pieces(text, ws), NonEmpty(AllTrimmed(cfg, text, ws)))
  {
    if ws != [] {
      var ts := AllTrimmed(cfg, text, ws);
      PiecesAreTexts(cfg, text, ws[1..]);
      assert ts[1..] == AllTrimmed(cfg, text, ws[1..]);
      TrimmedIsStripped(text, ws[0]);
      PrependText(text, ts[0], Pieces(text, ws[1..]), NonEmpty(ts[1..]));
    }
  }

  lemma PrependText(text: string, t: Window, pieces: seq<string>, spans: seq<Window>)
    requires t.start <= t.end <= |text| && AreTexts(text, pieces, spans)
    ensures AreTexts(text, [text[t.start..t.end]] + pieces, [t] + spans)
    ensures [] + pieces == pieces
  {
  }

  /** Every span is a chunk, every ink position lies in one, and they are in order. */
  lemma SpansFacts(cfg: Config, text: string, ws: seq<Window>)
    requires Linked(cfg, text, ws) && ws != [] && ws[0].start == 0
    ensures var spans := NonEmpty(AllTrimmed(cfg, text, ws));
      && (forall k :: 0 <= k < |spans| ==> IsChunkSpan(cfg, text, spans[k]))
      && (forall i, j :: 0 <= i < j < |spans| ==> NotAfter(spans[i], spans[j]))
      && (forall p :: 0 <= p < |text| && !IsSpace(text[p]) ==> exists k :: 0 <= k < |spans| && spans[k].start <= p < spans[k].end)
  {
    var ts := AllTrimmed(cfg, text, ws);
    var spans := NonEmpty(ts);
    forall k | 0 <= k < |spans|
      ensures IsChunkSpan(cfg, text, spans[k])
    {
      var w := NonEmptySource(ts, k);
      TrimmedFacts(cfg, text, ws[w]);
    }
    forall i, j | 0 <= i < j < |spans|
      ensures NotAfter(spans[i], spans[j])
    {
      TrimmedOrder(cfg, text, ws);
      NonEmptyInOrder(ts, i, j);
    }
    forall p | 0 <= p < |text| && !IsSpace(text[p])
      ensures exists k :: 0 <= k < |spans| && spans[k].start <= p < spans[k].end
    {
      var k := SpanAround(cfg, text, ws, p);
    }
  }

  lemma TrimmedOrder(cfg: Config, text: string, ws: seq<Window>)
    requires Linked(cfg, text, ws)
    ensures var ts := AllTrimmed(cfg, text, ws);
      forall a, b :: 0 <= a < b < |ts| && ts[a].start < ts[a].end && ts[b].start < ts[b].end ==> NotAfter(ts[a], ts[b])
  {
    var ts := AllTrimmed(cfg, text, ws);
    forall a, b | 0 <= a < b < |ts| && ts[a].start < ts[a].end && ts[b].start < ts[b].end
      ensures NotAfter(ts[a], ts[b])
    {
      LinkedIsOrdered(cfg, text, ws, a, b);
      TrimmedInOrder(cfg, text, ws[a], ws[b]);
    }
  }

  lemma SpanAround(cfg: Config, text: string, ws: seq<Window>, p: nat) returns (k: nat)
    requires Linked(cfg, text, ws) && ws != [] && ws[0].start == 0 && p < |text| && !IsSpace(text[p])
    ensures var spans := NonEmpty(AllTrimmed(cfg, text, ws)); k < |spans| && spans[k].start <= p < spans[k].end
  {
    var w := WindowsCover(cfg, text, ws, p);
    TrimmedFacts(cfg, text, ws[w]);
    k := NonEmptyHas(AllTrimmed(cfg, text, ws), w);
  }

  /**
   The chunker conserves text: its chunks are trimmed, non-empty stretches of the normalised text
   of at most `maxCharacters`, in order, and every non-space character of it lies in one of them.
   */
  lemma ChunksConserveText(cfg: Config, text: string) returns (spans: seq<Window>)
    requires cfg.Legal()
    ensures var n := Normalize(text); var chunks := Chunks(cfg, text);
      && |chunks| == |spans|
      && (forall k :: 0 <= k < |spans| ==> IsChunkSpan(cfg, n, spans[k]) && chunks[k] == n[spans[k].start..spans[k].end])
      && (forall i, j :: 0 <= i < j < |spans| ==> NotAfter(spans[i], spans[j]))
      && (forall p :: 0 <= p < |n| && !IsSpace(n[p]) ==> exists k :: 0 <= k < |spans| && spans[k].start <= p < spans[k].end)
  {
    var n := Normalize(text);
    spans := [];
    if n != "" {
      var ws := Windows(cfg, n);
      WindowsAreLinked(cfg, n, 0);
      spans := NonEmpty(AllTrimmed(cfg, n, ws));
      PiecesAreTexts(cfg, n, ws);
      SpansFacts(cfg, n, ws);
    }
  }

  // ----- the chunker from scratch -----

  /** A window reaches the end of the text if it can, and otherwise ends at its last blank, or full-length if it has none. */
  ghost predicate EndsWell(cfg: Config, text: string, w: Window) {
    var reach := w.start + cfg.maxCharacters;
    if reach >= |text| then w.end == |text|
    else
      || (w.start < w.end < reach && text[w.end] == ' ' && forall i :: w.end < i < reach ==> text[i] != ' ')
      || (w.end == reach && forall i :: w.start < i < reach ==> text[i] != ' ')
  }

  /** Windows that start at 0, follow one another, end well, and stop where the text does. */
  ghost predicate AreWindows(cfg: Config, text: string, ws: seq<Window>) {
    && (text == "" <==> ws == [])
    && (ws != [] ==> ws[0].start == 0)
    && Linked(cfg, text, ws)
    && forall k :: 0 <= k < |ws| ==> EndsWell(cfg, text, ws[k])
  }

  lemma {:induction false} WindowsEndWell(cfg: Config, text: string, start: nat)
    requires cfg.Legal()
    ensures forall k :: 0 <= k < |WindowsFrom(cfg, text, start)| ==> EndsWell(cfg, text, WindowsFrom(cfg, text, start)[k])
    decreases |text| - start
  {
    if start < |text| {
      var w := Window(start, FindChunkEnd(cfg, text, start));
      WindowEndsAtBlank(cfg, text, start);
      assert EndsWell(cfg, text, w);
      if w.end < |text| {
        WindowsEndWell(cfg, text, NextStart(cfg, w));
      }
    }
  }

  lemma {:induction false} SameWindow(cfg: Config, text: string, ws: seq<Window>, ws': seq<Window>, k: nat)
    requires cfg.Legal() && AreWindows(cfg, text, ws) && AreWindows(cfg, text, ws') && k < |ws| && k < |ws'|
    ensures ws[k] == ws'[k]
  {
    assert Inside(cfg, text, ws[k]) && Inside(cfg, text, ws'[k]);
    if k > 0 {
      SameWindow(cfg, text, ws, ws', k - 1);
      assert Follows(cfg, text, ws[k - 1], ws[k - 1 + 1]) && Follows(cfg, text, ws'[k - 1], ws'[k - 1 + 1]);
    }
    SameEnd(cfg, text, ws[k], ws'[k]);
  }

  lemma SameEnd(cfg: Config, text: string, w: Window, w': Window)
    requires w.start == w'.start && EndsWell(cfg, text, w) && EndsWell(cfg, text, w')
    requires Inside(cfg, text, w) && Inside(cfg, text, w')
    ensures w.end == w'.end
  {
  }

  /** A text has one such sequence of windows. */
  lemma WindowsAreUnique(cfg: Config, text: string, ws: seq<Window>, ws': seq<Window>)
    requires cfg.Legal() && AreWindows(cfg, text, ws) && AreWindows(cfg, text, ws')
    ensures ws == ws'
  {
    NotShorter(cfg, text, ws, ws');
    NotShorter(cfg, text, ws', ws);
    forall k | 0 <= k < |ws|
      ensures ws[k] == ws'[k]
    {
      SameWindow(cfg, text, ws, ws', k);
    }
  }

  lemma NotShorter(cfg: Config, text: string, ws: seq<Window>, ws': seq<Window>)
    requires cfg.Legal() && AreWindows(cfg, text, ws) && AreWindows(cfg, text, ws')
    ensures |ws| >= |ws'|
  {
    forall k | 0 <= k < |ws'| - 1
      ensures ws'[k].end < |text|
    {
      assert Follows(cfg, text, ws'[k], ws'[k + 1]);
    }
    if |ws| < |ws'| && ws != [] {
      SameWindow(cfg, text, ws, ws', |ws| - 1);
    }
  }

  /** `chunks` are the texts that are not empty, in order: `from` tells which text each chunk is. */
  ghost predicate AreNonEmpty(texts: seq<string>, chunks: seq<string>, from: seq<nat>) {
    && |from| == |chunks|
    && (forall k :: 0 <= k < |from| ==> from[k] < |texts| && chunks[k] != "" && chunks[k] == texts[from[k]])
    && (forall j, k :: 0 <= j < k < |from| ==> from[j] < from[k])
    && (forall w: nat :: w < |texts| && texts[w] != "" ==> exists k :: 0 <= k < |from| && from[k] == w)
  }

  function StrippedTexts(text: string, ws: seq<Window>): (r: seq<string>)
    ensures |r| == |ws| && forall k :: 0 <= k < |ws| ==> r[k] == Strip(Slice(text, ws[k]))
  {
    seq(|ws|, k requires 0 <= k < |ws| => Strip(Slice(text, ws[k])))
  }

  lemma {:induction false} PiecesAreNonEmpty(text: string, ws: seq<Window>) returns (from: seq<nat>)
    ensures AreNonEmpty(StrippedTexts(text, ws), Pieces(text, ws), from)
    decreases |ws|
  {
    if ws == [] {
      from := [];
    } else {
      var before, w := ws[..|ws| - 1], ws[|ws| - 1];
      var sofar := PiecesAreNonEmpty(text, before);
      assert before + [w] == ws;
      PiecesAppend(text, before, w);
      StrippedAppend(text, before, w);
      from := OneMoreText(StrippedTexts(text, before), Strip(Slice(text, w)), Pieces(text, before), sofar);
    }
  }

  lemma {:induction false} PiecesAppend(text: string, ws: seq<Window>, w: Window)
    ensures Pieces(text, ws + [w]) == Pieces(text, ws) + Piece(text, w)
  {
    if ws == [] {
      assert [] + [w] == [w] && [w][1..] == [];
      assert Piece(text, w) + [] == [] + Piece(text, w);
    } else {
      TailOfConcat(ws, [w]);
      PiecesAppend(text, ws[1..], w);
      Regroup(Piece(text, ws[0]), Pieces(text, ws[1..]), Piece(text, w));
    }
  }

  lemma StrippedAppend(text: string, ws: seq<Window>, w: Window)
    ensures StrippedTexts(text, ws + [w]) == StrippedTexts(text, ws) + [Strip(Slice(text, w))]
  {
  }

  lemma OneMoreText(texts: seq<string>, last: string, chunks: seq<string>, from: seq<nat>) returns (from': seq<nat>)
    requires AreNonEmpty(texts, chunks, from)
    ensures AreNonEmpty(texts + [last], chunks + (if last == "" then [] else [last]), from')
  {
    from' := if last == "" then from else from + [|texts|];
    var all := texts + [last];
    forall v: nat | v < |all| && all[v] != ""
      ensures exists k :: 0 <= k < |from'| && from'[k] == v
    {
      if v < |texts| {
        var k :| 0 <= k < |from| && from[k] == v;
        assert from'[k] == v;
      } else {
        assert from'[|from|] == v;
      }
    }
  }

  /**
   What the chunker computes: the stripped texts, without the blank ones, of the one sequence of
   windows that starts at 0, repeats exactly the configured overlap, breaks at the last blank in
   reach and stops at the end of the normalised text.
   */
  lemma ChunksAreWindows(cfg: Config, text: string) returns (ws: seq<Window>, from: seq<nat>)
    requires cfg.Legal()
    ensures var n := Normalize(text);
      && AreWindows(cfg, n, ws)
      && (forall ws' :: AreWindows(cfg, n, ws') ==> ws' == ws)
      && AreNonEmpty(StrippedTexts(n, ws), Chunks(cfg, text), from)
  {
    var n := Normalize(text);
    ws := Windows(cfg, n);
    if n != "" {
      WindowsAreLinked(cfg, n, 0);
    }
    WindowsEndWell(cfg, n, 0);
    from := PiecesAreNonEmpty(n, ws);
    forall ws' | AreWindows(cfg, n, ws')
      ensures ws' == ws
    {
      WindowsAreUnique(cfg, n, ws', ws);
    }
  }

  /** A text has chunks exactly when it has a non-space character. */
  lemma ChunksExactlyForInk(cfg: Config, text: string)
    requires cfg.Legal()
    ensures Chunks(cfg, text) != [] <==> HasInk(text)
  {
    NormalizeKeepsWords(text);
    var spans := ChunksConserveText(cfg, text);
    var n := Normalize(text);
    if n != "" {
      assert !IsSpace(n[0]);
    }
  }
}
