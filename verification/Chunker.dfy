/**
 Splitting a document's text into overlapping windows that end at word boundaries where they can.
 */
module Chunker {
  import opened Sequences
  import opened Text
  import opened Wrappers

  datatype ConfigError = MaxNotPositive | OverlapNegative | OverlapTooLarge

  datatype Config = Config(maxCharacters: int, overlapCharacters: int) {
    /** What the constructor insists on. */
    predicate Legal() {
      0 <= overlapCharacters < maxCharacters
    }
  }

  /** The constructor: its checks, in its order. */
  function Create(maxCharacters: int, overlapCharacters: int): (r: Result<Config, ConfigError>)
    ensures r.Ok? <==> Config(maxCharacters, overlapCharacters).Legal()
    ensures r.Ok? ==> r.value == Config(maxCharacters, overlapCharacters)
    ensures r == Err(MaxNotPositive) <==> maxCharacters <= 0
    ensures r == Err(OverlapNegative) <==> overlapCharacters < 0 < maxCharacters
    ensures r == Err(OverlapTooLarge) <==> 0 < maxCharacters <= overlapCharacters
  {
    if maxCharacters <= 0 then Err(MaxNotPositive)
    else if overlapCharacters < 0 then Err(OverlapNegative)
    else if overlapCharacters >= maxCharacters then Err(OverlapTooLarge)
    else Ok(Config(maxCharacters, overlapCharacters))
  }

  /** `window.rfind(" ")` for the window text[start..end], as an offset from `start`. */
  function RFindBlank(text: string, start: nat, end: nat): (r: int)
    requires start <= end <= |text|
    ensures -1 <= r < end - start
    decreases end
  {
    if end == start then -1
    else if text[end - 1] == ' ' then end - 1 - start
    else RFindBlank(text, start, end - 1)
  }

  function FindChunkEnd(cfg: Config, text: string, start: nat): (end: nat)
    requires cfg.Legal() && start < |text|
    ensures start < end <= |text| && end - start <= cfg.maxCharacters
  {
    var hardEnd := Min(start + cfg.maxCharacters, |text|);
    if hardEnd == |text| then hardEnd
    else
      var splitAt := RFindBlank(text, start, hardEnd);
      if splitAt <= 0 then hardEnd else start + splitAt
  }

  datatype Window = Window(start: nat, end: nat)

  function NextStart(cfg: Config, w: Window): int {
    Max(w.end - cfg.overlapCharacters, w.start + 1)
  }

  /** The windows from `start` on. */
  function WindowsFrom(cfg: Config, text: string, start: nat): seq<Window>
    requires cfg.Legal()
    decreases |text| - start
  {
    if start >= |text| then []
    else
      var w := Window(start, FindChunkEnd(cfg, text, start));
      [w] + if w.end >= |text| then [] else WindowsFrom(cfg, text, NextStart(cfg, w))
  }

  /** The slice `text[w.start:w.end]`. */
  function Slice(text: string, w: Window): string {
    var end := Min(w.end, |text|);
    text[Min(w.start, end)..end]
  }

  /** The stripped text of a window; nothing if that is empty. */
  function Piece(text: string, w: Window): seq<string> {
    var piece := Strip(Slice(text, w));
    if piece == "" then [] else [piece]
  }

  function Pieces(text: string, windows: seq<Window>): seq<string> {
    if windows == [] then [] else Piece(text, windows[0]) + Pieces(text, windows[1..])
  }

  /** The chunks of a text. */
  function Chunks(cfg: Config, text: string): seq<string>
    requires cfg.Legal()
  {
    var normalized := Normalize(text);
    Pieces(normalized, WindowsFrom(cfg, normalized, 0))
  }

  lemma {:induction false} WindowsInside(cfg: Config, text: string, start: nat)
    requires cfg.Legal()
    ensures forall w :: w in WindowsFrom(cfg, text, start) ==> start <= w.start < w.end <= |text|
    decreases |text| - start
  {
    if start < |text| {
      var w := Window(start, FindChunkEnd(cfg, text, start));
      if w.end < |text| {
        WindowsInside(cfg, text, NextStart(cfg, w));
      }
    }
  }

  lemma WindowsStep(cfg: Config, text: string, start: nat)
    requires cfg.Legal() && start < |text|
    ensures var w := Window(start, FindChunkEnd(cfg, text, start));
      var rest := if w.end >= |text| then [] else WindowsFrom(cfg, text, NextStart(cfg, w));
      && WindowsFrom(cfg, text, start) == [w] + rest
      && Pieces(text, WindowsFrom(cfg, text, start)) == Piece(text, w) + Pieces(text, rest)
  {
    var w := Window(start, FindChunkEnd(cfg, text, start));
    var rest := if w.end >= |text| then [] else WindowsFrom(cfg, text, NextStart(cfg, w));
    assert WindowsFrom(cfg, text, start)[1..] == rest;
  }

  /** The loop of the chunker. */
  method Chunk(cfg: Config, text: string) returns (chunks: seq<string>)
    requires cfg.Legal()
    ensures chunks == Chunks(cfg, text)
  {
    var normalized := Normalize(text);
    chunks := [];
    if normalized == "" {
      return;
    }
    var start: nat := 0;
    ghost var todo := WindowsFrom(cfg, normalized, 0);
    while start < |normalized|
      invariant todo == WindowsFrom(cfg, normalized, start)
      invariant chunks + Pieces(normalized, todo) == Chunks(cfg, text)
      decreases |normalized| - start
    {
      WindowsStep(cfg, normalized, start);
      var end := FindChunkEnd(cfg, normalized, start);
      var chunk := Strip(normalized[start..end]);
      ghost var before := chunks;
      if chunk != "" {
        chunks := chunks + [chunk];
      }
      ghost var w := Window(start, end);
      assert chunks == before + Piece(normalized, w);
      todo := if end >= |normalized| then [] else WindowsFrom(cfg, normalized, NextStart(cfg, w));
      Regroup(before, Piece(normalized, w), Pieces(normalized, todo));
      if end >= |normalized| {
        break;
      }
      start := Max(end - cfg.overlapCharacters, start + 1);
      assert start == NextStart(cfg, w);
    }
  }
}
