/** Python's whitespace handling on strings: `isspace`, `strip`, `split` and `" ".join`. */
module Text {
  import opened Sequences

  /** The characters for which `str.isspace` holds. */
  predicate IsSpace(c: char) {
    || '\U{0009}' <= c <= '\U{000D}'
    || '\U{001C}' <= c <= '\U{0020}'
    || c == '\U{0085}' || c == '\U{00A0}' || c == '\U{1680}'
    || '\U{2000}' <= c <= '\U{200A}'
    || c == '\U{2028}' || c == '\U{2029}' || c == '\U{202F}' || c == '\U{205F}' || c == '\U{3000}'
  }

  predicate HasInk(s: string) {
    exists i :: 0 <= i < |s| && !IsSpace(s[i])
  }

  /** The non-space characters in order. */
  function Ink(s: string): string {
    if s == "" then "" else (if IsSpace(s[0]) then "" else [s[0]]) + Ink(s[1..])
  }

  // ----- strip -----

  function LeadingSpaces(s: string): (n: nat)
    ensures n <= |s|
  {
    if s != "" && IsSpace(s[0]) then 1 + LeadingSpaces(s[1..]) else 0
  }

  /** Where the trailing whitespace of `s` begins, at or after `from`. */
  function InkEnd(s: string, from: nat): (n: nat)
    requires from <= |s|
    ensures from <= n <= |s|
    decreases |s|
  {
    if |s| > from && IsSpace(s[|s| - 1]) then InkEnd(s[..|s| - 1], from) else |s|
  }

  function Strip(s: string): string {
    var from := LeadingSpaces(s);
    s[from..InkEnd(s, from)]
  }

  lemma {:induction false} LeadingAreSpaces(s: string)
    ensures var n := LeadingSpaces(s);
      (forall i :: 0 <= i < n ==> IsSpace(s[i])) && (n < |s| ==> !IsSpace(s[n]))
  {
    if s != "" && IsSpace(s[0]) {
      LeadingAreSpaces(s[1..]);
      assert forall i :: 1 <= i < |s| ==> s[i] == s[1..][i - 1];
    }
  }

  lemma {:induction false} TrailingAreSpaces(s: string, from: nat)
    requires from <= |s|
    ensures var n := InkEnd(s, from);
      (forall i :: n <= i < |s| ==> IsSpace(s[i])) && (n > from ==> !IsSpace(s[n - 1]))
    decreases |s|
  {
    if |s| > from && IsSpace(s[|s| - 1]) {
      TrailingAreSpaces(s[..|s| - 1], from);
    }
  }

  lemma InkInside(s: string, i: nat)
    requires i < |s| && !IsSpace(s[i])
    ensures LeadingSpaces(s) <= i < InkEnd(s, LeadingSpaces(s))
  {
    LeadingAreSpaces(s);
    TrailingAreSpaces(s, LeadingSpaces(s));
  }

  lemma EndsAreInk(s: string)
    ensures var from := LeadingSpaces(s); var to := InkEnd(s, from);
      from < to ==> !IsSpace(s[from]) && !IsSpace(s[to - 1])
  {
    LeadingAreSpaces(s);
    TrailingAreSpaces(s, LeadingSpaces(s));
  }

  /** Stripping cuts whitespace off both ends and nothing else, and leaves a trimmed string. */
  lemma StripFacts(s: string)
    ensures var from := LeadingSpaces(s); var to := InkEnd(s, from);
      && Strip(s) == s[from..to]
      && (forall i :: 0 <= i < |s| && !IsSpace(s[i]) ==> from <= i < to)
      && (from < to ==> !IsSpace(s[from]) && !IsSpace(s[to - 1]))
  {
    var from := LeadingSpaces(s);
    EndsAreInk(s);
    forall i | 0 <= i < |s| && !IsSpace(s[i])
      ensures from <= i < InkEnd(s, from)
    {
      InkInside(s, i);
    }
  }

  /** A string strips to nothing exactly when it has no ink. */
  lemma StripKeepsInk(s: string)
    ensures HasInk(s) <==> Strip(s) != ""
    ensures HasInk(s) <==> HasInk(Strip(s))
  {
    StripFacts(s);
    var from := LeadingSpaces(s);
    assert Strip(s) != "" ==> Strip(s)[0] == s[from];
  }

  // ----- split and join -----

  /** The length of the word at the front of `s`. */
  function WordLength(s: string): (n: nat)
    ensures n <= |s| && (forall i :: 0 <= i < n ==> !IsSpace(s[i])) && (n < |s| ==> IsSpace(s[n]))
  {
    if s != "" && !IsSpace(s[0]) then 1 + WordLength(s[1..]) else 0
  }

  function Words(s: string): seq<string>
    decreases |s|
  {
    if s == "" then []
    else if IsSpace(s[0]) then Words(s[1..])
    else [s[..WordLength(s)]] + Words(s[WordLength(s)..])
  }

  function Join(words: seq<string>): string {
    if words == [] then ""
    else if |words| == 1 then words[0]
    else words[0] + " " + Join(words[1..])
  }

  /** `" ".join(text.split())`. */
  function Normalize(text: string): string {
    Join(Words(text))
  }

  predicate IsWord(w: string) {
    w != "" && forall i :: 0 <= i < |w| ==> !IsSpace(w[i])
  }

  /** Words separated by single blanks, with nothing around them. */
  predicate SingleSpaced(s: string) {
    && (s != "" ==> !IsSpace(s[0]) && !IsSpace(s[|s| - 1]))
    && (forall i :: 0 <= i < |s| && IsSpace(s[i]) ==> s[i] == ' ')
    && (forall i :: 0 <= i < |s| - 1 && IsSpace(s[i]) ==> !IsSpace(s[i + 1]))
  }

  lemma {:induction false} WordsAreWords(s: string)
    ensures forall k :: 0 <= k < |Words(s)| ==> IsWord(Words(s)[k])
    decreases |s|
  {
    if s != "" {
      if IsSpace(s[0]) {
        WordsAreWords(s[1..]);
      } else {
        WordsAreWords(s[WordLength(s)..]);
      }
    }
  }

  lemma PrependWord(w: string, rest: string)
    requires IsWord(w) && SingleSpaced(rest) && rest != ""
    ensures SingleSpaced(w + " " + rest)
  {
    var s := w + " " + rest;
    forall i | 0 <= i < |s| && IsSpace(s[i])
      ensures s[i] == ' ' && i < |s| - 1 && !IsSpace(s[i + 1])
    {
      if i > |w| {
        assert s[i] == rest[i - |w| - 1];
      }
    }
  }

  lemma {:induction false} JoinIsSingleSpaced(words: seq<string>)
    requires forall k :: 0 <= k < |words| ==> IsWord(words[k])
    ensures SingleSpaced(Join(words)) && (words != [] ==> Join(words) != "")
  {
    if |words| > 1 {
      JoinIsSingleSpaced(words[1..]);
      PrependWord(words[0], Join(words[1..]));
    }
  }

  lemma WordAtFront(w: string, s: string)
    requires IsWord(w) && (s != "" ==> IsSpace(s[0]))
    ensures WordLength(w + s) == |w|
    ensures Words(w + s) == [w] + Words(s)
  {
    assert forall i :: 0 <= i < |w| ==> (w + s)[i] == w[i];
    assert s != "" ==> (w + s)[|w|] == s[0];
    assert (w + s)[..|w|] == w && (w + s)[|w|..] == s;
  }

  /** Joining words with single blanks and splitting again gives the same words. */
  lemma {:induction false} JoinThenSplit(words: seq<string>)
    requires forall k :: 0 <= k < |words| ==> IsWord(words[k])
    ensures Words(Join(words)) == words
  {
    if |words| == 1 {
      WordAtFront(words[0], "");
      assert words[0] + "" == words[0];
    } else if |words| > 1 {
      JoinThenSplit(words[1..]);
      var rest := Join(words[1..]);
      WordAtFront(words[0], " " + rest);
      assert words[0] + (" " + rest) == Join(words);
      assert (" " + rest)[1..] == rest;
    }
  }

  lemma {:induction false} InkAppend(a: string, b: string)
    ensures Ink(a + b) == Ink(a) + Ink(b)
  {
    if a == "" {
      assert a + b == b;
    } else {
      TailOfConcat(a, b);
      InkAppend(a[1..], b);
      Regroup(if IsSpace(a[0]) then "" else [a[0]], Ink(a[1..]), Ink(b));
    }
  }

  lemma {:induction false} WordsKeepInk(s: string)
    ensures Ink(Join(Words(s))) == Ink(s)
    decreases |s|
  {
    if s != "" {
      if IsSpace(s[0]) {
        WordsKeepInk(s[1..]);
      } else {
        var n := WordLength(s);
        var rest := Words(s[n..]);
        WordsKeepInk(s[n..]);
        assert s == s[..n] + s[n..];
        InkAppend(s[..n], s[n..]);
        assert Words(s)[1..] == rest;
        if rest != [] {
          InkAppend(s[..n], " ");
          InkAppend(s[..n] + " ", Join(rest));
        }
      }
    }
  }

  lemma {:induction false} InkMeansWords(s: string)
    ensures HasInk(s) <==> Words(s) != []
    decreases |s|
  {
    if s != "" && IsSpace(s[0]) {
      InkMeansWords(s[1..]);
      assert forall i :: 1 <= i < |s| ==> s[i] == s[1..][i - 1];
    }
  }

  /**
   Normalising leaves the words and their non-space characters as they were, separates them by
   single blanks, and gives the empty string exactly for text without ink.
   */
  lemma NormalizeKeepsWords(text: string)
    ensures SingleSpaced(Normalize(text))
    ensures Words(Normalize(text)) == Words(text)
    ensures Ink(Normalize(text)) == Ink(text)
    ensures HasInk(text) <==> Normalize(text) != ""
  {
    WordsAreWords(text);
    JoinIsSingleSpaced(Words(text));
    JoinThenSplit(Words(text));
    WordsKeepInk(text);
    InkMeansWords(text);
    if Words(text) != [] {
      assert IsWord(Words(text)[0]);
    }
  }

  // ----- what the parsers hand on -----

  /** `text.replace("\r\n", "\n")`. */
  function UnixLines(text: string): string {
    if text == "" then ""
    else if |text| >= 2 && text[0] == '\r' && text[1] == '\n' then "\n" + UnixLines(text[2..])
    else [text[0]] + UnixLines(text[1..])
  }

  /** A carriage return and line feed become a line feed, wherever they stand. */
  lemma {:induction false} UnixLinesReplaces(before: string, after: string)
    ensures UnixLines(before + "\r\n" + after) == UnixLines(before) + "\n" + UnixLines(after)
    decreases |before|
  {
    var text := before + "\r\n" + after;
    if before == "" {
      assert text[2..] == after;
    } else if |before| >= 2 && before[0] == '\r' && before[1] == '\n' {
      assert text[2..] == before[2..] + "\r\n" + after;
      UnixLinesReplaces(before[2..], after);
    } else {
      assert text[1..] == before[1..] + "\r\n" + after;
      UnixLinesReplaces(before[1..], after);
      Regroup([before[0]], UnixLines(before[1..]), "\n");
      Regroup([before[0]], UnixLines(before[1..]) + "\n", UnixLines(after));
    }
  }

  /** A text without such a pair is left alone. */
  lemma {:induction false} UnixLinesLeavesAlone(text: string)
    requires forall i :: 0 <= i < |text| - 1 ==> !(text[i] == '\r' && text[i + 1] == '\n')
    ensures UnixLines(text) == text
  {
    if text != "" {
      assert text == [text[0]] + text[1..];
      UnixLinesLeavesAlone(text[1..]);
    }
  }

  /** The whitespace characters of Python's `str.isspace`, one by one. */
  lemma SpacesListed(c: char)
    ensures IsSpace(c) <==> c in {
      '\U{0009}', '\U{000A}', '\U{000B}', '\U{000C}', '\U{000D}', '\U{001C}', '\U{001D}', '\U{001E}', '\U{001F}', '\U{0020}',
      '\U{0085}', '\U{00A0}', '\U{1680}', '\U{2000}', '\U{2001}', '\U{2002}', '\U{2003}', '\U{2004}', '\U{2005}', '\U{2006}',
      '\U{2007}', '\U{2008}', '\U{2009}', '\U{200A}', '\U{2028}', '\U{2029}', '\U{202F}', '\U{205F}', '\U{3000}'}
  {
  }

  /** Stripping leaves a trimmed string alone. */
  lemma StripTrimmed(s: string)
    requires s != "" && !IsSpace(s[0]) && !IsSpace(s[|s| - 1])
    ensures Strip(s) == s
  {
  }
}
