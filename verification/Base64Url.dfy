/** Unpadded base64url, section 5 of RFC 4648, as Python's lenient decoder reads it. */
module Base64Url {
  import opened Documents
  import opened Sequences
  import opened Wrappers

  // ----- the alphabet -----

  /** The character for a six-bit value. */
  function Char(v: nat): char
    requires v < 64
  {
    if v < 26 then 'A' + v as char
    else if v < 52 then 'a' + (v - 26) as char
    else if v < 62 then '0' + (v - 52) as char
    else if v == 62 then '-'
    else '_'
  }

  /** The value of a character; the decoder also knows the two characters of the standard alphabet. */
  function Value(c: char): (v: Option<nat>)
    ensures v.Some? ==> v.value < 64
  {
    if 'A' <= c <= 'Z' then Some(c as int - 'A' as int)
    else if 'a' <= c <= 'z' then Some(c as int - 'a' as int + 26)
    else if '0' <= c <= '9' then Some(c as int - '0' as int + 52)
    else if c == '-' || c == '+' then Some(62)
    else if c == '_' || c == '/' then Some(63)
    else None
  }

  lemma CharHasItsValue(v: nat)
    requires v < 64
    ensures Value(Char(v)) == Some(v)
    ensures Char(v) != '=' && Char(v) != '.' && Char(v) as int < 128
  {
    if 26 <= v < 52 {
      assert Char(v) as int == 97 + v - 26;
    }
  }

  /** The URL-safe alphabet, table 2 of RFC 4648, by code points. */
  lemma CharsAreAlphabet(v: nat)
    requires v < 64
    ensures Char(v) as int ==
      if v < 26 then 65 + v        // A to Z
      else if v < 52 then 71 + v   // a to z
      else if v < 62 then v - 4    // 0 to 9
      else if v == 62 then 45      // the hyphen
      else 95                      // the underscore
  {
  }

  /** The decoder knows the alphabet, and the plus and the slash of the standard one. */
  lemma ValuesAreAlphabet(c: char, v: nat)
    ensures Value(c) == Some(v) <==> v < 64 && (Char(v) == c || (c == '+' && v == 62) || (c == '/' && v == 63))
  {
  }

  // ----- encoding -----

  /** The characters of one to three bytes. */
  function Group(b: Bytes): (s: string)
    requires 1 <= |b| <= 3
    ensures |s| == |b| + 1
  {
    var b0 := b[0] as int;
    if |b| == 1 then [Char(b0 / 4), Char(b0 % 4 * 16)]
    else
      var b1 := b[1] as int;
      if |b| == 2 then [Char(b0 / 4), Char(b0 % 4 * 16 + b1 / 16), Char(b1 % 16 * 4)]
      else
        var b2 := b[2] as int;
        [Char(b0 / 4), Char(b0 % 4 * 16 + b1 / 16), Char(b1 % 16 * 4 + b2 / 64), Char(b2 % 64)]
  }

  /** The padded encoding: four characters for each three bytes. */
  function EncodePadded(b: Bytes): string {
    if b == [] then ""
    else if |b| <= 3 then Group(b) + Equals(3 - |b|)
    else Group(b[..3]) + EncodePadded(b[3..])
  }

  /** The six-bit values of up to three bytes: together they are the same number, filled up with zero bits. */
  lemma GroupIsNumber(b: Bytes)
    requires 1 <= |b| <= 3
    ensures var s := Group(b);
      && (forall i :: 0 <= i < |s| ==> Value(s[i]).Some?)
      && var v := seq(|s|, i requires 0 <= i < |s| && Value(s[i]).Some? => Value(s[i]).value);
      && (|b| == 1 ==> v[0] * 64 + v[1] == b[0] as int * 16)
      && (|b| == 2 ==> v[0] * 4096 + v[1] * 64 + v[2] == (b[0] as int * 256 + b[1] as int) * 4)
      && (|b| == 3 ==> v[0] * 262144 + v[1] * 4096 + v[2] * 64 + v[3] == b[0] as int * 65536 + b[1] as int * 256 + b[2] as int)
  {
    var b0 := b[0] as int;
    CharHasItsValue(b0 / 4);
    if |b| == 1 {
      CharHasItsValue(b0 % 4 * 16);
    } else {
      var b1 := b[1] as int;
      CharHasItsValue(b0 % 4 * 16 + b1 / 16);
      if |b| == 2 {
        CharHasItsValue(b1 % 16 * 4);
      } else {
        CharHasItsValue(b1 % 16 * 4 + b[2] as int / 64);
        CharHasItsValue(b[2] as int % 64);
      }
    }
  }

  /** `rstrip("=")`. */
  function StripPadding(s: string): string
    decreases |s|
  {
    if s != "" && s[|s| - 1] == '=' then StripPadding(s[..|s| - 1]) else s
  }

  function Encode(b: Bytes): string {
    StripPadding(EncodePadded(b))
  }

  // ----- decoding -----

  datatype DecodeError = NotAscii | LoneCharacter | IncorrectPadding

  /** A bound on the bits left over from the characters of the current group of four. */
  function LeftBound(quad: nat): nat {
    match quad
    case 0 => 1
    case 1 => 64
    case 2 => 16
    case _ => 4
  }

  function Prepend(b: Byte, r: Result<Bytes, DecodeError>): Result<Bytes, DecodeError> {
    match r
    case Ok(rest) => Ok([b] + rest)
    case Err(e) => Err(e)
  }

  /**
   Reads characters with `quad` of the current group read, `left` bits left over and `pads` pad
   characters seen.  Foreign characters are skipped, and enough padding ends the input.
   */
  function Scan(s: string, quad: nat, left: nat, pads: nat): Result<Bytes, DecodeError>
    requires quad < 4 && left < LeftBound(quad)
    decreases |s|
  {
    if s == "" then
      if quad == 0 then Ok([]) else Err(if quad == 1 then LoneCharacter else IncorrectPadding)
    else if s[0] == '=' then
      if quad >= 2 && quad + pads + 1 >= 4 then Ok([])
      else Scan(s[1..], quad, left, if quad >= 2 then pads + 1 else pads)
    else
      var v := Value(s[0]);
      if v.None? then Scan(s[1..], quad, left, pads)
      else
        match quad
        case 0 => Scan(s[1..], 1, v.value, 0)
        case 1 => Prepend((left * 4 + v.value / 16) as Byte, Scan(s[1..], 2, v.value % 16, 0))
        case 2 => Prepend((left * 16 + v.value / 4) as Byte, Scan(s[1..], 3, v.value % 4, 0))
        case _ => Prepend((left * 64 + v.value) as Byte, Scan(s[1..], 0, 0, 0))
  }

  function Equals(n: nat): string {
    if n == 0 then "" else "=" + Equals(n - 1)
  }

  /** `-n % 4`: what a length lacks to a multiple of four. */
  function Missing(n: nat): nat {
    var m: int := n;
    -m % 4
  }

  predicate IsAscii(s: string) {
    forall i :: 0 <= i < |s| ==> s[i] as int < 128
  }

  /** Restores the padding and decodes. */
  function Decode(s: string): Result<Bytes, DecodeError> {
    if !IsAscii(s) then Err(NotAscii) else Scan(s + Equals(Missing(|s|)), 0, 0, 0)
  }

  // ----- round trip -----

  lemma {:induction false} StripAfter(a: string, b: string)
    requires a != "" && a[|a| - 1] != '='
    ensures StripPadding(a + b) == a + StripPadding(b)
    decreases |b|
  {
    if b != "" && b[|b| - 1] == '=' {
      assert (a + b)[..|a + b| - 1] == a + b[..|b| - 1];
      StripAfter(a, b[..|b| - 1]);
    } else if b == "" {
      assert a + b == a;
    }
  }

  lemma {:induction false} StripOnlyPadding(n: nat)
    ensures |Equals(n)| == n && (forall i :: 0 <= i < n ==> Equals(n)[i] == '=')
    ensures StripPadding(Equals(n)) == ""
  {
    if n > 0 {
      StripOnlyPadding(n - 1);
      assert Equals(n)[..n - 1] == Equals(n - 1);
    }
  }

  /** The encoding without padding. */
  function Unpadded(b: Bytes): string {
    if b == [] then ""
    else if |b| <= 3 then Group(b)
    else Group(b[..3]) + Unpadded(b[3..])
  }

  /** Only ASCII characters of the alphabet, among them neither the pad character nor the dot. */
  ghost predicate Clean(s: string) {
    forall i :: 0 <= i < |s| ==> s[i] != '=' && s[i] != '.' && s[i] as int < 128
  }

  lemma GroupIsClean(b: Bytes)
    requires 1 <= |b| <= 3
    ensures Clean(Group(b))
  {
    forall v: nat | v < 64
      ensures Char(v) != '=' && Char(v) != '.' && Char(v) as int < 128
    {
      CharHasItsValue(v);
    }
  }

  lemma {:induction false} EncodeFacts(b: Bytes)
    ensures Encode(b) == Unpadded(b) && Clean(Unpadded(b))
  {
    if 1 <= |b| <= 3 {
      GroupIsClean(b);
      StripAfter(Group(b), Equals(3 - |b|));
      StripOnlyPadding(3 - |b|);
      assert Group(b) + "" == Group(b);
    } else if b != [] {
      GroupIsClean(b[..3]);
      EncodeFacts(b[3..]);
      StripAfter(Group(b[..3]), EncodePadded(b[3..]));
    }
  }

  lemma PaddingOf(groups: nat, extra: nat)
    requires extra < 4
    ensures Missing(4 * groups + extra) == if extra == 0 then 0 else 4 - extra
  {
    var g: int, e: int := groups, extra;
    if extra == 0 {
      assert -(4 * g) == 4 * (-g);
    } else {
      assert -(4 * g + e) == 4 * (-g - 1) + (4 - e);
    }
  }

  /** The padding that is restored is what three-byte groups leave open. */
  lemma {:induction false} MissingPadding(b: Bytes) returns (groups: nat)
    ensures 3 * groups <= |b| < 3 * groups + 3
    ensures |Unpadded(b)| == 4 * groups + if |b| == 3 * groups then 0 else |b| - 3 * groups + 1
    ensures Missing(|Unpadded(b)|) == if |b| == 3 * groups then 0 else 3 * groups + 3 - |b|
  {
    if |b| > 3 {
      groups := MissingPadding(b[3..]);
      groups := groups + 1;
    } else {
      groups := if |b| == 3 then 1 else 0;
    }
    PaddingOf(groups, if |b| == 3 * groups then 0 else |b| - 3 * groups + 1);
  }

  /** One character of the alphabet, in each place of a group. */
  lemma ScanStep(v: nat, rest: string, quad: nat, left: nat)
    requires v < 64 && quad < 4 && left < LeftBound(quad)
    ensures Scan([Char(v)] + rest, quad, left, 0) ==
      match quad
      case 0 => Scan(rest, 1, v, 0)
      case 1 => Prepend((left * 4 + v / 16) as Byte, Scan(rest, 2, v % 16, 0))
      case 2 => Prepend((left * 16 + v / 4) as Byte, Scan(rest, 3, v % 4, 0))
      case _ => Prepend((left * 64 + v) as Byte, Scan(rest, 0, 0, 0))
  {
    CharHasItsValue(v);
    assert ([Char(v)] + rest)[1..] == rest;
  }

  /** A first byte takes one character and the upper bits of the next. */
  lemma ScanFirstByte(b0: Byte, low: nat, rest: string)
    requires low < 16
    ensures Scan([Char(b0 as int / 4)] + ([Char(b0 as int % 4 * 16 + low)] + rest), 0, 0, 0)
      == Prepend(b0, Scan(rest, 2, low, 0))
  {
    var v := b0 as int % 4 * 16 + low;
    ScanStep(b0 as int / 4, [Char(v)] + rest, 0, 0);
    ScanStep(v, rest, 1, b0 as int / 4);
    assert v / 16 == b0 as int % 4 && v % 16 == low;
  }

  /** A second byte is split over two characters. */
  lemma ScanSecondByte(b1: Byte, low: nat, rest: string)
    requires low < 4
    ensures Scan([Char(b1 as int % 16 * 4 + low)] + rest, 2, b1 as int / 16, 0) == Prepend(b1, Scan(rest, 3, low, 0))
  {
    var v := b1 as int % 16 * 4 + low;
    ScanStep(v, rest, 2, b1 as int / 16);
    assert v / 4 == b1 as int % 16 && v % 4 == low;
  }

  lemma FourApart(a: char, b: char, c: char, d: char, rest: string)
    ensures [a, b, c, d] + rest == [a] + ([b] + ([c] + ([d] + rest)))
  {
  }

  /** Scanning a full group gives its three bytes back. */
  lemma ScanGroup(b: Bytes, rest: string)
    requires |b| == 3
    ensures Scan(Group(b) + rest, 0, 0, 0)
      == Prepend(b[0], Prepend(b[1], Prepend(b[2], Scan(rest, 0, 0, 0))))
  {
    var g, b2 := Group(b), b[2] as int;
    assert g == [g[0], g[1], g[2], g[3]];
    FourApart(g[0], g[1], g[2], g[3], rest);
    ScanFirstByte(b[0], b[1] as int / 16, [g[2]] + ([g[3]] + rest));
    ScanSecondByte(b[1], b2 / 64, [g[3]] + rest);
    ScanStep(b2 % 64, rest, 3, b2 / 64);
  }

  lemma ScanOneByte(b: Bytes)
    requires |b| == 1
    ensures Scan(Group(b) + "==", 0, 0, 0) == Ok(b)
  {
    var g := Group(b);
    assert g + "==" == [g[0]] + ([g[1]] + "==");
    ScanFirstByte(b[0], 0, "==");
    assert "=="[1..] == "=";
    assert Scan("=", 2, 0, 1) == Ok([]);
    assert [b[0]] + [] == b;
  }

  lemma ScanTwoBytes(b: Bytes)
    requires |b| == 2
    ensures Scan(Group(b) + "=", 0, 0, 0) == Ok(b)
  {
    var g := Group(b);
    assert g + "=" == [g[0]] + ([g[1]] + ([g[2]] + "="));
    ScanFirstByte(b[0], b[1] as int / 16, [g[2]] + "=");
    ScanSecondByte(b[1], 0, "=");
    assert Scan("=", 3, 0, 0) == Ok([]);
    assert [b[0]] + ([b[1]] + []) == b;
  }

  lemma {:induction false} ScanUnpadded(b: Bytes, n: nat)
    requires n == Missing(|Unpadded(b)|)
    ensures Scan(Unpadded(b) + Equals(n), 0, 0, 0) == Ok(b)
  {
    var groups := MissingPadding(b);
    if |b| >= 3 {
      var rest := b[3..];
      var restGroups := MissingPadding(rest);
      ScanUnpadded(rest, n);
      UnpaddedSplits(b);
      Regroup(Group(b[..3]), Unpadded(rest), Equals(n));
      ScanGroup(b[..3], Unpadded(rest) + Equals(n));
      PrependThree(b);
    } else if |b| == 2 {
      assert Equals(1) == "=";
      ScanTwoBytes(b);
    } else if |b| == 1 {
      assert Equals(2) == "==";
      ScanOneByte(b);
    }
  }

  lemma UnpaddedSplits(b: Bytes)
    requires |b| >= 3
    ensures Unpadded(b) == Group(b[..3]) + Unpadded(b[3..])
  {
    if |b| == 3 {
      assert b[..3] == b && Group(b) + "" == Group(b);
    }
  }

  lemma PrependThree(b: Bytes)
    requires |b| >= 3
    ensures Prepend(b[0], Prepend(b[1], Prepend(b[2], Ok(b[3..])))) == Ok(b)
  {
    assert [b[0]] + ([b[1]] + ([b[2]] + b[3..])) == b;
  }

  /** Round trip: decoding undoes encoding, for every byte string. */
  lemma DecodeUndoesEncode(b: Bytes)
    ensures Decode(Encode(b)) == Ok(b)
  {
    EncodeFacts(b);
    ScanUnpadded(b, Missing(|Unpadded(b)|));
  }

  /** So different byte strings have different encodings. */
  lemma EncodeIsInjective(a: Bytes, b: Bytes)
    requires Encode(a) == Encode(b)
    ensures a == b
  {
    DecodeUndoesEncode(a);
    DecodeUndoesEncode(b);
  }

  // ----- what is accepted -----

  /** Padding after a group of which `quad` characters are read: it must fill the group up, and a single character cannot be filled. */
  lemma {:induction false} ScanPadding(n: nat, quad: nat, left: nat, pads: nat)
    requires quad < 4 && left < LeftBound(quad) && (quad < 2 ==> pads == 0) && (quad >= 2 ==> quad + pads < 4)
    ensures Scan(Equals(n), quad, left, pads).Ok? <==> quad == 0 || (quad >= 2 && quad + pads + n >= 4)
    decreases n
  {
    if n > 0 {
      assert Equals(n)[1..] == Equals(n - 1);
      if quad < 2 {
        ScanPadding(n - 1, quad, left, pads);
      } else if quad + pads + 1 < 4 {
        ScanPadding(n - 1, quad, left, pads + 1);
      }
    }
  }

  lemma {:induction false} ScanAccepts(s: string, n: nat, quad: nat, left: nat)
    requires forall i :: 0 <= i < |s| ==> Value(s[i]).Some?
    requires quad < 4 && left < LeftBound(quad)
    ensures var rest := (quad + |s|) % 4;
      Scan(s + Equals(n), quad, left, 0).Ok? <==> rest == 0 || (rest >= 2 && rest + n >= 4)
    decreases |s|
  {
    if s == "" {
      assert s + Equals(n) == Equals(n);
      ScanPadding(n, quad, left, 0);
    } else {
      TailOfConcat(s, Equals(n));
      var left' := ScanOneMore(s + Equals(n), quad, left);
      ScanAccepts(s[1..], n, NextQuad(quad), left');
      QuadAfter(quad, |s|);
    }
  }

  function NextQuad(quad: nat): nat {
    if quad == 3 then 0 else quad + 1
  }

  lemma QuadAfter(quad: nat, n: nat)
    requires quad < 4 && n > 0
    ensures (NextQuad(quad) + (n - 1)) % 4 == (quad + n) % 4
  {
  }

  lemma ScanOneMore(s: string, quad: nat, left: nat) returns (left': nat)
    requires s != "" && Value(s[0]).Some? && quad < 4 && left < LeftBound(quad)
    ensures left' < LeftBound(NextQuad(quad))
    ensures Scan(s, quad, left, 0).Ok? <==> Scan(s[1..], NextQuad(quad), left', 0).Ok?
  {
    var v := Value(s[0]).value;
    left' := match quad case 0 => v case 1 => v % 16 case 2 => v % 4 case _ => 0;
  }

  /** A string over the alphabet decodes unless it is one character longer than a multiple of four. */
  lemma AlphabetDecodes(s: string)
    requires forall i :: 0 <= i < |s| ==> Value(s[i]).Some?
    ensures Decode(s).Ok? <==> |s| % 4 != 1
  {
    forall i | 0 <= i < |s|
      ensures s[i] as int < 128
    {
      assert Value(s[i]).Some?;
    }
    ScanAccepts(s, Missing(|s|), 0, 0);
    MissingFills(|s|);
  }

  lemma MissingFills(n: nat)
    ensures n % 4 == 0 || n % 4 + Missing(n) == 4
  {
    PaddingOf(n / 4, n % 4);
  }

  /** The characters that mean something to the decoder. */
  function OnlyKnown(s: string): string {
    if s == "" then ""
    else if s[0] == '=' || Value(s[0]).Some? then [s[0]] + OnlyKnown(s[1..])
    else OnlyKnown(s[1..])
  }

  /** The decoder skips every other character. */
  lemma {:induction false} ForeignIsSkipped(s: string, quad: nat, left: nat, pads: nat)
    requires quad < 4 && left < LeftBound(quad)
    ensures Scan(s, quad, left, pads) == Scan(OnlyKnown(s), quad, left, pads)
    decreases |s|
  {
    if s != "" {
      if s[0] == '=' {
        assert OnlyKnown(s)[1..] == OnlyKnown(s[1..]);
        ForeignIsSkipped(s[1..], quad, left, if quad >= 2 then pads + 1 else pads);
      } else if Value(s[0]).Some? {
        var v := Value(s[0]).value;
        assert OnlyKnown(s)[1..] == OnlyKnown(s[1..]);
        match quad
        case 0 => ForeignIsSkipped(s[1..], 1, v, 0);
        case 1 => ForeignIsSkipped(s[1..], 2, v % 16, 0);
        case 2 => ForeignIsSkipped(s[1..], 3, v % 4, 0);
        case _ => ForeignIsSkipped(s[1..], 0, 0, 0);
      } else {
        ForeignIsSkipped(s[1..], quad, left, pads);
      }
    }
  }
}
