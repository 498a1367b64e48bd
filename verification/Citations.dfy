/** Finding the citation marks `[n]` in the text of a model. */
module Citations {
  import opened Sequences
  import opened Wrappers

  /** The decimal digits of Unicode; neither bracket is one, and the ASCII digits have their usual values. */
  datatype DigitTable = DigitTable(value: char -> Option<nat>) {
    ghost predicate Valid() {
      && value('[').None? && value(']').None?
      && (forall c :: value(c).Some? ==> value(c).value <= 9)
      && (forall c :: '0' <= c <= '9' ==> value(c) == Some(c as int - '0' as int))
    }

    predicate IsDigit(c: char) {
      value(c).Some?
    }
  }

  // ----- one mark -----

  /** The end of the run of digits that starts at `i`. */
  function DigitsEnd(t: DigitTable, text: string, i: nat): (j: nat)
    requires i <= |text|
    ensures i <= j <= |text|
    decreases |text| - i
  {
    if i < |text| && t.IsDigit(text[i]) then DigitsEnd(t, text, i + 1) else i
  }

  /** `int(digits)`. */
  function NumberOf(t: DigitTable, digits: string): nat
    decreases |digits|
  {
    if digits == "" then 0
    else
      var last := digits[|digits| - 1];
      10 * NumberOf(t, digits[..|digits| - 1]) + if t.IsDigit(last) then t.value(last).value else 0
  }

  datatype Mark = Mark(end: nat, number: nat)

  /** The mark that starts at `i`: a bracket, at least one digit, and a bracket. */
  function MarkAt(t: DigitTable, text: string, i: nat): (m: Option<Mark>)
    requires i < |text|
    ensures m.Some? ==> i + 2 < m.value.end <= |text|
  {
    if text[i] != '[' then None
    else
      var j := DigitsEnd(t, text, i + 1);
      if j > i + 1 && j < |text| && text[j] == ']' then Some(Mark(j + 1, NumberOf(t, text[i + 1..j]))) else None
  }

  // ----- all marks -----

  /** The numbers that `finditer` yields from `i` on: it goes on after the end of each match. */
  function FindMarks(t: DigitTable, text: string, i: nat): seq<nat>
    requires i <= |text|
    decreases |text| - i
  {
    if i == |text| then []
    else
      var m := MarkAt(t, text, i);
      if m.Some? then [m.value.number] + FindMarks(t, text, m.value.end) else FindMarks(t, text, i + 1)
  }

  /** The numbers of the marks at all positions from `i` up to `end`. */
  function MarksBetween(t: DigitTable, text: string, i: nat, end: nat): seq<nat>
    requires i <= end <= |text|
    decreases end - i
  {
    if i == end then []
    else
      var m := MarkAt(t, text, i);
      (if m.Some? then [m.value.number] else []) + MarksBetween(t, text, i + 1, end)
  }

  lemma {:induction false} DigitsAreDigits(t: DigitTable, text: string, i: nat, k: nat)
    requires i <= |text| && i <= k < DigitsEnd(t, text, i)
    ensures t.IsDigit(text[k])
    decreases |text| - i
  {
    if i < k {
      DigitsAreDigits(t, text, i + 1, k);
    }
  }

  lemma {:induction false} MarksBetweenSplit(t: DigitTable, text: string, i: nat, mid: nat, end: nat)
    requires i <= mid <= end <= |text|
    ensures MarksBetween(t, text, i, end) == MarksBetween(t, text, i, mid) + MarksBetween(t, text, mid, end)
    decreases mid - i
  {
    if i < mid {
      MarksBetweenSplit(t, text, i + 1, mid, end);
    }
  }

  lemma {:induction false} NoMarksBetween(t: DigitTable, text: string, i: nat, end: nat)
    requires i <= end <= |text| && forall k :: i <= k < end ==> text[k] != '['
    ensures MarksBetween(t, text, i, end) == []
    decreases end - i
  {
    if i < end {
      NoMarksBetween(t, text, i + 1, end);
    }
  }

  lemma NoMarkInside(t: DigitTable, text: string, i: nat)
    requires t.Valid() && i < |text| && MarkAt(t, text, i).Some?
    ensures MarksBetween(t, text, i + 1, MarkAt(t, text, i).value.end) == []
  {
    var end := MarkAt(t, text, i).value.end;
    forall k | i + 1 <= k < end
      ensures text[k] != '['
    {
      if k < end - 1 {
        DigitsAreDigits(t, text, i + 1, k);
      }
    }
    NoMarksBetween(t, text, i + 1, end);
  }

  /** Jumping over a match misses nothing: no mark starts inside another. */
  lemma {:induction false} ScanMissesNothing(t: DigitTable, text: string, i: nat)
    requires t.Valid() && i <= |text|
    ensures FindMarks(t, text, i) == MarksBetween(t, text, i, |text|)
    decreases |text| - i
  {
    if i < |text| {
      var m := MarkAt(t, text, i);
      if m.Some? {
        NoMarkInside(t, text, i);
        MarksBetweenSplit(t, text, i + 1, m.value.end, |text|);
        ScanMissesNothing(t, text, m.value.end);
      } else {
        ScanMissesNothing(t, text, i + 1);
      }
    }
  }

  /** The text has a mark for `number`. */
  ghost predicate Cites(t: DigitTable, text: string, number: nat) {
    exists i: nat, end: nat :: i < |text| && MarkAt(t, text, i) == Some(Mark(end, number))
  }

  lemma {:induction false} MarksAreCites(t: DigitTable, text: string, i: nat, number: nat)
    requires i <= |text|
    ensures number in MarksBetween(t, text, i, |text|) <==> CitesFrom(t, text, i, number)
    decreases |text| - i
  {
    if i < |text| {
      MarksAreCites(t, text, i + 1, number);
      CitesFromStep(t, text, i, number);
    }
  }

  /** There is a mark for `number` at or after position `i`. */
  ghost predicate CitesFrom(t: DigitTable, text: string, i: nat, number: nat) {
    exists k: nat, end: nat :: i <= k < |text| && MarkAt(t, text, k) == Some(Mark(end, number))
  }

  lemma CitesFromStep(t: DigitTable, text: string, i: nat, number: nat)
    requires i < |text|
    ensures CitesFrom(t, text, i, number)
      <==> (MarkAt(t, text, i).Some? && MarkAt(t, text, i).value.number == number) || CitesFrom(t, text, i + 1, number)
  {
    var m := MarkAt(t, text, i);
    if m.Some? && m.value.number == number {
      assert m == Some(Mark(m.value.end, number));
    }
  }

  // ----- extraction -----

  /** The position of the first occurrence. */
  function FirstAt(numbers: seq<nat>, number: nat): nat {
    if numbers == [] || numbers[0] == number then 0 else 1 + FirstAt(numbers[1..], number)
  }

  lemma {:induction false} FirstAtFacts(numbers: seq<nat>, k: nat)
    requires k < |numbers|
    ensures FirstAt(numbers, numbers[k]) <= k
    ensures numbers[k] !in numbers[..k] ==> FirstAt(numbers, numbers[k]) == k
  {
    if k > 0 && numbers[0] != numbers[k] {
      FirstAtFacts(numbers[1..], k - 1);
      assert numbers[1..][k - 1] == numbers[k];
      if numbers[k] !in numbers[..k] {
        assert numbers[..k] == [numbers[0]] + numbers[1..][..k - 1];
      }
    } else if k > 0 {
      assert numbers[..k][0] == numbers[0];
    }
  }

  /** The numbers 1..maxId that an answer cites, each once, in the order in which they are first cited. */
  ghost predicate AreCitationIds(t: DigitTable, answer: string, maxId: nat, ids: seq<nat>) {
    && (forall id :: id in ids <==> 1 <= id <= maxId && Cites(t, answer, id))
    && (forall i, j :: 0 <= i < j < |ids| ==> ids[i] != ids[j])
    && var numbers := MarksBetween(t, answer, 0, |answer|);
       forall i, j :: 0 <= i < j < |ids| ==> FirstAt(numbers, ids[i]) < FirstAt(numbers, ids[j])
  }

  method ExtractCitationIds(t: DigitTable, answer: string, maxId: nat) returns (ids: seq<nat>)
    requires t.Valid()
    ensures AreCitationIds(t, answer, maxId, ids)
  {
    var numbers := FindMarks(t, answer, 0);
    ScanMissesNothing(t, answer, 0);
    forall id: nat
      ensures id in numbers <==> Cites(t, answer, id)
    {
      MarksAreCites(t, answer, 0, id);
      assert Cites(t, answer, id) <==> CitesFrom(t, answer, 0, id);
    }
    ids := CollectIds(numbers, maxId);
  }

  method CollectIds(numbers: seq<nat>, maxId: nat) returns (ids: seq<nat>)
    ensures forall id :: id in ids <==> 1 <= id <= maxId && id in numbers
    ensures forall i, j :: 0 <= i < j < |ids| ==> ids[i] != ids[j] && FirstAt(numbers, ids[i]) < FirstAt(numbers, ids[j])
  {
    ids := [];
    var seen: set<nat> := {};
    for k := 0 to |numbers|
      invariant forall id :: id in seen <==> id in ids
      invariant forall id :: id in ids <==> 1 <= id <= maxId && id in numbers[..k]
      invariant forall i :: 0 <= i < |ids| ==> FirstAt(numbers, ids[i]) < k
      invariant forall i, j :: 0 <= i < j < |ids| ==> FirstAt(numbers, ids[i]) < FirstAt(numbers, ids[j])
    {
      var id := numbers[k];
      FirstAtFacts(numbers, k);
      assert numbers[..k + 1] == numbers[..k] + [id];
      if id < 1 || id > maxId || id in seen {
        continue;
      }
      ids := ids + [id];
      seen := seen + {id};
    }
    assert numbers[..|numbers|] == numbers;
  }

  /** Some mark of `first` starts before every mark of `second`. */
  ghost predicate CitedBefore(t: DigitTable, text: string, from: nat, first: nat, second: nat) {
    exists p: nat, end: nat :: from <= p < |text| && MarkAt(t, text, p) == Some(Mark(end, first))
      && forall q: nat :: from <= q <= p ==> MarkAt(t, text, q).None? || MarkAt(t, text, q).value.number != second
  }

  lemma {:induction false} EarlierMark(t: DigitTable, text: string, from: nat, first: nat, second: nat)
    requires from <= |text| && first != second
    requires var numbers := MarksBetween(t, text, from, |text|); first in numbers && FirstAt(numbers, first) < FirstAt(numbers, second)
    ensures CitedBefore(t, text, from, first, second)
    decreases |text| - from
  {
    var m := MarkAt(t, text, from);
    if m.Some? && m.value.number == first {
      assert m == Some(Mark(m.value.end, first));
    } else {
      var rest := MarksBetween(t, text, from + 1, |text|);
      assert m.Some? ==> MarksBetween(t, text, from, |text|)[1..] == rest && m.value.number != second;
      assert m.None? ==> MarksBetween(t, text, from, |text|) == rest;
      EarlierMark(t, text, from + 1, first, second);
      var p: nat, end: nat :| from + 1 <= p < |text| && MarkAt(t, text, p) == Some(Mark(end, first))
        && forall q: nat :: from + 1 <= q <= p ==> MarkAt(t, text, q).None? || MarkAt(t, text, q).value.number != second;
      assert from <= p && MarkAt(t, text, p) == Some(Mark(end, first));
    }
  }

  /** Citation ids come in the order in which the text first cites them. */
  lemma IdsInReadingOrder(t: DigitTable, answer: string, maxId: nat, ids: seq<nat>, i: nat, j: nat)
    requires t.Valid() && AreCitationIds(t, answer, maxId, ids) && i < j < |ids|
    ensures CitedBefore(t, answer, 0, ids[i], ids[j])
  {
    MarksAreCites(t, answer, 0, ids[i]);
    assert ids[i] in ids;
    assert Cites(t, answer, ids[i]) <==> CitesFrom(t, answer, 0, ids[i]);
    EarlierMark(t, answer, 0, ids[i], ids[j]);
  }

  // ----- what the prompt asks for is found -----

  /** A number in decimal. */
  function Numeral(n: nat): string {
    (if n < 10 then "" else Numeral(n / 10)) + ['0' + (n % 10) as char]
  }

  lemma {:induction false} NumeralReads(t: DigitTable, n: nat)
    requires t.Valid()
    ensures Numeral(n) != "" && (forall i :: 0 <= i < |Numeral(n)| ==> t.IsDigit(Numeral(n)[i]))
    ensures NumberOf(t, Numeral(n)) == n
  {
    var last := '0' + (n % 10) as char;
    assert '0' <= last <= '9' && t.value(last) == Some(n % 10);
    if n >= 10 {
      NumeralReads(t, n / 10);
      assert Numeral(n)[..|Numeral(n)| - 1] == Numeral(n / 10);
    } else {
      assert Numeral(n)[..|Numeral(n)| - 1] == "";
    }
  }

  /** A numeral is written in ASCII digits, without leading zeros. */
  lemma {:induction false} NumeralIsPlain(n: nat)
    ensures Numeral(n) != "" && forall i :: 0 <= i < |Numeral(n)| ==> '0' <= Numeral(n)[i] <= '9'
    ensures if n == 0 then Numeral(n) == "0" else Numeral(n)[0] != '0'
  {
    var last := '0' + (n % 10) as char;
    assert '0' <= last <= '9' && (0 < n < 10 ==> last != '0');
    if n >= 10 {
      NumeralIsPlain(n / 10);
    }
  }

  lemma {:induction false} DigitRun(t: DigitTable, text: string, i: nat, j: nat)
    requires i <= j < |text| && !t.IsDigit(text[j]) && forall k :: i <= k < j ==> t.IsDigit(text[k])
    ensures DigitsEnd(t, text, i) == j
    decreases j - i
  {
    if i < j {
      DigitRun(t, text, i + 1, j);
    }
  }

  lemma NumeralInBrackets(t: DigitTable, text: string, i: nat, j: nat, n: nat)
    requires t.Valid() && i < j < |text| && text[i] == '[' && text[j] == ']' && text[i + 1..j] == Numeral(n)
    ensures MarkAt(t, text, i) == Some(Mark(j + 1, n))
  {
    var digits := text[i + 1..j];
    NumeralReads(t, n);
    forall k | i + 1 <= k < j
      ensures t.IsDigit(text[k])
    {
      assert t.IsDigit(digits[k - (i + 1)]);
    }
    DigitRun(t, text, i + 1, j);
  }

  /** A model that writes `[n]` anywhere in its answer cites n. */
  lemma WrittenMarksAreCited(t: DigitTable, before: string, n: nat, after: string)
    requires t.Valid()
    ensures Cites(t, before + ("[" + Numeral(n) + "]") + after, n)
  {
    var mark := "[" + Numeral(n) + "]";
    var text := before + mark + after;
    var i, j := |before|, |before| + 1 + |Numeral(n)|;
    assert forall k :: 0 <= k < |mark| ==> text[i + k] == mark[k];
    assert text[i] == mark[0] && text[j] == mark[|mark| - 1];
    assert text[i + 1..j] == mark[1..|mark| - 1] == Numeral(n);
    NumeralInBrackets(t, text, i, j, n);
  }

  // ----- what is found is written -----

  /** A mark written out: brackets around at least one digit. */
  ghost predicate WrittenMark(t: DigitTable, mark: string, n: nat) {
    && |mark| > 2 && mark[0] == '[' && mark[|mark| - 1] == ']'
    && (forall k :: 0 < k < |mark| - 1 ==> t.IsDigit(mark[k]))
    && NumberOf(t, mark[1..|mark| - 1]) == n
  }

  /** A text cites a number exactly if it is written in it between brackets, in whatever digits. */
  lemma CitedIsWritten(t: DigitTable, text: string, n: nat)
    requires t.Valid()
    ensures Cites(t, text, n) <==> exists i: nat, j: nat :: i <= j <= |text| && WrittenMark(t, text[i..j], n)
  {
    if Cites(t, text, n) {
      var i: nat, end: nat :| i < |text| && MarkAt(t, text, i) == Some(Mark(end, n));
      MarkIsWritten(t, text, i, end, n);
    }
    if i: nat, j: nat :| i <= j <= |text| && WrittenMark(t, text[i..j], n) {
      WrittenIsMark(t, text, i, j, n);
    }
  }

  lemma MarkIsWritten(t: DigitTable, text: string, i: nat, end: nat, n: nat)
    requires i < |text| && MarkAt(t, text, i) == Some(Mark(end, n))
    ensures i <= end <= |text| && WrittenMark(t, text[i..end], n)
  {
    var mark := text[i..end];
    SliceOfSlice(text, i, end, 1, |mark| - 1);
    forall k | 0 < k < |mark| - 1
      ensures t.IsDigit(mark[k])
    {
      DigitsAreDigits(t, text, i + 1, i + k);
    }
  }

  lemma WrittenIsMark(t: DigitTable, text: string, i: nat, j: nat, n: nat)
    requires t.Valid() && i <= j <= |text| && WrittenMark(t, text[i..j], n)
    ensures i < |text| && MarkAt(t, text, i) == Some(Mark(j, n))
  {
    var mark := text[i..j];
    assert text[i] == mark[0] && text[j - 1] == mark[|mark| - 1];
    forall k | i + 1 <= k < j - 1
      ensures t.IsDigit(text[k])
    {
      assert text[k] == mark[k - i];
    }
    DigitRun(t, text, i + 1, j - 1);
    SliceOfSlice(text, i, j, 1, |mark| - 1);
  }

  function Pow10(n: nat): nat {
    if n == 0 then 1 else 10 * Pow10(n - 1)
  }

  /** Digits count by their place. */
  lemma {:induction false} NumberIsPositional(t: DigitTable, a: string, b: string)
    ensures NumberOf(t, a + b) == NumberOf(t, a) * Pow10(|b|) + NumberOf(t, b)
    decreases |b|
  {
    if b == "" {
      assert a + b == a;
    } else {
      var front, last := b[..|b| - 1], b[|b| - 1];
      NumberIsPositional(t, a, front);
      Regroup(a, front, [last]);
      assert b == front + [last];
      OneMoreDigit(t, a + front, last);
      OneMoreDigit(t, front, last);
      ShiftLeft(NumberOf(t, a), Pow10(|front|), NumberOf(t, front));
    }
  }

  lemma OneMoreDigit(t: DigitTable, front: string, last: char)
    ensures NumberOf(t, front + [last]) == 10 * NumberOf(t, front) + if t.IsDigit(last) then t.value(last).value else 0
  {
    assert (front + [last])[..|front + [last]| - 1] == front;
  }

  lemma ShiftLeft(x: nat, power: nat, y: nat)
    ensures 10 * (x * power + y) == x * (10 * power) + 10 * y
  {
  }
}
