/** Head-and-tail truncation of an oversized text. */
module Collapse {
  import opened PyLists
  import opened PyStrings

  // ---------------------------------------------------------------- decimal numbers

  function Digits(n: nat): (s: string)
    ensures |s| >= 1
  {
    if n < 10 then [('0' as int + n) as char] else Digits(n / 10) + [('0' as int + n % 10) as char]
  }

  function Decimal(n: int): string
  {
    if n < 0 then "-" + Digits(-n) else Digits(n)
  }

  function Pow10(k: nat): (p: nat)
    ensures p >= 1
  {
    if k == 0 then 1 else 10 * Pow10(k - 1)
  }

  lemma {:induction false} DigitsShort(n: nat, k: nat)
    requires k >= 1
    ensures |Digits(n)| <= k <==> n < Pow10(k)
  {
    if n >= 10 {
      if k == 1 {
        assert Pow10(1) == 10 * Pow10(0);
      } else {
        DigitsShort(n / 10, k - 1);
      }
    } else {
      assert Pow10(k) == 10 * Pow10(k - 1);
    }
  }

  /** The number that a row of digits stands for. */
  function Value(s: string): nat
    requires forall i :: 0 <= i < |s| ==> '0' <= s[i] <= '9'
  {
    if s == "" then 0 else 10 * Value(s[..|s| - 1]) + ((s[|s| - 1] as int) - ('0' as int))
  }

  /** The digits of a number stand for it, without leading zeros. */
  lemma {:induction false} DigitsStandForIt(n: nat)
    ensures forall i :: 0 <= i < |Digits(n)| ==> '0' <= Digits(n)[i] <= '9'
    ensures Value(Digits(n)) == n && (|Digits(n)| > 1 ==> Digits(n)[0] != '0')
  {
    if n >= 10 {
      DigitsStandForIt(n / 10);
      var front := Digits(n / 10);
      assert Digits(n)[..|Digits(n)| - 1] == front;
      assert |front| == 1 ==> Value(front[..0]) == 0;
    } else {
      assert Digits(n)[..0] == "";
    }
  }

  /** The printed number: its digits, behind a minus sign if it is negative. */
  lemma DecimalStandsForIt(n: int)
    ensures var s := Decimal(n);
      var digits := if n < 0 then s[1..] else s;
      && (n < 0 ==> s[0] == '-')
      && (forall i :: 0 <= i < |digits| ==> '0' <= digits[i] <= '9')
      && Value(digits) == (if n < 0 then -n else n) && (|digits| > 1 ==> digits[0] != '0')
  {
    DigitsStandForIt(if n < 0 then -n else n);
    assert n < 0 ==> ("-" + Digits(-n))[1..] == Digits(-n);
    hide Digits;
  }

  // ---------------------------------------------------------------- collapsing a text

  /** Head and tail as configured, or shrunk to share limit - 40 when they would not fit. */
  function Shares(limit: nat, head: nat, tail: nat): (nat, nat)
  {
    if head + tail >= limit then
      var budget := Max(1, limit - 40);
      var h := Max(1, budget / 2);
      (h, Max(1, budget - h))
    else (head, tail)
  }

  /** Shares that do not fit are replaced by two halves of what a marker of forty leaves. */
  lemma SharesAre(limit: nat, head: nat, tail: nat)
    ensures var (h, t) := Shares(limit, head, tail);
      if head + tail < limit then h == head && t == tail
      else if limit > 41 then h + t == limit - 40 && h <= t <= h + 1
      else h == 1 && t == 1
  {
  }

  function Omitted(length: nat, limit: nat, head: nat, tail: nat): int
  {
    length - Shares(limit, head, tail).0 - Shares(limit, head, tail).1
  }

  function Marker(omitted: int): string
  {
    "\n...[collapsed " + Decimal(omitted) + " chars]...\n"
  }

  function HeadPart(text: string, h: nat): string { RStrip(Take(text, h)) }

  function TailPart(text: string, t: nat): string { LStrip(TailSlice(text, t)) }

  function Collapsed(text: string, limit: nat, head: nat, tail: nat): string
  {
    if |text| <= limit then text
    else
      var (h, t) := Shares(limit, head, tail);
      HeadPart(text, h) + Marker(Omitted(|text|, limit, head, tail)) + TailPart(text, t)
  }

  /** Checkable from the length alone: the shares and the marker fit the limit, and the tail is
      not empty (a tail of zero is the whole text, by the meaning of the slice). */
  predicate Fits(length: nat, limit: nat, head: nat, tail: nat)
  {
    length <= limit ||
    (var (h, t) := Shares(limit, head, tail);
     t >= 1 && h + t + 26 + |Decimal(Omitted(length, limit, head, tail))| <= limit)
  }

  lemma CollapsedLength(text: string, limit: nat, head: nat, tail: nat)
    requires Fits(|text|, limit, head, tail)
    ensures |Collapsed(text, limit, head, tail)| <= limit
  {
  }

  /** n letters: nothing for the stripping to remove. */
  function Letters(n: nat): string { seq(n, _ => 'x') }

  lemma LettersAreLongest(n: nat, limit: nat, head: nat, tail: nat)
    ensures |Collapsed(Letters(n), limit, head, tail)| <= limit <==> Fits(n, limit, head, tail)
  {
    var (h, t) := Shares(limit, head, tail);
    PartsOfLetters(n, h, t);
    hide HeadPart, TailPart, Letters, Digits;
    assert h <= n || n <= limit;
  }

  lemma PartsOfLetters(n: nat, h: nat, t: nat)
    ensures |Letters(n)| == n
    ensures |HeadPart(Letters(n), h)| == Min(h, n)
    ensures |TailPart(Letters(n), t)| == if t == 0 then n else Min(t, n)
  {
    Unstripped(Take(Letters(n), h));
    Unstripped(TailSlice(Letters(n), t));
  }

  lemma Unstripped(s: string)
    requires forall c :: c in s ==> c == 'x'
    ensures RStrip(s) == s && LStrip(s) == s
  {
    assert s != "" ==> s[0] in s && s[|s| - 1] in s;
  }

  /** The bound: every text of a length stays within the limit exactly when that length fits. */
  lemma FitsExactly(n: nat, limit: nat, head: nat, tail: nat)
    ensures Fits(n, limit, head, tail) <==>
      forall text: string :: |text| == n ==> |Collapsed(text, limit, head, tail)| <= limit
  {
    var longest := Letters(n);
    LettersAreLongest(n, limit, head, tail);
    if Fits(n, limit, head, tail) {
      forall text: string | |text| == n ensures |Collapsed(text, limit, head, tail)| <= limit {
        CollapsedLength(text, limit, head, tail);
      }
    } else {
      assert |longest| == n && |Collapsed(longest, limit, head, tail)| > limit;
    }
  }

  /** A configuration that leaves room for the marker, or none at all so that it is made. */
  predicate LeavesRoom(limit: nat, head: nat, tail: nat)
  {
    limit >= 42 && tail >= 1 && (head + tail >= limit || head + tail <= limit - 40)
  }

  lemma RoomyFits(n: nat, limit: nat, head: nat, tail: nat)
    requires LeavesRoom(limit, head, tail) && Omitted(n, limit, head, tail) < Pow10(14)
    ensures Fits(n, limit, head, tail)
  {
    hide Digits;
    var omitted := Omitted(n, limit, head, tail);
    if n > limit && omitted >= 0 {
      DigitsShort(omitted, 14);
    }
  }

  /** Collapsing what already fits changes nothing, so a second pass is the identity. */
  lemma CollapseTwice(text: string, limit: nat, head: nat, tail: nat)
    requires Fits(|text|, limit, head, tail)
    ensures Collapsed(Collapsed(text, limit, head, tail), limit, head, tail) == Collapsed(text, limit, head, tail)
  {
    CollapsedLength(text, limit, head, tail);
  }

  /** A prefix of the text whose missing end, up to the share, is blank. */
  ghost predicate IsFront(text: string, h: nat, front: string)
  {
    front <= text && |front| <= h <= |text| && forall i :: |front| <= i < h ==> IsSpace(text[i])
  }

  ghost predicate IsBack(text: string, t: nat, back: string)
  {
    |back| <= t <= |text| && back == text[|text| - |back|..]
    && forall i :: |text| - t <= i < |text| - |back| ==> IsSpace(text[i])
  }

  lemma HeadIsFront(text: string, h: nat)
    ensures IsFront(text, Min(h, |text|), HeadPart(text, h))
  {
    var share := Take(text, h);
    assert share == text[..Min(h, |text|)];
    RStripLies(share);
    assert forall i :: 0 <= i < |share| ==> share[i] == text[i];
  }

  lemma TailIsBack(text: string, t: nat)
    ensures IsBack(text, if t == 0 then |text| else Min(t, |text|), TailPart(text, t))
  {
    var n := if t == 0 then |text| else Min(t, |text|);
    SliceOfTail(text, t, n);
    hide IsBack, BlankIn, IsSpace, TailSlice;
    var slice := text[|text| - n..];
    LStripLies(slice);
    hide LStrip;
    BackOfSlice(text, n, LStrip(slice));
  }

  lemma SliceOfTail(text: string, t: nat, n: nat)
    requires n == if t == 0 then |text| else Min(t, |text|)
    ensures TailSlice(text, t) == text[|text| - n..]
  {
  }

  lemma BackOfSlice(text: string, n: nat, back: string)
    requires n <= |text| && |back| <= n && back == text[|text| - n..][n - |back|..]
    requires BlankIn(text[|text| - n..], 0, n - |back|)
    ensures IsBack(text, n, back)
  {
    var slice := text[|text| - n..];
    assert slice[n - |back|..] == text[|text| - |back|..];
    assert forall i :: |text| - n <= i < |text| - |back| ==> text[i] == slice[i - (|text| - n)];
  }

  /** What survives, whatever the configuration: the text's front and back shares up to stripped
      blanks, around the marker that tells how many characters the shares leave out. A share is
      at most the whole text, and a tail share of zero is the whole text. */
  lemma KeepsBothEnds(text: string, limit: nat, head: nat, tail: nat)
    requires |text| > limit
    ensures var (h, t) := Shares(limit, head, tail);
      var frontShare, backShare := Min(h, |text|), if t == 0 then |text| else Min(t, |text|);
      exists front, back :: IsFront(text, frontShare, front) && IsBack(text, backShare, back)
        && Collapsed(text, limit, head, tail) ==
             front + ("\n...[collapsed " + Decimal(|text| - h - t) + " chars]...\n") + back
  {
    hide HeadPart, TailPart, Decimal, IsFront, IsBack;
    var (h, t) := Shares(limit, head, tail);
    HeadIsFront(text, h);
    TailIsBack(text, t);
    assert Collapsed(text, limit, head, tail) == HeadPart(text, h) + Marker(|text| - h - t) + TailPart(text, t);
  }

  /** With the marker's forty characters neither reserved nor free, the result exceeds the limit. */
  lemma MiddleGroundOverflows(limit: nat, head: nat, tail: nat)
    requires tail >= 1 && limit - 27 < head + tail < limit
    ensures |Collapsed(Letters(limit + 1), limit, head, tail)| > limit
  {
    hide Collapsed, Letters, Digits;
    LettersAreLongest(limit + 1, limit, head, tail);
    assert Shares(limit, head, tail) == (head, tail);
    assert |Decimal(limit + 1 - head - tail)| >= 1;
  }
}
