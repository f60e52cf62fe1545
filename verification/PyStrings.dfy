/** Python string idioms: whitespace, stripping, searching. */
module PyStrings {
  import opened PyLists

  /** What `str.strip` removes. */
  predicate IsSpace(c: char)
  {
    var n := c as int;
    9 <= n <= 13 || 28 <= n <= 32 || n == 0x85 || n == 0xA0 || n == 0x1680 || 0x2000 <= n <= 0x200A
    || n == 0x2028 || n == 0x2029 || n == 0x202F || n == 0x205F || n == 0x3000
  }

  /** Python's `s[:n]`. */
  function Take(s: string, n: nat): string { if n < |s| then s[..n] else s }

  function RStrip(s: string): (r: string)
    ensures |r| <= |s|
  {
    if s != "" && IsSpace(s[|s| - 1]) then RStrip(s[..|s| - 1]) else s
  }

  function LStrip(s: string): (r: string)
    ensures |r| <= |s|
  {
    if s != "" && IsSpace(s[0]) then LStrip(s[1..]) else s
  }

  function Strip(s: string): (r: string)
    ensures |r| <= |s|
  {
    LStrip(RStrip(s))
  }

  /** Only blanks from a up to b. */
  ghost predicate BlankIn(s: string, a: nat, b: nat)
    requires b <= |s|
  {
    forall i :: a <= i < b ==> IsSpace(s[i])
  }

  /** Right-stripping removes exactly the blanks at the end. */
  lemma {:induction false} RStripLies(s: string)
    ensures var n := |RStrip(s)|;
      RStrip(s) == s[..n] && BlankIn(s, n, |s|) && (n == 0 || !IsSpace(s[n - 1]))
  {
    if s != "" && IsSpace(s[|s| - 1]) {
      var t := s[..|s| - 1];
      RStripLies(t);
      assert forall i :: 0 <= i < |t| ==> t[i] == s[i];
    }
  }

  lemma {:induction false} LStripLies(s: string)
    ensures var k := |s| - |LStrip(s)|;
      LStrip(s) == s[k..] && BlankIn(s, 0, k) && (k == |s| || !IsSpace(s[k]))
  {
    if s != "" && IsSpace(s[0]) {
      var t := s[1..];
      LStripLies(t);
      assert forall i :: 1 <= i < |s| ==> s[i] == t[i - 1];
    }
  }

  /** Where the stripped text starts. */
  function StripStart(s: string): nat
  {
    |RStrip(s)| - |Strip(s)|
  }

  lemma StripLies(s: string)
    ensures var a, b := StripStart(s), |RStrip(s)|;
      a <= b <= |s| && Strip(s) == s[a..b] && BlankIn(s, 0, a) && BlankIn(s, b, |s|)
      && (a == b || (!IsSpace(s[a]) && !IsSpace(s[b - 1])))
  {
    var r := RStrip(s);
    RStripLies(s);
    LStripLies(r);
    assert forall i :: 0 <= i < |r| ==> r[i] == s[i];
  }

  /** The pattern occurs at position i. */
  predicate IsAt(s: string, pat: string, i: nat)
  {
    i + |pat| <= |s| && s[i..i + |pat|] == pat
  }

  /** The first occurrence from `from` on. */
  function FindFrom(s: string, pat: string, from: nat): (r: Option<nat>)
    ensures r.Some? ==> r.value >= from && IsAt(s, pat, r.value)
    ensures r.Some? ==> forall i: nat :: from <= i < r.value ==> !IsAt(s, pat, i)
    ensures r.None? ==> forall i: nat :: from <= i ==> !IsAt(s, pat, i)
    decreases |s| - from
  {
    if from + |pat| > |s| then None
    else if IsAt(s, pat, from) then Some(from)
    else FindFrom(s, pat, from + 1)
  }

  function Find(s: string, pat: string): (r: Option<nat>)
    ensures r.Some? ==> IsAt(s, pat, r.value) && forall i: nat :: i < r.value ==> !IsAt(s, pat, i)
    ensures r.None? ==> forall i: nat :: !IsAt(s, pat, i)
  {
    FindFrom(s, pat, 0)
  }
}
