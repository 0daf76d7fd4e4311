/** The Python string operations the cleaning stage relies on: `str.strip()`,
    `str.lower()` and `str.title()`. Whitespace is Python's full `str.isspace`
    set; letter case is modelled for the ASCII letters only. */
module Text {

  /** Python's `str.isspace` for one character. */
  predicate IsSpace(c: char) {
    c == ' ' || ('\t' <= c <= '\r') || ('\U{1c}' <= c <= '\U{1f}')
    || c == '\U{85}' || c == '\U{a0}' || c == '\U{1680}'
    || ('\U{2000}' <= c <= '\U{200a}') || c == '\U{2028}' || c == '\U{2029}'
    || c == '\U{202f}' || c == '\U{205f}' || c == '\U{3000}'
  }

  predicate IsUpper(c: char) { 'A' <= c <= 'Z' }
  predicate IsLower(c: char) { 'a' <= c <= 'z' }
  predicate IsCased(c: char) { IsUpper(c) || IsLower(c) }

  function LowerChar(c: char): char {
    if IsUpper(c) then (c as int + 32) as char else c
  }

  function UpperChar(c: char): char {
    if IsLower(c) then (c as int - 32) as char else c
  }

  /** No whitespace at either end. */
  predicate IsStripped(s: string) {
    s == [] || (!IsSpace(s[0]) && !IsSpace(s[|s| - 1]))
  }

  /** Number of whitespace characters at the start of `s`. */
  function LeadingSpaces(s: string): (n: nat)
    ensures n <= |s|
  {
    if s == [] || !IsSpace(s[0]) then 0 else 1 + LeadingSpaces(s[1..])
  }

  /** Number of whitespace characters at the end of `s`. */
  function TrailingSpaces(s: string): (n: nat)
    ensures n <= |s|
  {
    if s == [] || !IsSpace(s[|s| - 1]) then 0 else 1 + TrailingSpaces(s[..|s| - 1])
  }

  /** `s.strip()`: `s` without its leading and trailing whitespace. */
  function Strip(s: string): string {
    var a := LeadingSpaces(s);
    s[a..|s| - TrailingSpaces(s[a..])]
  }

  /** `s.lower()` */
  function Lower(s: string): string {
    seq(|s|, i requires 0 <= i < |s| => LowerChar(s[i]))
  }

  /** `s.title()`: a cased character is upper-cased when the character before it
      is not cased, and lower-cased otherwise. */
  function Title(s: string): string {
    TitleFrom(s, false)
  }

  function TitleChar(c: char, prevCased: bool): char {
    if prevCased then LowerChar(c) else UpperChar(c)
  }

  function TitleFrom(s: string, prevCased: bool): (r: string)
    ensures |r| == |s|
  {
    if s == [] then [] else [TitleChar(s[0], prevCased)] + TitleFrom(s[1..], IsCased(s[0]))
  }

  // ---------------------------------------------------------------- strip

  /** `LeadingSpaces` counts exactly the whitespace run at the start. */
  lemma {:induction false} LeadingSpec(s: string)
    ensures forall i :: 0 <= i < LeadingSpaces(s) ==> IsSpace(s[i])
    ensures LeadingSpaces(s) < |s| ==> !IsSpace(s[LeadingSpaces(s)])
  {
    if s != [] && IsSpace(s[0]) {
      LeadingSpec(s[1..]);
      forall i | 1 <= i < LeadingSpaces(s) ensures IsSpace(s[i]) {
        assert s[i] == s[1..][i - 1];
      }
    }
  }

  /** `TrailingSpaces` counts exactly the whitespace run at the end. */
  lemma {:induction false} TrailingSpec(s: string)
    ensures forall i :: |s| - TrailingSpaces(s) <= i < |s| ==> IsSpace(s[i])
    ensures TrailingSpaces(s) < |s| ==> !IsSpace(s[|s| - 1 - TrailingSpaces(s)])
  {
    if s != [] && IsSpace(s[|s| - 1]) {
      var p := s[..|s| - 1];
      TrailingSpec(p);
      forall i | |s| - TrailingSpaces(s) <= i < |s| - 1 ensures IsSpace(s[i]) {
        assert s[i] == p[i];
      }
    }
  }

  /** `Strip` cuts off only whitespace: everything before the slice it keeps ... */
  lemma StripCutsLeadingSpace(s: string)
    ensures forall i :: 0 <= i < LeadingSpaces(s) ==> IsSpace(s[i])
  {
    LeadingSpec(s);
  }

  /** ... or after it is whitespace. */
  lemma StripCutsTrailingSpace(s: string)
    ensures forall i :: |s| - TrailingSpaces(s[LeadingSpaces(s)..]) <= i < |s| ==> IsSpace(s[i])
  {
    CutEndIsSpace(s, LeadingSpaces(s));
  }

  /** `t` is a slice of `s` with only whitespace around it. */
  ghost predicate IsTrimOf(t: string, s: string) {
    exists a, b ::
      && 0 <= a <= b <= |s|
      && (forall i :: 0 <= i < a ==> IsSpace(s[i]))
      && (forall i :: b <= i < |s| ==> IsSpace(s[i]))
      && t == s[a..b]
  }

  /** What `strip` gives: text without end whitespace, cut from `s` with only
      whitespace around it, and `s` itself when `s` has no end whitespace. */
  lemma StripFacts(s: string)
    ensures IsStripped(Strip(s)) && IsTrimOf(Strip(s), s)
    ensures IsStripped(s) ==> Strip(s) == s
  {
    StripIsStripped(s);
    StripIsSlice(s);
    if IsStripped(s) {
      StripOfStripped(s);
    }
  }

  /** The stripped text is a slice of the text with only whitespace around it. */
  lemma StripIsSlice(s: string)
    ensures IsTrimOf(Strip(s), s)
  {
    var a := LeadingSpaces(s);
    var b := |s| - TrailingSpaces(s[a..]);
    StripCutsLeadingSpace(s);
    StripCutsTrailingSpace(s);
    assert Strip(s) == s[a..b];
  }

  lemma CutEndIsSpace(s: string, a: nat)
    requires a <= |s|
    ensures forall i :: |s| - TrailingSpaces(s[a..]) <= i < |s| ==> IsSpace(s[i])
  {
    var t := s[a..];
    TrailingSpec(t);
    forall i | |s| - TrailingSpaces(t) <= i < |s| ensures IsSpace(s[i]) {
      assert s[i] == t[i - a];
    }
  }

  /** The result of `strip` has no whitespace at either end. */
  lemma StripIsStripped(s: string)
    ensures IsStripped(Strip(s))
  {
    var a := LeadingSpaces(s);
    var t := s[a..];
    var n := TrailingSpaces(t);
    LeadingSpec(s);
    TrailingSpec(t);
    var r := Strip(s);
    if r != [] {
      assert r[0] == t[0];
      assert r[|r| - 1] == t[|t| - 1 - n];
    }
  }

  /** Text without whitespace at its ends is left alone by `strip`. */
  lemma StripOfStripped(s: string)
    requires IsStripped(s)
    ensures Strip(s) == s
  {
    if s != [] {
      assert LeadingSpaces(s) == 0;
      assert TrailingSpaces(s) == 0;
    }
  }

  lemma StripIdempotent(s: string)
    ensures Strip(Strip(s)) == Strip(s)
  {
    StripIsStripped(s);
    StripOfStripped(Strip(s));
  }

  // ---------------------------------------------------------------- case

  /** `lower` never produces an upper-case letter and changes nothing else than
      upper-case letters. */
  lemma LowerSpec(s: string)
    ensures |Lower(s)| == |s|
    ensures forall i :: 0 <= i < |s| ==> !IsUpper(Lower(s)[i])
    ensures forall i :: 0 <= i < |s| && !IsUpper(s[i]) ==> Lower(s)[i] == s[i]
    ensures forall i :: 0 <= i < |s| && IsUpper(s[i]) ==> Lower(s)[i] as int == s[i] as int + 32
  {
  }

  lemma LowerIdempotent(s: string)
    ensures Lower(Lower(s)) == Lower(s)
  {
  }

  /** Lower-casing keeps whitespace where it was. */
  lemma LowerKeepsStripped(s: string)
    requires IsStripped(s)
    ensures IsStripped(Lower(s))
  {
  }

  /** The defining property of `str.title()` on ASCII text: non-letters are kept,
      and a letter is upper-case exactly when it starts a word (the character
      before it is not a letter), lower-case otherwise. */
  lemma {:induction false} TitleSpec(s: string, prevCased: bool)
    ensures var r := TitleFrom(s, prevCased);
            && (forall i :: 0 <= i < |s| && !IsCased(s[i]) ==> r[i] == s[i])
            && (forall i :: 0 <= i < |s| ==> LowerChar(r[i]) == LowerChar(s[i]))
            && (forall i :: 0 <= i < |s| && IsCased(s[i]) ==>
                  (IsUpper(r[i]) <==> !(if i == 0 then prevCased else IsCased(s[i - 1]))))
  {
    if s != [] {
      TitleSpec(s[1..], IsCased(s[0]));
      var r := TitleFrom(s, prevCased);
      var r' := TitleFrom(s[1..], IsCased(s[0]));
      assert r == [TitleChar(s[0], prevCased)] + r';
      forall i | 1 <= i < |s|
        ensures r[i] == r'[i - 1] && s[i] == s[1..][i - 1]
      {
      }
    }
  }

  /** Title-casing keeps whether a character is a letter. */
  lemma TitleCharCased(c: char, p: bool)
    ensures IsCased(TitleChar(c, p)) == IsCased(c)
    ensures IsSpace(TitleChar(c, p)) == IsSpace(c)
  {
  }

  /** After a letter, a run of lower-case letters is left as it is. */
  lemma {:induction false} TitleFromLowerRun(s: string)
    requires forall i :: 0 <= i < |s| ==> IsLower(s[i])
    ensures TitleFrom(s, true) == s
  {
    if s != [] {
      TitleFromLowerRun(s[1..]);
    }
  }

  /** The title case of a lower-case word capitalises its first letter only. */
  lemma TitleOfLowerWord(w: string)
    requires |w| > 0 && forall i :: 0 <= i < |w| ==> IsLower(w[i])
    ensures Title(w) == [UpperChar(w[0])] + w[1..]
  {
    TitleFromLowerRun(w[1..]);
  }

  lemma {:induction false} TitleFromIdempotent(s: string, p: bool)
    ensures TitleFrom(TitleFrom(s, p), p) == TitleFrom(s, p)
  {
    if s != [] {
      var r := TitleFrom(s, p);
      TitleCharCased(s[0], p);
      assert r[0] == TitleChar(s[0], p);
      assert r[1..] == TitleFrom(s[1..], IsCased(s[0]));
      TitleFromIdempotent(s[1..], IsCased(s[0]));
      assert TitleChar(TitleChar(s[0], p), p) == TitleChar(s[0], p);
    }
  }

  /** Title-casing twice is title-casing once. */
  lemma TitleIdempotent(s: string)
    ensures Title(Title(s)) == Title(s)
  {
    TitleFromIdempotent(s, false);
  }

  lemma {:induction false} TitleFromIgnoresCase(s: string, p: bool)
    ensures TitleFrom(Lower(s), p) == TitleFrom(s, p)
  {
    if s != [] {
      assert Lower(s)[0] == LowerChar(s[0]);
      assert Lower(s)[1..] == Lower(s[1..]);
      TitleFromIgnoresCase(s[1..], IsCased(s[0]));
    }
  }

  /** The title-cased form does not depend on the case of the input: two texts
      that are equal once lower-cased have the same title form. */
  lemma TitleIgnoresCase(s: string, t: string)
    requires Lower(s) == Lower(t)
    ensures Title(s) == Title(t)
  {
    TitleFromIgnoresCase(s, false);
    TitleFromIgnoresCase(t, false);
  }

  lemma {:induction false} TitleFromKeepsSpaces(s: string, p: bool)
    ensures forall i :: 0 <= i < |s| ==> IsSpace(TitleFrom(s, p)[i]) == IsSpace(s[i])
  {
    if s != [] {
      TitleCharCased(s[0], p);
      TitleFromKeepsSpaces(s[1..], IsCased(s[0]));
      var r := TitleFrom(s, p);
      forall i | 1 <= i < |s|
        ensures r[i] == TitleFrom(s[1..], IsCased(s[0]))[i - 1] && s[i] == s[1..][i - 1]
      {
      }
    }
  }

  /** Title-casing keeps text free of whitespace at its ends. */
  lemma TitleKeepsStripped(s: string)
    requires IsStripped(s)
    ensures IsStripped(Title(s))
  {
    TitleFromKeepsSpaces(s, false);
  }
}
