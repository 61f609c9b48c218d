/** The parts of Python's `str.upper()` and `str.title()` the tool relies on,
    over ASCII: letters change case, every other character is left alone. */
module Text {

  predicate IsLower(ch: char) { 'a' <= ch <= 'z' }

  predicate IsUpper(ch: char) { 'A' <= ch <= 'Z' }

  /** A cased character in the sense of `str.title()`: one that has a case. */
  predicate IsCased(ch: char) { IsLower(ch) || IsUpper(ch) }

  function UpperChar(ch: char): (u: char)
    ensures IsCased(u) == IsCased(ch)
    ensures !IsLower(u)
    ensures !IsCased(ch) ==> u == ch
  {
    if IsLower(ch) then (ch as int - 'a' as int + 'A' as int) as char else ch
  }

  function LowerChar(ch: char): (l: char)
    ensures IsCased(l) == IsCased(ch)
    ensures !IsUpper(l)
    ensures !IsCased(ch) ==> l == ch
  {
    if IsUpper(ch) then (ch as int - 'A' as int + 'a' as int) as char else ch
  }

  /** `s.upper()`. */
  function Upper(s: string): (u: string)
    ensures |u| == |s|
    ensures forall i :: 0 <= i < |s| ==> u[i] == UpperChar(s[i])
  {
    seq(|s|, i requires 0 <= i < |s| => UpperChar(s[i]))
  }

  /** `str.title()` from a position whose preceding character is cased
      (`afterCased`) or not: a cased character that follows a cased one is
      lower-cased, any other is upper-cased. */
  function TitleFrom(s: string, afterCased: bool): (t: string)
    ensures |t| == |s|
    decreases |s|
  {
    if s == [] then []
    else
      var head := if afterCased then LowerChar(s[0]) else UpperChar(s[0]);
      [head] + TitleFrom(s[1..], IsCased(s[0]))
  }

  /** `s.title()`: every word starts upper-case and continues lower-case. */
  function Title(s: string): (t: string)
    ensures |t| == |s|
  {
    TitleFrom(s, false)
  }

  lemma {:induction false} TitleFromIdempotent(s: string, afterCased: bool)
    ensures TitleFrom(TitleFrom(s, afterCased), afterCased) == TitleFrom(s, afterCased)
    decreases |s|
  {
    if s != [] {
      var t := TitleFrom(s, afterCased);
      assert t[1..] == TitleFrom(s[1..], IsCased(s[0]));
      assert IsCased(t[0]) == IsCased(s[0]);
      TitleFromIdempotent(s[1..], IsCased(s[0]));
    }
  }

  /** A title-cased name is already in title case. */
  lemma TitleIdempotent(s: string)
    ensures Title(Title(s)) == Title(s)
  {
    TitleFromIdempotent(s, false);
  }

  lemma {:induction false} TitleFromAt(s: string, afterCased: bool, i: int)
    requires 0 <= i < |s|
    ensures TitleFrom(s, afterCased)[i] ==
      if (if i == 0 then afterCased else IsCased(s[i - 1])) then LowerChar(s[i]) else UpperChar(s[i])
    decreases |s|
  {
    if i > 0 {
      TitleFromAt(s[1..], IsCased(s[0]), i - 1);
    }
  }

  /** Position by position: a character that follows a cased character is
      lower-cased, every other character (the start of a word) upper-cased. */
  lemma TitleAt(s: string, i: int)
    requires 0 <= i < |s|
    ensures Title(s)[i] == if i > 0 && IsCased(s[i - 1]) then LowerChar(s[i]) else UpperChar(s[i])
  {
    TitleFromAt(s, false, i);
  }
}
