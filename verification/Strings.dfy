/** Option and Result, and the few text operations that several components share. */
module Strings {

  datatype Option<+T> = None | Some(value: T)

  datatype Result<+T, +E> = Ok(value: T) | Err(error: E)

  /** Python's `s.split(sep)`: always at least one piece, none holding the separator. */
  function Split(s: string, sep: char): (parts: seq<string>)
    ensures |parts| >= 1
    ensures forall i :: 0 <= i < |parts| ==> sep !in parts[i]
  {
    if s == "" then [""]
    else
      var rest := Split(s[1..], sep);
      if s[0] == sep then [""] + rest else [[s[0]] + rest[0]] + rest[1..]
  }

  /** Python's `sep.join(parts)`. */
  function Join(parts: seq<string>, sep: char): string {
    if |parts| == 0 then ""
    else if |parts| == 1 then parts[0]
    else parts[0] + [sep] + Join(parts[1..], sep)
  }

  /** Splitting on a separator that the left text does not hold. */
  lemma {:induction false} SplitAt(left: string, right: string, sep: char)
    requires sep !in left
    ensures Split(left, sep) == [left]
    ensures Split(left + [sep] + right, sep) == [left] + Split(right, sep)
  {
    if left == "" {
      assert left + [sep] + right == [sep] + right;
      assert (left + [sep] + right)[1..] == right;
    } else {
      SplitAt(left[1..], right, sep);
      assert [left[0]] + left[1..] == left;
      assert (left + [sep] + right)[1..] == left[1..] + [sep] + right;
    }
  }

  lemma {:induction false} SplitJoin(parts: seq<string>, sep: char)
    requires |parts| >= 1
    requires forall i :: 0 <= i < |parts| ==> sep !in parts[i]
    ensures Split(Join(parts, sep), sep) == parts
  {
    if |parts| == 1 {
      SplitAt(parts[0], "", sep);
    } else {
      SplitJoin(parts[1..], sep);
      SplitAt(parts[0], Join(parts[1..], sep), sep);
    }
  }

  lemma {:induction false} JoinSplit(s: string, sep: char)
    ensures Join(Split(s, sep), sep) == s
  {
    if s != "" {
      JoinSplit(s[1..], sep);
      var rest := Split(s[1..], sep);
      assert s == [s[0]] + s[1..];
      if s[0] == sep {
        assert ([""] + rest)[1..] == rest;
      } else if |rest| > 1 {
        assert ([[s[0]] + rest[0]] + rest[1..])[1..] == rest[1..];
      }
    }
  }

  /** A join over a non-empty tail, cut at any point. */
  lemma {:induction false} JoinConcat(left: seq<string>, right: seq<string>, sep: char)
    requires |left| > 0 && |right| > 0
    ensures Join(left + right, sep) == Join(left, sep) + [sep] + Join(right, sep)
  {
    if |left| == 1 {
      assert (left + right)[1..] == right;
    } else {
      assert (left + right)[1..] == left[1..] + right;
      JoinConcat(left[1..], right, sep);
    }
  }

  /** Splitting a text at one of its separators splits both sides. */
  lemma SplitConcat(left: string, right: string, sep: char)
    ensures Split(left + [sep] + right, sep) == Split(left, sep) + Split(right, sep)
  {
    var parts := Split(left, sep) + Split(right, sep);
    JoinConcat(Split(left, sep), Split(right, sep), sep);
    JoinSplit(left, sep);
    JoinSplit(right, sep);
    SplitJoin(parts, sep);
    hide Split, Join;
  }

  /** The text without its leading characters of a class. */
  function TrimLeft(s: string, drop: char -> bool): (r: string)
    ensures r == "" || !drop(r[0])
    ensures |r| <= |s| && r == s[|s| - |r|..]
  {
    if s != "" && drop(s[0]) then TrimLeft(s[1..], drop) else s
  }

  /** The text without its trailing characters of a class. */
  function TrimRight(s: string, drop: char -> bool): (r: string)
    ensures r == "" || !drop(r[|r| - 1])
    ensures r <= s
  {
    if s != "" && drop(s[|s| - 1]) then TrimRight(s[..|s| - 1], drop) else s
  }

  /** Python's `s.strip()` for a given notion of white space. */
  function Strip(s: string, space: char -> bool): string {
    TrimRight(TrimLeft(s, space), space)
  }

  /** Every character is of this class. */
  ghost predicate Only(text: string, allowed: char -> bool) {
    forall i :: 0 <= i < |text| ==> allowed(text[i])
  }

  lemma {:induction false} TrimLeftSkips(left: string, text: string, drop: char -> bool)
    requires Only(left, drop)
    ensures TrimLeft(left + text, drop) == TrimLeft(text, drop)
  {
    if left == "" {
      assert left + text == text;
    } else {
      assert (left + text)[1..] == left[1..] + text;
      TrimLeftSkips(left[1..], text, drop);
    }
  }

  lemma {:induction false} TrimRightSkips(text: string, right: string, drop: char -> bool)
    requires Only(right, drop)
    ensures TrimRight(text + right, drop) == TrimRight(text, drop)
  {
    if right == "" {
      assert text + right == text;
    } else {
      var shorter := right[..|right| - 1];
      assert (text + right)[..|text + right| - 1] == text + shorter;
      TrimRightSkips(text, shorter, drop);
    }
  }

  /** White space around a text without any is what stripping removes. */
  lemma Stripped(left: string, inner: string, right: string, space: char -> bool)
    requires Only(left, space) && Only(right, space) && Only(inner, c => !space(c))
    ensures Strip(left + (inner + right), space) == inner
  {
    TrimLeftSkips(left, inner + right, space);
    if inner == "" {
      assert inner + right == right;
      TrimLeftSkips(right, "", space);
      assert right + "" == right;
    } else {
      assert (inner + right)[0] == inner[0];
      TrimRightSkips(inner, right, space);
    }
  }

  /** `needle` occurs in `text`. */
  ghost predicate Occurs(needle: string, text: string) {
    exists i :: 0 <= i <= |text| && OccursAt(needle, text, i)
  }

  ghost predicate OccursAt(needle: string, text: string, i: nat)
    requires i <= |text|
  {
    needle <= text[i..]
  }

  /** A decimal rendering of a natural number, as an f-string gives it. */
  function Decimal(n: nat): string {
    if n < 10 then [Digit(n)] else Decimal(n / 10) + [Digit(n % 10)]
  }

  function Digit(n: nat): char
    requires n < 10
  {
    "0123456789"[n]
  }
}
