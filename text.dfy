/**
 * The handful of Python `str` operations the import back end and its settings rely on:
 * `strip`, `split`, `upper`, `lower`, `startswith`, `endswith`, `replace(old, new, 1)`, slicing `s[:n]`
 * and `str(n)` on integers.
 */
module Text {

  /** The characters for which Python's `str.isspace()` holds; `str.strip()` removes exactly these. */
  predicate IsSpace(c: char)
  {
    || c == ' '
    || '\t' <= c <= '\r'
    || '\U{1C}' <= c <= '\U{1F}'
    || c == '\U{85}' || c == '\U{A0}' || c == '\U{1680}'
    || '\U{2000}' <= c <= '\U{200A}'
    || c == '\U{2028}' || c == '\U{2029}' || c == '\U{202F}' || c == '\U{205F}' || c == '\U{3000}'
  }

  /** The character set of `strip('"')`. */
  predicate IsQuote(c: char)
  {
    c == '"'
  }

  /** The length of the longest prefix of `s` made of dropped characters. */
  function LeadingCount(s: string, drop: char -> bool): (n: nat)
    ensures n <= |s|
  {
    if |s| > 0 && drop(s[0]) then 1 + LeadingCount(s[1..], drop) else 0
  }

  /** The length of the longest suffix of `s` made of dropped characters. */
  function TrailingCount(s: string, drop: char -> bool): (n: nat)
    ensures n <= |s|
  {
    if |s| > 0 && drop(s[|s| - 1]) then 1 + TrailingCount(s[..|s| - 1], drop) else 0
  }

  /** The prefix `LeadingCount` measures is dropped, and it is the longest such prefix. */
  lemma {:induction false} LeadingCountIsLongest(s: string, drop: char -> bool)
    ensures forall i :: 0 <= i < LeadingCount(s, drop) ==> drop(s[i])
    ensures LeadingCount(s, drop) < |s| ==> !drop(s[LeadingCount(s, drop)])
  {
    if |s| > 0 && drop(s[0]) {
      var t := s[1..];
      LeadingCountIsLongest(t, drop);
      forall i | 1 <= i < LeadingCount(s, drop)
        ensures drop(s[i])
      {
        assert s[i] == t[i - 1];
      }
      if LeadingCount(s, drop) < |s| {
        assert s[LeadingCount(s, drop)] == t[LeadingCount(t, drop)];
      }
    }
  }

  /** The suffix `TrailingCount` measures is dropped, and it is the longest such suffix. */
  lemma {:induction false} TrailingCountIsLongest(s: string, drop: char -> bool)
    ensures forall i :: |s| - TrailingCount(s, drop) <= i < |s| ==> drop(s[i])
    ensures TrailingCount(s, drop) < |s| ==> !drop(s[|s| - 1 - TrailingCount(s, drop)])
  {
    if |s| > 0 && drop(s[|s| - 1]) {
      var t := s[..|s| - 1];
      TrailingCountIsLongest(t, drop);
      forall i | |s| - TrailingCount(s, drop) <= i < |s| - 1
        ensures drop(s[i])
      {
        assert s[i] == t[i];
      }
      if TrailingCount(s, drop) < |s| {
        assert s[|s| - 1 - TrailingCount(s, drop)] == t[|t| - 1 - TrailingCount(t, drop)];
      }
    }
  }

  /** Python's `s.strip(chars)`: drops the longest prefix and suffix of dropped characters. */
  function Trim(s: string, drop: char -> bool): (r: string)
    ensures |r| <= |s|
  {
    var t := s[LeadingCount(s, drop)..];
    t[..|t| - TrailingCount(t, drop)]
  }

  /**
   * What `Trim` means, independently of how it is computed: the result is the slice of `s` that
   * starts at the first kept character, everything outside it is dropped, and it neither starts
   * nor ends with a dropped character. These facts determine the result.
   */
  lemma TrimCharacterized(s: string, drop: char -> bool)
    ensures var a, r := LeadingCount(s, drop), Trim(s, drop);
            && a + |r| <= |s|
            && r == s[a..a + |r|]
            && (forall i :: 0 <= i < |s| && !(a <= i < a + |r|) ==> drop(s[i]))
            && (|r| > 0 ==> !drop(r[0]) && !drop(r[|r| - 1]))
  {
    TrimIsSlice(s, drop);
    TrimCutsDropped(s, drop);
    TrimEndsKept(s, drop);
  }

  lemma TrimIsSlice(s: string, drop: char -> bool)
    ensures LeadingCount(s, drop) + |Trim(s, drop)| <= |s|
    ensures Trim(s, drop) == s[LeadingCount(s, drop)..LeadingCount(s, drop) + |Trim(s, drop)|]
  {
  }

  lemma TrimCutsDropped(s: string, drop: char -> bool)
    ensures forall i :: 0 <= i < |s| && !(LeadingCount(s, drop) <= i < LeadingCount(s, drop) + |Trim(s, drop)|) ==> drop(s[i])
  {
    var a := LeadingCount(s, drop);
    var t := s[a..];
    var b := TrailingCount(t, drop);
    assert Trim(s, drop) == t[..|t| - b];
    LeadingCountIsLongest(s, drop);
    TrailingCountIsLongest(t, drop);
    forall i | 0 <= i < |s| && !(a <= i < a + |t| - b)
      ensures drop(s[i])
    {
      if a <= i {
        assert |t| - b <= i - a < |t|;
        assert s[i] == t[i - a];
      }
    }
  }

  lemma TrimEndsKept(s: string, drop: char -> bool)
    ensures |Trim(s, drop)| > 0 ==> !drop(Trim(s, drop)[0]) && !drop(Trim(s, drop)[|Trim(s, drop)| - 1])
  {
    var a := LeadingCount(s, drop);
    var t := s[a..];
    var b := TrailingCount(t, drop);
    var r := t[..|t| - b];
    assert r == Trim(s, drop);
    if |r| > 0 {
      LeadingCountIsLongest(s, drop);
      TrailingCountIsLongest(t, drop);
      assert r[0] == s[a];
      assert r[|r| - 1] == t[|t| - 1 - b];
    }
  }

  /** Python's `s.strip()`. */
  function Strip(s: string): (r: string)
    ensures |r| <= |s|
    ensures r != [] ==> !IsSpace(r[0]) && !IsSpace(r[|r| - 1])
  {
    TrimEndsKept(s, IsSpace);
    Trim(s, IsSpace)
  }

  /** Python's `s[:n]` (for strings and lists alike). */
  function Take<T>(s: seq<T>, n: nat): (r: seq<T>)
    ensures r <= s
    ensures |r| == if |s| <= n then |s| else n
  {
    if |s| <= n then s else s[..n]
  }

  /** Python's `s.startswith(p)`. */
  predicate StartsWith(s: string, p: string)
  {
    p <= s
  }

  /** Python's `s.endswith(p)`. */
  predicate EndsWith(s: string, p: string): (b: bool)
    ensures b <==> |p| <= |s| && s == s[..|s| - |p|] + p
  {
    |p| <= |s| && s[|s| - |p|..] == p
  }

  /** Python's `s.replace(old, new, 1)`: replaces the first occurrence of `old`, if any. */
  function ReplaceFirst(s: string, pattern: string, replacement: string): (r: string)
    ensures StartsWith(s, pattern) ==> r == replacement + s[|pattern|..]
    ensures |s| < |pattern| ==> r == s
    decreases |s|
  {
    if StartsWith(s, pattern) then replacement + s[|pattern|..]
    else if |s| <= |pattern| then s
    else [s[0]] + ReplaceFirst(s[1..], pattern, replacement)
  }

  /** Python's `s.split(sep)` for a one-character separator. */
  function Split(s: string, sep: char): (pieces: seq<string>)
    ensures |pieces| > 0
  {
    if s == [] then [[]]
    else
      var rest := Split(s[1..], sep);
      if s[0] == sep then [[]] + rest
      else [[s[0]] + rest[0]] + rest[1..]
  }

  /** There is one piece more than there are separators, and no piece holds a separator. */
  lemma {:induction false} SplitPieces(s: string, sep: char)
    ensures |Split(s, sep)| == multiset(s)[sep] + 1
    ensures forall i :: 0 <= i < |Split(s, sep)| ==> sep !in Split(s, sep)[i]
  {
    if s != [] {
      var rest := Split(s[1..], sep);
      SplitPieces(s[1..], sep);
      assert s == [s[0]] + s[1..];
      assert multiset(s)[sep] == multiset(s[1..])[sep] + if s[0] == sep then 1 else 0;
      if s[0] != sep {
        var pieces := Split(s, sep);
        assert pieces == [[s[0]] + rest[0]] + rest[1..];
        forall i | 0 <= i < |pieces|
          ensures sep !in pieces[i]
        {
          if i > 0 {
            assert pieces[i] == rest[i];
          }
        }
      }
    }
  }

  /** Python's `sep.join(pieces)`, for a non-empty list of pieces. */
  function Join(pieces: seq<string>, sep: char): string
    requires |pieces| > 0
  {
    if |pieces| == 1 then pieces[0] else pieces[0] + [sep] + Join(pieces[1..], sep)
  }

  /** Joining a first piece onto a non-empty list puts one separator between them. */
  lemma JoinCons(p: string, rest: seq<string>, sep: char)
    requires |rest| > 0
    ensures Join([p] + rest, sep) == p + [sep] + Join(rest, sep)
  {
    assert ([p] + rest)[1..] == rest;
  }

  /** A character put in front of the first piece ends up in front of the joined string. */
  lemma {:induction false} JoinPrepend(c: char, rest: seq<string>, sep: char)
    requires |rest| > 0
    ensures Join([[c] + rest[0]] + rest[1..], sep) == [c] + Join(rest, sep)
  {
    if |rest| > 1 {
      JoinCons([c] + rest[0], rest[1..], sep);
      JoinCons(rest[0], rest[1..], sep);
      assert [rest[0]] + rest[1..] == rest;
    }
  }

  /** Splitting loses nothing: joining the pieces back with the separator gives the input. */
  lemma {:induction false} JoinSplit(s: string, sep: char)
    ensures Join(Split(s, sep), sep) == s
  {
    if s != [] {
      var rest := Split(s[1..], sep);
      JoinSplit(s[1..], sep);
      assert s == [s[0]] + s[1..];
      if s[0] == sep {
        assert Split(s, sep) == [[]] + rest;
        JoinCons([], rest, sep);
        assert [] + [sep] == [s[0]];
      } else {
        assert Split(s, sep) == [[s[0]] + rest[0]] + rest[1..];
        JoinPrepend(s[0], rest, sep);
      }
    }
  }

  /** Python's `str.upper()` on one character, for the Latin-1 range; other characters are kept. */
  function UpperChar(c: char): string
  {
    if 'a' <= c <= 'z' || '\U{E0}' <= c <= '\U{F6}' || '\U{F8}' <= c <= '\U{FE}' then [(c as int - 32) as char]
    else if c == '\U{B5}' then ['\U{39C}']
    else if c == '\U{DF}' then "SS"
    else if c == '\U{FF}' then ['\U{178}']
    else [c]
  }

  /** Python's `s.upper()`: each character is replaced by its upper-case form, which for 'ß' is "SS". */
  function Upper(s: string): (r: string)
    ensures |r| >= |s|
    ensures r == [] <==> s == []
  {
    if s == [] then [] else UpperChar(s[0]) + Upper(s[1..])
  }

  lemma {:induction false} UpperAppend(a: string, b: string)
    ensures Upper(a + b) == Upper(a) + Upper(b)
  {
    if a != [] {
      assert (a + b)[0] == a[0];
      assert (a + b)[1..] == a[1..] + b;
      UpperAppend(a[1..], b);
      calc {
        Upper(a + b);
        UpperChar(a[0]) + Upper(a[1..] + b);
        UpperChar(a[0]) + (Upper(a[1..]) + Upper(b));
        (UpperChar(a[0]) + Upper(a[1..])) + Upper(b);
      }
    } else {
      assert a + b == b;
    }
  }

  /** Upper-casing lengthens a string by one character per 'ß' and otherwise keeps its length. */
  lemma {:induction false} UpperLength(s: string)
    ensures |Upper(s)| == |s| + multiset(s)['\U{DF}']
  {
    if s != [] {
      assert s == [s[0]] + s[1..];
      UpperLength(s[1..]);
    }
  }

  /** Upper-casing an upper-cased string changes nothing. */
  lemma {:induction false} UpperIdempotent(s: string)
    ensures Upper(Upper(s)) == Upper(s)
  {
    if s != [] {
      UpperAppend(UpperChar(s[0]), Upper(s[1..]));
      UpperIdempotent(s[1..]);
      UpperCharStable(s[0]);
    }
  }

  /** The upper-case form of a character is its own upper case. */
  lemma UpperCharStable(c: char)
    ensures Upper(UpperChar(c)) == UpperChar(c)
  {
    var u := UpperChar(c);
    assert Upper(u) == UpperChar(u[0]) + Upper(u[1..]);
    if |u| == 2 {
      assert Upper(u[1..]) == UpperChar(u[1]) + Upper(u[2..]);
    }
  }

  /** Python's `str.lower()` on one character, for the Latin-1 range; other characters are kept. */
  function LowerChar(c: char): char
  {
    if 'A' <= c <= 'Z' || '\U{C0}' <= c <= '\U{D6}' || '\U{D8}' <= c <= '\U{DE}' then (c as int + 32) as char
    else c
  }

  /** Python's `s.lower()`. */
  function Lower(s: string): (r: string)
    ensures |r| == |s|
    ensures forall i :: 0 <= i < |r| ==> LowerChar(r[i]) == r[i]
  {
    seq(|s|, i requires 0 <= i < |s| => LowerChar(s[i]))
  }

  function DigitChar(d: nat): char
    requires d < 10
  {
    ('0' as int + d) as char
  }

  /** Python's `str(n)` for a non-negative integer: decimal digits, no leading zero. */
  function NatToString(n: nat): (s: string)
    ensures |s| > 0
    ensures forall i :: 0 <= i < |s| ==> '0' <= s[i] <= '9'
    ensures (s[0] == '0') == (n == 0)
    ensures |s| > 1 ==> s[0] != '0'
  {
    if n < 10 then [DigitChar(n)] else NatToString(n / 10) + [DigitChar(n % 10)]
  }

  /** Python's `str(n)` for any integer. */
  function IntToString(n: int): (s: string)
    ensures |s| > 0
  {
    if n < 0 then "-" + NatToString(-n) else NatToString(n)
  }

  /** The value of a decimal digit character (0 for any other character). */
  function DigitValue(c: char): (d: nat)
    ensures d < 10
    ensures '0' <= c <= '9' ==> DigitChar(d) == c
  {
    if '0' <= c <= '9' then c as int - '0' as int else 0
  }

  /** The number that the decimal digits `s` denote, most significant first. */
  function DigitsValue(s: string): nat
  {
    if s == [] then 0 else DigitsValue(s[..|s| - 1]) * 10 + DigitValue(s[|s| - 1])
  }

  /** `str(n)` spells `n`: its digits denote `n` again. */
  lemma {:induction false} NatToStringValue(n: nat)
    ensures DigitsValue(NatToString(n)) == n
  {
    var s := NatToString(n);
    if n < 10 {
      assert s[..0] == [];
    } else {
      var high := NatToString(n / 10);
      NatToStringValue(n / 10);
      assert s == high + [DigitChar(n % 10)];
      assert s[..|s| - 1] == high;
    }
  }

  /** `str(n)` of a negative `n` is a minus sign and the digits of `-n`; otherwise the digits of `n`. */
  lemma IntToStringValue(n: int)
    ensures (IntToString(n)[0] == '-') <==> n < 0
    ensures n < 0 ==> DigitsValue(IntToString(n)[1..]) == -n
    ensures n >= 0 ==> DigitsValue(IntToString(n)) == n
  {
    if n < 0 {
      NatToStringValue(-n);
      assert IntToString(n)[1..] == NatToString(-n);
    } else {
      NatToStringValue(n);
    }
  }
}
