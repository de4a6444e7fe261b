/** The Python 2 string operations the profile computation relies on:
    `str.split(sep)` with a one-character separator, its inverse `sep.join`,
    `int(s)` on decimal text and `str(n)` for integers. */
module Text {
  import opened Wrappers

  /** `s.split(c)`: every occurrence of `c` ends a part, so the result has one
      part more than `s` has separators, and empty parts are kept. */
  function Split(s: string, c: char): (parts: seq<string>)
    ensures |parts| >= 1
  {
    if s == [] then [[]]
    else
      var rest := Split(s[1..], c);
      if s[0] == c then [[]] + rest else [[s[0]] + rest[0]] + rest[1..]
  }

  /** `c.join(parts)`. */
  function Join(parts: seq<string>, c: char): string
  {
    if parts == [] then []
    else if |parts| == 1 then parts[0]
    else parts[0] + [c] + Join(parts[1..], c)
  }

  /** No part of a split contains the separator, and joining the parts again
      gives back the original text. */
  lemma {:induction false} SplitJoin(s: string, c: char)
    ensures forall i :: 0 <= i < |Split(s, c)| ==> c !in Split(s, c)[i]
    ensures Join(Split(s, c), c) == s
  {
    if s != [] {
      SplitJoin(s[1..], c);
      var rest := Split(s[1..], c);
      if s[0] == c {
        assert Split(s, c) == [[]] + rest;
        assert Join(Split(s, c), c) == [] + [c] + Join(rest, c);
      } else {
        var parts := Split(s, c);
        assert parts == [[s[0]] + rest[0]] + rest[1..];
        if |rest| == 1 {
          assert Join(parts, c) == [s[0]] + rest[0];
        } else {
          assert Join(rest, c) == rest[0] + [c] + Join(rest[1..], c);
          assert parts[1..] == rest[1..];
          assert Join(parts, c) == [s[0]] + rest[0] + [c] + Join(rest[1..], c);
        }
        assert s == [s[0]] + s[1..];
      }
    }
  }

  lemma {:induction false} SplitNoSeparator(p: string, c: char)
    requires c !in p
    ensures Split(p, c) == [p]
  {
    if p != [] {
      SplitNoSeparator(p[1..], c);
      assert [p[0]] + p[1..] == p;
    }
  }

  lemma {:induction false} SplitAfterPart(p: string, t: string, c: char)
    requires c !in p
    ensures Split(p + [c] + t, c) == [p] + Split(t, c)
  {
    if p == [] {
      assert p + [c] + t == [c] + t;
      assert ([c] + t)[1..] == t;
    } else {
      var s := p + [c] + t;
      assert s[0] == p[0] && s[1..] == p[1..] + [c] + t;
      SplitAfterPart(p[1..], t, c);
      assert [p[0]] + p[1..] == p;
    }
  }

  /** Splitting a join of separator-free parts gives back those parts. */
  lemma {:induction false} JoinSplit(parts: seq<string>, c: char)
    requires |parts| >= 1
    requires forall i :: 0 <= i < |parts| ==> c !in parts[i]
    ensures Split(Join(parts, c), c) == parts
  {
    if |parts| == 1 {
      SplitNoSeparator(parts[0], c);
    } else {
      JoinSplit(parts[1..], c);
      SplitAfterPart(parts[0], Join(parts[1..], c), c);
      assert [parts[0]] + parts[1..] == parts;
    }
  }

  /** Number of occurrences of `c` in `s`. */
  function Occurrences(s: string, c: char): nat
  {
    if s == [] then 0 else (if s[0] == c then 1 else 0) + Occurrences(s[1..], c)
  }

  /** A split has exactly one part more than the text has separators. */
  lemma {:induction false} SplitLength(s: string, c: char)
    ensures |Split(s, c)| == Occurrences(s, c) + 1
  {
    if s != [] {
      SplitLength(s[1..], c);
    }
  }

  /** The characters Python 2.7 treats as whitespace in a unicode string,
      which `int()` skips around the number: the ASCII controls tab to
      carriage return and the file, group, record and unit separators, the
      space, U+0085, the no-break spaces and the Unicode space separators. */
  predicate IsSpace(ch: char)
  {
    if ch <= ' ' then '\t' <= ch <= '\r' || '\U{1C}' <= ch
    else if ch < '\U{1680}' then ch == '\U{85}' || ch == '\U{A0}'
    else WideSpace(ch)
  }

  /** The whitespace characters from U+1680 on. */
  predicate WideSpace(ch: char)
  {
    || ch == '\U{1680}' || ch == '\U{180E}'
    || '\U{2000}' <= ch <= '\U{200A}'
    || ch == '\U{2028}' || ch == '\U{2029}' || ch == '\U{202F}' || ch == '\U{205F}' || ch == '\U{3000}'
  }

  function StripLeft(s: string): string
  {
    if s != [] && IsSpace(s[0]) then StripLeft(s[1..]) else s
  }

  function StripRight(s: string): string
  {
    if s != [] && IsSpace(s[|s| - 1]) then StripRight(s[..|s| - 1]) else s
  }

  function Strip(s: string): string
  {
    StripRight(StripLeft(s))
  }

  predicate IsDigit(ch: char)
  {
    '0' <= ch <= '9'
  }

  predicate AllDigits(s: string)
  {
    forall i :: 0 <= i < |s| ==> IsDigit(s[i])
  }

  /** The value of a string of decimal digits, most significant first
      (leading zeros allowed: "04" is 4). */
  function DigitsValue(s: string): nat
    requires AllDigits(s)
  {
    if s == [] then 0
    else DigitsValue(s[..|s| - 1]) * 10 + (s[|s| - 1] as int - '0' as int)
  }

  /** Python 2 `int(s)`: surrounding whitespace is ignored, then an optional
      sign and at least one decimal digit; anything else raises ValueError. */
  function ParseInt(s: string): Option<int>
  {
    var t := Strip(s);
    if |t| >= 1 && (t[0] == '-' || t[0] == '+') then
      if |t| >= 2 && AllDigits(t[1..]) then
        Some(if t[0] == '-' then 0 - DigitsValue(t[1..]) as int else DigitsValue(t[1..]) as int)
      else None
    else if |t| >= 1 && AllDigits(t) then Some(DigitsValue(t))
    else None
  }

  /** Whitespace around the number, leading zeros and a sign are accepted;
      so is a no-break space, `int(u'\xa04') == 4`. */
  lemma ParseIntAccepts()
    ensures ParseInt(" 04 ") == Some(4) && ParseInt("-3") == Some(-3) && ParseInt("+7") == Some(7)
    ensures ParseInt("\U{A0}4") == Some(4)
  {
    assert StripLeft(" 04 ") == StripLeft("04 ") == "04 ";
    assert StripRight("04 ") == StripRight("04") == "04";
    assert AllDigits("04") && DigitsValue("04") == DigitsValue("0") * 10 + 4 == 4;
    assert StripLeft("\U{A0}4") == StripLeft("4") == "4";
  }

  /** An empty text, a lone sign, trailing letters and inner spaces raise
      ValueError in Python, here `None`. */
  lemma ParseIntRejects()
    ensures ParseInt("") == None && ParseInt("-") == None
    ensures ParseInt("4a") == None && ParseInt("1 2") == None
  {
    assert "4a"[1] == 'a' && !IsDigit('a');
    assert "1 2"[1] == ' ' && !IsDigit(' ');
  }

  function Digit(d: nat): char
    requires d < 10
  {
    ('0' as int + d) as char
  }

  /** Decimal text of a natural number, without leading zeros. */
  function ShowNat(n: nat): (s: string)
    ensures |s| >= 1 && AllDigits(s)
  {
    if n < 10 then [Digit(n)] else ShowNat(n / 10) + [Digit(n % 10)]
  }

  /** Python `str(n)` for an integer. */
  function Show(n: int): string
  {
    if n < 0 then "-" + ShowNat(-n) else ShowNat(n)
  }

  lemma {:induction false} ShowNatValue(n: nat)
    ensures DigitsValue(ShowNat(n)) == n
  {
    if n >= 10 {
      ShowNatValue(n / 10);
      var s := ShowNat(n);
      assert s[..|s| - 1] == ShowNat(n / 10);
    }
  }

  /** `int(str(n)) == n`, and the text of a number contains none of the
      separators and quote characters used around it. */
  lemma ParseShow(n: int)
    ensures ParseInt(Show(n)) == Some(n)
    ensures forall ch :: ch in Show(n) ==> ch == '-' || IsDigit(ch)
  {
    var s := Show(n);
    var d := ShowNat(if n < 0 then -n else n);
    ShowNatValue(if n < 0 then -n else n);
    assert !IsSpace(s[0]) && !IsSpace(s[|s| - 1]);
    assert StripLeft(s) == s;
    assert StripRight(s) == s;
    if n < 0 {
      assert s[1..] == d;
    } else {
      assert s == d;
    }
  }

  /** A character that is neither a digit nor '-' never occurs in a number's
      text. */
  lemma ShowAvoids(n: int, c: char)
    requires c != '-' && !IsDigit(c)
    ensures c !in Show(n)
  {
    ParseShow(n);
  }

  /** A zero-padded two-digit field such as the hour of `HH:MM:SS`. */
  function TwoDigits(n: nat): string
    requires n < 100
  {
    [Digit(n / 10), Digit(n % 10)]
  }

  /** `int()` reads a zero-padded two-digit field back as its number. */
  lemma ParseTwoDigits(n: nat)
    requires n < 100
    ensures ParseInt(TwoDigits(n)) == Some(n)
  {
    var s := TwoDigits(n);
    assert !IsSpace(s[0]) && !IsSpace(s[1]);
    assert StripLeft(s) == s;
    assert StripRight(s) == s;
    assert s[..1][..0] == [];
    assert s[..1] == [Digit(n / 10)];
    assert DigitsValue(s[..1]) == n / 10;
  }
}
