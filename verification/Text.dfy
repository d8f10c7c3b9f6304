/** Decimal numerals and SQL REPLACE. */
module Text {

  // ----- Decimal numerals (%d) ------------------------------------------------------

  predicate IsDigit(c: char) {
    '0' <= c <= '9'
  }

  predicate AllDigits(s: string) {
    forall i | 0 <= i < |s| :: IsDigit(s[i])
  }

  predicate Number(s: string) {
    s != "" && AllDigits(s)
  }

  function DigitChar(d: nat): char
    requires d < 10
  {
    ('0' as int + d) as char
  }

  function DigitValue(c: char): nat
    requires IsDigit(c)
  {
    c as int - '0' as int
  }

  function Decimal(n: nat): (s: string)
    ensures |s| > 0 && AllDigits(s)
    ensures s[0] == '0' <==> n == 0
    ensures n == 0 ==> s == "0"
  {
    if n < 10 then [DigitChar(n)] else Decimal(n / 10) + [DigitChar(n % 10)]
  }

  /** %d of any integer. */
  function Printed(n: int): string {
    if n < 0 then "-" + Decimal(-n) else Decimal(n)
  }

  function Numeral(s: string): nat
    requires AllDigits(s)
  {
    if s == "" then 0 else 10 * Numeral(s[..|s| - 1]) + DigitValue(s[|s| - 1])
  }

  /** Reading back a printed number gives the number. */
  lemma {:induction false} NumeralOfDecimal(n: nat)
    ensures Numeral(Decimal(n)) == n
  {
    var s := Decimal(n);
    if n < 10 {
      assert s[..|s| - 1] == "";
    } else {
      assert s[..|s| - 1] == Decimal(n / 10);
      NumeralOfDecimal(n / 10);
    }
  }

  /** The longest prefix of digits, and what follows it. */
  function Span(s: string): (r: (string, string))
    ensures r.0 + r.1 == s && AllDigits(r.0) && (r.1 != "" ==> !IsDigit(r.1[0]))
  {
    if s == "" || !IsDigit(s[0]) then ("", s)
    else
      var (digits, rest) := Span(s[1..]);
      ([s[0]] + digits, rest)
  }

  lemma {:induction false} SpanOf(digits: string, rest: string)
    requires AllDigits(digits) && (rest != "" ==> !IsDigit(rest[0]))
    ensures Span(digits + rest) == (digits, rest)
  {
    if digits == "" {
      assert digits + rest == rest;
    } else {
      assert (digits + rest)[1..] == digits[1..] + rest;
      SpanOf(digits[1..], rest);
      assert [digits[0]] + digits[1..] == digits;
    }
  }

  // ----- cut -d'|' -f3 --------------------------------------------------------------

  /** The parts of s between the separators. */
  function Parts(s: string, sep: char): (r: seq<string>)
    ensures |r| > 0
    ensures |r| > 1 <==> sep in s
  {
    if s == "" then [""]
    else
      var rest := Parts(s[1..], sep);
      if s[0] == sep then [""] + rest else [[s[0]] + rest[0]] + rest[1..]
  }

  lemma {:induction false} PartsOfWhole(s: string, sep: char)
    requires sep !in s
    ensures Parts(s, sep) == [s]
  {
    if s != "" {
      PartsOfWhole(s[1..], sep);
      assert [s[0]] + s[1..] == s;
    }
  }

  lemma {:induction false} PartsOfTwo(a: string, b: string, sep: char)
    requires sep !in a
    ensures Parts(a + [sep] + b, sep) == [a] + Parts(b, sep)
  {
    var s := a + [sep] + b;
    if a == "" {
      assert s[1..] == b;
    } else {
      assert s[1..] == a[1..] + [sep] + b;
      PartsOfTwo(a[1..], b, sep);
      assert [a[0]] + a[1..] == a;
    }
  }

  lemma PartsStep(c: char, s: string, sep: char)
    ensures Parts([c] + s, sep)
      == if c == sep then [""] + Parts(s, sep) else [[c] + Parts(s, sep)[0]] + Parts(s, sep)[1..]
  {
    assert ([c] + s)[1..] == s;
  }

  lemma Grouped(x: string, rest: seq<string>, more: seq<string>)
    requires |rest| > 0
    ensures [x] + (rest + more) == ([x] + rest) + more
    ensures [x] + (rest + more)[1..] == ([x] + rest[1..]) + more
  {
  }

  lemma {:induction false} PartsOfJoined(a: string, b: string, sep: char)
    ensures Parts(a + [sep] + b, sep) == Parts(a, sep) + Parts(b, sep)
  {
    hide Parts;
    if a == "" {
      PartsStep(sep, b, sep);
      PartsOfWhole("", sep);
      assert a + [sep] + b == [sep] + b;
    } else {
      var c, tail := a[0], a[1..];
      var rest := Parts(tail, sep);
      PartsOfJoined(tail, b, sep);
      PartsStep(c, tail + [sep] + b, sep);
      PartsStep(c, tail, sep);
      assert a == [c] + tail && a + [sep] + b == [c] + (tail + [sep] + b);
      Grouped(if c == sep then "" else [c] + rest[0], rest, Parts(b, sep));
    }
  }

  /** Text without a separator stays together at the front. */
  lemma {:induction false} FirstPart(a: string, b: string, sep: char)
    requires sep !in a
    ensures a <= Parts(a + b, sep)[0]
  {
    if a != "" {
      assert (a + b)[1..] == a[1..] + b;
      FirstPart(a[1..], b, sep);
      assert a == [a[0]] + a[1..];
    }
  }

  /** One line of cut: part k, empty when there are too few, and the whole line when it has no separator. */
  function CutLine(line: string, sep: char, k: nat): string {
    var parts := Parts(line, sep);
    if |parts| == 1 then line else if k < |parts| then parts[k] else ""
  }

  function CutLines(lines: seq<string>, sep: char, k: nat): string {
    if lines == [] then "" else CutLine(lines[0], sep, k) + "\n" + CutLines(lines[1..], sep, k)
  }

  /** A command substitution drops the line breaks at the end. */
  function WithoutLastBreaks(s: string): string {
    if s != "" && s[|s| - 1] == '\n' then WithoutLastBreaks(s[..|s| - 1]) else s
  }

  /** $(echo "$text" | cut -d sep -f (k + 1)) */
  function Cut(text: string, sep: char, k: nat): string {
    WithoutLastBreaks(CutLines(Parts(text, '\n'), sep, k))
  }

  /** Of a text of one line it is the part of that line. */
  lemma CutOneLine(text: string, sep: char, k: nat)
    requires '\n' !in text && '\n' !in CutLine(text, sep, k)
    ensures Cut(text, sep, k) == CutLine(text, sep, k)
  {
    PartsOfWhole(text, '\n');
    var part := CutLine(text, sep, k);
    var printed := part + "\n";
    assert CutLines([text], sep, k) == printed + "" == printed;
    assert printed[|printed| - 1] == '\n' && printed[..|printed| - 1] == part;
    assert part != "" ==> part[|part| - 1] in part;
    assert WithoutLastBreaks(printed) == WithoutLastBreaks(part);
  }

  // ----- REPLACE(s, t, '') ----------------------------------------------------------

  predicate OccursAt(s: string, t: string, i: int) {
    0 <= i && i + |t| <= |s| && s[i..i + |t|] == t
  }

  ghost predicate Contains(s: string, t: string) {
    exists i :: OccursAt(s, t, i)
  }

  /** No proper prefix of t is also a suffix of t. */
  ghost predicate Unbordered(t: string) {
    forall l | 0 < l < |t| :: t[..l] != t[|t| - l..]
  }

  /** Drop the leftmost occurrence of t, and go on behind it. */
  function Remove(s: string, t: string): (r: string)
    requires |t| > 0
    ensures |r| <= |s|
    decreases |s|
  {
    if |s| < |t| then s
    else if s[..|t|] == t then Remove(s[|t|..], t)
    else [s[0]] + Remove(s[1..], t)
  }

  lemma ContainsInTail(s: string, t: string)
    requires |s| > 0 && Contains(s, t) && !OccursAt(s, t, 0)
    ensures Contains(s[1..], t)
  {
    var i :| OccursAt(s, t, i);
    assert s[1..][i - 1..i - 1 + |t|] == t;
    assert OccursAt(s[1..], t, i - 1);
  }

  lemma OccursInTail(s: string, t: string, k: nat, i: int)
    requires k <= |s| && OccursAt(s[k..], t, i)
    ensures OccursAt(s, t, k + i)
  {
    assert s[k..][i..i + |t|] == s[k + i..k + i + |t|];
  }

  lemma OverlapIsBorder(name: string, t: string, i: int)
    requires OccursAt(name + t, t, i) && i < |name| < i + |t|
    ensures var l := i + |t| - |name|; 0 < l < |t| && t[..l] == t[|t| - l..]
  {
    var s := name + t;
    var l := i + |t| - |name|;
    assert t[..l] == s[|name|..i + |t|] == s[i..i + |t|][|t| - l..];
  }

  /** An occurrence of an unbordered t in name + t is inside name or is the appended one. */
  lemma OccurrenceInsideOrLast(name: string, t: string, i: int)
    requires Unbordered(t) && OccursAt(name + t, t, i)
    ensures i == |name| || OccursAt(name, t, i)
  {
    var s := name + t;
    if i + |t| <= |name| {
      assert s[i..i + |t|] == name[i..i + |t|];
    } else if i < |name| {
      OverlapIsBorder(name, t, i);
      assert false;
    }
  }

  /** REPLACE takes an appended unbordered text off again, when it does not occur in the name. */
  lemma {:induction false} RemoveAppended(name: string, t: string)
    requires |t| > 0 && Unbordered(t) && !Contains(name, t)
    ensures Remove(name + t, t) == name
    decreases |name|
  {
    var s := name + t;
    if name == "" {
      assert s == t;
      assert s[..|t|] == t && s[|t|..] == "";
    } else {
      if s[..|t|] == t {
        assert OccursAt(s, t, 0);
        OccurrenceInsideOrLast(name, t, 0);
        assert false;
      }
      if Contains(name[1..], t) {
        var i :| OccursAt(name[1..], t, i);
        OccursInTail(name, t, 1, i);
        assert false;
      }
      RemoveAppended(name[1..], t);
      assert s[1..] == name[1..] + t;
      assert name == [name[0]] + name[1..];
    }
  }

  /** Every occurrence is dropped: text that contains t in the part before the end loses it too. */
  lemma {:induction false} RemoveTakesInner(name: string, t: string)
    requires |t| > 0 && Contains(name, t)
    ensures |Remove(name + t, t)| <= |name| - |t|
    decreases |name|
  {
    var s := name + t;
    if s[..|t|] == t {
      var i :| OccursAt(name, t, i);
      assert s[|t|..] == name[|t|..] + t;
      RemoveShortens(name[|t|..], t);
    } else {
      assert |t| <= |name| ==> s[..|t|] == name[0..0 + |t|];
      ContainsInTail(name, t);
      RemoveTakesInner(name[1..], t);
      assert s[1..] == name[1..] + t;
    }
  }

  /** What is left of name + t is no longer than the name. */
  lemma {:induction false} RemoveShortens(name: string, t: string)
    requires |t| > 0
    ensures |Remove(name + t, t)| <= |name|
    decreases |name|
  {
    var s := name + t;
    if s[..|t|] == t {
    } else {
      assert name == "" ==> s == t;
      RemoveShortens(name[1..], t);
      assert s[1..] == name[1..] + t;
    }
  }

  /** Exactly the names that do not contain an unbordered t survive "append t, then REPLACE t". */
  lemma RemoveUndoesAppendIff(name: string, t: string)
    requires |t| > 0 && Unbordered(t)
    ensures Remove(name + t, t) == name <==> !Contains(name, t)
  {
    if Contains(name, t) {
      RemoveTakesInner(name, t);
    } else {
      RemoveAppended(name, t);
    }
  }
}
