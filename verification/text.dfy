/** String operations of the JavaScript runtime that the application uses, restricted to
    ASCII: case mapping, whitespace trimming, `includes`, `split`/`join` and the decimal
    rendering of numbers inside template literals. */
module Text {
  import opened Common

  /** The ASCII characters matched by `\s` and stripped by `trim`. */
  predicate IsSpace(c: char) {
    c == ' ' || '\t' <= c <= '\r'
  }

  predicate IsDigit(c: char) {
    '0' <= c <= '9'
  }

  function LowerChar(c: char): (r: char)
    ensures 'A' <= c <= 'Z' ==> r as int == c as int + 32
    ensures !('A' <= c <= 'Z') ==> r == c
  {
    if 'A' <= c <= 'Z' then (c as int + 32) as char else c
  }

  function UpperChar(c: char): (r: char)
    ensures 'a' <= c <= 'z' ==> r as int == c as int - 32
    ensures !('a' <= c <= 'z') ==> r == c
  {
    if 'a' <= c <= 'z' then (c as int - 32) as char else c
  }

  /** `toLowerCase` on ASCII text. */
  function Lower(s: string): (r: string)
    ensures |r| == |s|
    ensures forall i :: 0 <= i < |s| ==> r[i] == LowerChar(s[i])
  {
    seq(|s|, i requires 0 <= i < |s| => LowerChar(s[i]))
  }

  /** `toUpperCase` on ASCII text. */
  function Upper(s: string): (r: string)
    ensures |r| == |s|
    ensures forall i :: 0 <= i < |s| ==> r[i] == UpperChar(s[i])
  {
    seq(|s|, i requires 0 <= i < |s| => UpperChar(s[i]))
  }

  /** `trimEnd`: the longest prefix that does not end in whitespace; only whitespace is dropped. */
  function TrimEnd(s: string): (r: string)
    ensures r <= s
    ensures |r| == 0 || !IsSpace(r[|r| - 1])
    ensures forall i :: |r| <= i < |s| ==> IsSpace(s[i])
    decreases |s|
  {
    if |s| > 0 && IsSpace(s[|s| - 1]) then TrimEnd(s[..|s| - 1]) else s
  }

  /** `trimStart`: the longest suffix that does not start with whitespace. */
  function TrimStart(s: string): (r: string)
    ensures |r| <= |s| && r == s[|s| - |r|..]
    ensures |r| == 0 || !IsSpace(r[0])
    ensures forall i :: 0 <= i < |s| - |r| ==> IsSpace(s[i])
    decreases |s|
  {
    if |s| > 0 && IsSpace(s[0]) then
      var r := TrimStart(s[1..]);
      assert s[1..][|s| - 1 - |r|..] == s[|s| - |r|..];
      assert forall i :: 1 <= i < |s| - |r| ==> s[i] == s[1..][i - 1];
      r
    else s
  }

  /** `trim`: whitespace removed at both ends. */
  function Trim(s: string): (r: string)
    ensures |r| <= |s|
    ensures |r| == 0 || (!IsSpace(r[0]) && !IsSpace(r[|r| - 1]))
    ensures |r| == 0 <==> forall i :: 0 <= i < |s| ==> IsSpace(s[i])
  {
    TrimFacts(s);
    TrimStart(TrimEnd(s))
  }

  lemma TrimFacts(s: string)
    ensures var r := TrimStart(TrimEnd(s));
            && (|r| == 0 || (!IsSpace(r[0]) && !IsSpace(r[|r| - 1])))
            && (|r| == 0 <==> forall i :: 0 <= i < |s| ==> IsSpace(s[i]))
  {
    var e := TrimEnd(s);
    var r := TrimStart(e);
    if |r| > 0 {
      assert r[|r| - 1] == e[|e| - 1];
    } else {
      assert |e| == 0;
    }
  }

  /** `hay.includes(needle)`: `needle` occurs as a contiguous block of `hay`. */
  predicate Includes(hay: string, needle: string)
    decreases |hay|
  {
    needle <= hay || (|hay| > 0 && Includes(hay[1..], needle))
  }

  /** `Includes` means "occurs at some offset". */
  lemma {:induction false} IncludesAt(hay: string, needle: string, k: nat)
    requires k + |needle| <= |hay| && hay[k..k + |needle|] == needle
    ensures Includes(hay, needle)
    decreases k
  {
    if k > 0 {
      assert hay[1..][k - 1..k - 1 + |needle|] == hay[k..k + |needle|];
      IncludesAt(hay[1..], needle, k - 1);
    }
  }

  /** `parts.join(sep)` for a single-character separator. */
  function Join(parts: seq<string>, sep: char): string
    requires |parts| >= 1
    decreases |parts|
  {
    if |parts| == 1 then parts[0] else parts[0] + [sep] + Join(parts[1..], sep)
  }

  /** `s.split(sep)` for a single-character separator: never empty, no part contains the
      separator, and joining the parts back gives `s`. */
  function Split(s: string, sep: char): (r: seq<string>)
    ensures |r| >= 1
    ensures forall i :: 0 <= i < |r| ==> sep !in r[i]
    ensures Join(r, sep) == s
    decreases |s|
  {
    if |s| == 0 then [""]
    else if s[0] == sep then
      var t := Split(s[1..], sep);
      assert s == [sep] + Join(t, sep);
      [""] + t
    else
      var t := Split(s[1..], sep);
      var r := [[s[0]] + t[0]] + t[1..];
      assert r[1..] == t[1..];
      assert Join(r, sep) == [s[0]] + Join(t, sep);
      r
  }

  /** `split` undoes `join` when no part contains the separator. */
  lemma {:induction false} SplitJoin(parts: seq<string>, sep: char)
    requires |parts| >= 1
    requires forall i :: 0 <= i < |parts| ==> sep !in parts[i]
    ensures Split(Join(parts, sep), sep) == parts
    decreases |parts|, |parts[0]|
  {
    var p := parts[0];
    if |p| == 0 {
      if |parts| > 1 {
        var rest := Join(parts[1..], sep);
        assert Join(parts, sep) == [sep] + rest;
        SplitJoin(parts[1..], sep);
        SplitAtSep(rest, sep);
        assert [""] + parts[1..] == parts;
      }
    } else {
      var parts' := [p[1..]] + parts[1..];
      assert parts'[1..] == parts[1..];
      assert sep !in p[1..] by {
        assert forall x :: x in p[1..] ==> x in p;
      }
      SplitJoin(parts', sep);
      JoinFirstChar(parts, sep);
      assert p[0] != sep by { assert p[0] in p; }
      SplitAtChar(p[0], Join(parts', sep), sep);
      assert [[p[0]] + p[1..]] + parts[1..] == parts by {
        assert [p[0]] + p[1..] == p;
      }
    }
  }

  lemma SplitAtSep(rest: string, sep: char)
    ensures Split([sep] + rest, sep) == [""] + Split(rest, sep)
  {
    assert ([sep] + rest)[1..] == rest;
  }

  lemma SplitAtChar(c: char, rest: string, sep: char)
    requires c != sep
    ensures Split([c] + rest, sep) == [[c] + Split(rest, sep)[0]] + Split(rest, sep)[1..]
  {
    assert ([c] + rest)[1..] == rest;
  }

  /** Joining parts whose first part is not empty starts with that part's first character. */
  lemma JoinFirstChar(parts: seq<string>, sep: char)
    requires |parts| >= 1 && |parts[0]| > 0
    ensures Join(parts, sep) == [parts[0][0]] + Join([parts[0][1..]] + parts[1..], sep)
  {
    var p := parts[0];
    var parts' := [p[1..]] + parts[1..];
    assert parts'[1..] == parts[1..];
    assert p == [p[0]] + p[1..];
    if |parts| > 1 {
      assert p + [sep] + Join(parts[1..], sep) == [p[0]] + (p[1..] + [sep] + Join(parts[1..], sep));
    }
  }

  /** The element at position 1 of `s.split(sep)`, `undefined` (None) if there is none. */
  function SecondField(s: string, sep: char): (r: Option<string>)
    ensures r.Some? <==> sep in s
  {
    var parts := Split(s, sep);
    if |parts| >= 2 then Some(parts[1])
    else
      assert Join(parts, sep) == parts[0];
      None
  }

  /** The field read from a `type:id` call cid: joining fields that do not contain the
      separator and reading the second one gives that field back, and with fewer than two
      fields there is none. */
  lemma SecondFieldOfJoin(parts: seq<string>, sep: char)
    requires |parts| >= 1
    requires forall i :: 0 <= i < |parts| ==> sep !in parts[i]
    ensures SecondField(Join(parts, sep), sep) == if |parts| >= 2 then Some(parts[1]) else None
  {
    SplitJoin(parts, sep);
  }

  function DigitChar(d: nat): (c: char)
    requires d < 10
    ensures IsDigit(c)
  {
    ('0' as int + d) as char
  }

  /** A natural number in decimal, as a template literal renders it. */
  function NatToString(n: nat): (r: string)
    ensures |r| >= 1
    ensures forall i :: 0 <= i < |r| ==> IsDigit(r[i])
    decreases n
  {
    if n < 10 then [DigitChar(n)] else NatToString(n / 10) + [DigitChar(n % 10)]
  }

  /** An integer as a template literal renders it (a minus sign for negatives). */
  function IntToString(n: int): (r: string)
    ensures n >= 0 ==> r == NatToString(n)
    ensures n < 0 ==> r == "-" + NatToString(-n)
  {
    if n < 0 then "-" + NatToString(-n) else NatToString(n)
  }

  /** The value of a string of decimal digits. */
  function DigitsValue(s: string): nat
    requires forall i :: 0 <= i < |s| ==> IsDigit(s[i])
    decreases |s|
  {
    if |s| == 0 then 0
    else
      assert IsDigit(s[|s| - 1]);
      DigitsValue(s[..|s| - 1]) * 10 + (s[|s| - 1] as int - '0' as int)
  }

  /** Reads back a non-empty string of decimal digits. */
  function ParseNat(s: string): Option<nat> {
    if |s| > 0 && forall i :: 0 <= i < |s| ==> IsDigit(s[i]) then Some(DigitsValue(s)) else None
  }

  /** Decimal rendering is read back exactly. */
  lemma {:induction false} ParseNatToString(n: nat)
    ensures ParseNat(NatToString(n)) == Some(n)
    decreases n
  {
    var s := NatToString(n);
    if n < 10 {
      assert s[..|s| - 1] == [];
      assert s[|s| - 1] as int - '0' as int == n;
      assert DigitsValue(s[..|s| - 1]) == 0;
      assert DigitsValue(s) == n;
    } else {
      ParseNatToString(n / 10);
      assert s[..|s| - 1] == NatToString(n / 10);
      assert s[|s| - 1] as int - '0' as int == n % 10;
    }
  }

  /** Reads back an integer as `IntToString` renders it: digits, after a minus sign only
      for a negative number. */
  function ParseInt(s: string): Option<int> {
    if |s| > 0 && s[0] == '-' then
      match ParseNat(s[1..])
      case Some(n) => if n > 0 then Some(-(n as int)) else None
      case None => None
    else
      match ParseNat(s)
      case Some(n) => Some(n as int)
      case None => None
  }

  /** Integer rendering is read back exactly, negative numbers included. */
  lemma ParseIntToString(n: int)
    ensures ParseInt(IntToString(n)) == Some(n)
  {
    var s := IntToString(n);
    if n < 0 {
      assert s[1..] == NatToString(-n);
      ParseNatToString(-n);
    } else {
      assert IsDigit(s[0]);
      ParseNatToString(n);
    }
  }

  /** No whitespace at either end. */
  predicate Trimmed(s: string) {
    |s| == 0 || (!IsSpace(s[0]) && !IsSpace(s[|s| - 1]))
  }

  /** `trim` leaves text without surrounding whitespace untouched; in particular it is
      idempotent. */
  lemma TrimOfTrimmed(s: string)
    requires Trimmed(s)
    ensures Trim(s) == s
  {
    assert TrimEnd(s) == s;
    assert TrimStart(s) == s;
  }

  /** Every prefix of a needle that occurs in `hay` occurs in `hay` too. */
  lemma {:induction false} IncludesPrefix(hay: string, a: string, b: string)
    requires Includes(hay, a + b)
    ensures Includes(hay, a)
    decreases |hay|
  {
    if !(a + b <= hay) {
      IncludesPrefix(hay[1..], a, b);
    } else {
      assert a <= hay by { assert forall i :: 0 <= i < |a| ==> a[i] == (a + b)[i]; }
    }
  }

  lemma LowerUpperChar(c: char)
    ensures LowerChar(UpperChar(c)) == LowerChar(c)
    ensures IsSpace(UpperChar(c)) <==> IsSpace(c)
  {
  }

  /** Upper-casing commutes with trimming, since no letter is whitespace. */
  lemma {:induction false} TrimEndUpper(s: string)
    ensures TrimEnd(Upper(s)) == Upper(TrimEnd(s))
    decreases |s|
  {
    if |s| > 0 {
      LowerUpperChar(s[|s| - 1]);
      assert Upper(s)[..|s| - 1] == Upper(s[..|s| - 1]);
      TrimEndUpper(s[..|s| - 1]);
    }
  }

  lemma {:induction false} TrimStartUpper(s: string)
    ensures TrimStart(Upper(s)) == Upper(TrimStart(s))
    decreases |s|
  {
    if |s| > 0 {
      LowerUpperChar(s[0]);
      assert Upper(s)[1..] == Upper(s[1..]);
      TrimStartUpper(s[1..]);
    }
  }

  /** The case-folded trimmed text does not depend on the case the user typed. */
  lemma LowerTrimUpper(s: string)
    ensures Lower(Trim(Upper(s))) == Lower(Trim(s))
  {
    TrimEndUpper(s);
    TrimStartUpper(TrimEnd(s));
    var t := Trim(s);
    assert Trim(Upper(s)) == Upper(t);
    LowerUpper(t);
  }

  lemma LowerUpper(t: string)
    ensures Lower(Upper(t)) == Lower(t)
  {
    forall i | 0 <= i < |t| ensures Lower(Upper(t))[i] == Lower(t)[i] {
      LowerUpperChar(t[i]);
    }
  }
}
