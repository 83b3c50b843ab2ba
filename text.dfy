/** The Python string operations the core relies on (`strip`, `split`, `join`,
    `in`, `startswith`, `replace`, `lower`, `isdigit`, `int`, `float`), written
    out over `seq<char>`. Whitespace is Python's full `str.isspace` set; for digits
    and letter case these definitions use the ASCII part of Python's tables. */
module Text {
  import opened Wrappers

  // ---------------------------------------------------------------- strip

  /** The characters for which `str.isspace` holds, and which `str.strip()` removes:
      the ASCII controls and space, NEL, no-break space, Ogham space mark, the
      typographic spaces U+2000 to U+200A, the line and paragraph separators,
      narrow no-break space, medium mathematical space and ideographic space. */
  const Whitespace: set<char> :=
    {' ', '\t', '\n', '\U{B}', '\U{C}', '\r', '\U{1C}', '\U{1D}', '\U{1E}', '\U{1F}',
     '\U{85}', '\U{A0}', '\U{1680}',
     '\U{2000}', '\U{2001}', '\U{2002}', '\U{2003}', '\U{2004}', '\U{2005}',
     '\U{2006}', '\U{2007}', '\U{2008}', '\U{2009}', '\U{200A}',
     '\U{2028}', '\U{2029}', '\U{202F}', '\U{205F}', '\U{3000}'}

  predicate AllIn(s: string, chars: set<char>) {
    forall i :: 0 <= i < |s| ==> s[i] in chars
  }

  /** `s.lstrip(chars)`: the longest suffix of `s` that does not start with one of `chars`. */
  function StripLeft(s: string, chars: set<char>): (r: string)
    ensures |r| <= |s| && r == s[|s| - |r|..]
    ensures AllIn(s[..|s| - |r|], chars)
    ensures r == [] || r[0] !in chars
  {
    if s != [] && s[0] in chars then
      var r := StripLeft(s[1..], chars);
      assert s[1..][..|s| - 1 - |r|] == s[1..|s| - |r|];
      r
    else s
  }

  /** `s.rstrip(chars)`: the longest prefix of `s` that does not end with one of `chars`. */
  function StripRight(s: string, chars: set<char>): (r: string)
    ensures |r| <= |s| && r == s[..|r|]
    ensures AllIn(s[|r|..], chars)
    ensures r == [] || r[|r| - 1] !in chars
  {
    if s != [] && s[|s| - 1] in chars then
      var r := StripRight(s[..|s| - 1], chars);
      assert s[..|s| - 1][|r|..] == s[|r|..|s| - 1];
      r
    else s
  }

  /** Neither end of `s` is one of `chars`. */
  predicate StrippedOf(s: string, chars: set<char>) {
    s == [] || (s[0] !in chars && s[|s| - 1] !in chars)
  }

  /** `s.strip(chars)`: `s` with every leading and trailing character from `chars`
      removed; neither end of what is left is in `chars`. */
  function StripChars(s: string, chars: set<char>): (r: string)
    ensures StrippedOf(r, chars)
  {
    StripRight(StripLeft(s, chars), chars)
  }

  /** What `StripChars` keeps is an infix of `s` between a prefix and a suffix made
      of `chars` only. */
  lemma {:induction false} StripInfix(s: string, chars: set<char>)
    ensures var r := StripChars(s, chars);
            exists i :: 0 <= i <= |s| - |r| && r == s[i..i + |r|]
                        && AllIn(s[..i], chars) && AllIn(s[i + |r|..], chars)
  {
    var l := StripLeft(s, chars);
    var r := StripRight(l, chars);
    var i := |s| - |l|;
    assert r == s[i..i + |r|];
    assert s[i + |r|..] == l[|r|..];
  }

  /** `s.strip()` */
  function Strip(s: string): string {
    StripChars(s, Whitespace)
  }

  predicate IsStripped(s: string) {
    StrippedOf(s, Whitespace)
  }

  /** Stripping a string whose ends are already kept changes nothing. */
  lemma {:induction false} StripKeepsStripped(s: string, chars: set<char>)
    requires StrippedOf(s, chars)
    ensures StripChars(s, chars) == s
  {
    assert StripLeft(s, chars) == s;
    assert StripRight(s, chars) == s;
  }

  /** `strip` gives the empty string exactly for all-whitespace input. */
  lemma {:induction false} StripEmptyIffAllSpace(s: string, chars: set<char>)
    ensures StripChars(s, chars) == [] <==> AllIn(s, chars)
  {
    var l := StripLeft(s, chars);
    var r := StripRight(l, chars);
    var i := |s| - |l|;
    if r == [] {
      assert AllIn(l[|r|..], chars) && l[|r|..] == l;
      assert |l| == 0;
      assert s[..i] == s;
    } else {
      assert s[i] == r[0];
    }
  }

  // ---------------------------------------------------------------- search

  /** `sub` occurs in `s` starting at index `i`. */
  predicate OccursAt(s: string, sub: string, i: int) {
    0 <= i && i + |sub| <= |s| && s[i..i + |sub|] == sub
  }

  /** `sub in s` */
  predicate Contains(s: string, sub: string) {
    exists i | 0 <= i <= |s| - |sub| :: OccursAt(s, sub, i)
  }

  /** `s.startswith(p)` */
  predicate StartsWith(s: string, p: string) {
    |p| <= |s| && s[..|p|] == p
  }

  /** A string that contains `sub` contains every infix of `sub`. */
  lemma {:induction false} ContainsInfix(s: string, sub: string, i: nat, j: nat)
    requires i <= j <= |sub| && Contains(s, sub)
    ensures Contains(s, sub[i..j])
  {
    var k :| 0 <= k <= |s| - |sub| && OccursAt(s, sub, k);
    forall m | 0 <= m < j - i ensures s[k + i..k + j][m] == sub[i..j][m] {
      assert s[k + i + m] == s[k..k + |sub|][i + m];
    }
    assert OccursAt(s, sub[i..j], k + i);
  }

  /** ASCII `c.lower()` */
  function LowerChar(c: char): char {
    if 'A' <= c <= 'Z' then (c as int - 'A' as int + 'a' as int) as char else c
  }

  /** ASCII `s.lower()` */
  function Lower(s: string): (r: string)
    ensures |r| == |s| && forall i :: 0 <= i < |s| ==> r[i] == LowerChar(s[i])
  {
    seq(|s|, i requires 0 <= i < |s| => LowerChar(s[i]))
  }

  /** A case-insensitive substring test (`re.search(sub, s, re.I)` for a literal `sub`). */
  predicate ContainsIgnoreCase(s: string, sub: string) {
    Contains(Lower(s), Lower(sub))
  }

  /** The characters of an occurrence are those of the pattern. */
  lemma {:induction false} OccursAtIndex(s: string, sub: string, k: int, i: int)
    ensures OccursAt(s, sub, k) && 0 <= i < |sub| ==> sub[i] == s[k + i]
  {
    if OccursAt(s, sub, k) && 0 <= i < |sub| {
      assert s[k..k + |sub|][i] == s[k + i];
    }
  }

  /** A space-free pattern matches two texts joined by a space exactly when it
      matches one of them: no occurrence can straddle the space. */
  lemma {:induction false} ContainsJoined(a: string, b: string, sub: string)
    requires ' ' !in sub
    ensures Contains(a + " " + b, sub) <==> Contains(a, sub) || Contains(b, sub)
  {
    var s := a + " " + b;
    assert s[|a| + 1..] == b;
    if Contains(s, sub) {
      var k :| 0 <= k <= |s| - |sub| && OccursAt(s, sub, k);
      if k + |sub| <= |a| {
        assert a[k..k + |sub|] == s[k..k + |sub|];
        assert OccursAt(a, sub, k);
      } else if k > |a| {
        assert s[|a| + 1..][k - |a| - 1..k - |a| - 1 + |sub|] == s[k..k + |sub|];
        assert OccursAt(b, sub, k - |a| - 1);
      } else {
        OccursAtIndex(s, sub, k, |a| - k);
        assert false;
      }
    }
    if Contains(a, sub) {
      var k :| 0 <= k <= |a| - |sub| && OccursAt(a, sub, k);
      assert s[k..k + |sub|] == a[k..k + |sub|];
      assert OccursAt(s, sub, k);
    }
    if Contains(b, sub) {
      var k :| 0 <= k <= |b| - |sub| && OccursAt(b, sub, k);
      assert s[|a| + 1..][k..k + |sub|] == s[|a| + 1 + k..|a| + 1 + k + |sub|];
      assert OccursAt(s, sub, |a| + 1 + k);
    }
  }

  /** The same for a case-insensitive match. */
  lemma {:induction false} ContainsIgnoreCaseJoined(a: string, b: string, sub: string)
    requires ' ' !in sub
    ensures ContainsIgnoreCase(a + " " + b, sub) <==> ContainsIgnoreCase(a, sub) || ContainsIgnoreCase(b, sub)
  {
    assert Lower(a + " " + b) == Lower(a) + " " + Lower(b);
    assert ' ' !in Lower(sub) by {
      forall i | 0 <= i < |sub| ensures Lower(sub)[i] != ' ' {
        assert sub[i] != ' ';
      }
    }
    ContainsJoined(Lower(a), Lower(b), Lower(sub));
  }

  /** A text that matches a pattern case-insensitively matches every infix of it. */
  lemma {:induction false} ContainsIgnoreCaseInfix(s: string, sub: string, i: nat, j: nat)
    requires i <= j <= |sub| && ContainsIgnoreCase(s, sub)
    ensures ContainsIgnoreCase(s, sub[i..j])
  {
    ContainsInfix(Lower(s), Lower(sub), i, j);
    assert Lower(sub)[i..j] == Lower(sub[i..j]);
  }

  // ---------------------------------------------------------------- split and join

  /** `s.split(sep)` for a one-character separator: never empty, and an empty piece
      stands on each side of every separator. */
  function Split(s: string, sep: char): (r: seq<string>)
    ensures |r| >= 1
    ensures forall k :: 0 <= k < |r| ==> sep !in r[k]
  {
    if s == [] then [""]
    else if s[0] == sep then [""] + Split(s[1..], sep)
    else
      var rest := Split(s[1..], sep);
      [[s[0]] + rest[0]] + rest[1..]
  }

  /** `sep.join(parts)` */
  function Join(parts: seq<string>, sep: string): string {
    if |parts| == 0 then ""
    else if |parts| == 1 then parts[0]
    else parts[0] + sep + Join(parts[1..], sep)
  }

  /** Splitting and joining back with the same separator gives the original string. */
  lemma {:induction false} JoinSplit(s: string, sep: char)
    ensures Join(Split(s, sep), [sep]) == s
  {
    if s != [] {
      var rest := Split(s[1..], sep);
      JoinSplit(s[1..], sep);
      if s[0] == sep {
        assert ([""] + rest)[1..] == rest;
        assert Join([""] + rest, [sep]) == "" + [sep] + Join(rest, [sep]);
      } else {
        JoinExtendFirst(s[0], rest, [sep]);
      }
      assert s == [s[0]] + s[1..];
    }
  }

  /** Putting a character in front of the first piece puts it in front of the join. */
  lemma JoinExtendFirst(c: char, parts: seq<string>, sep: string)
    requires |parts| >= 1
    ensures Join([[c] + parts[0]] + parts[1..], sep) == [c] + Join(parts, sep)
  {
    var ext := [[c] + parts[0]] + parts[1..];
    if |parts| > 1 {
      assert ext[1..] == parts[1..];
      assert Join(ext, sep) == ([c] + parts[0]) + sep + Join(parts[1..], sep);
      assert [c] + (parts[0] + sep + Join(parts[1..], sep))
             == ([c] + parts[0]) + sep + Join(parts[1..], sep);
    }
  }

  /** Joining pieces that hold no separator and splitting again gives the pieces back. */
  lemma {:induction false} SplitJoin(parts: seq<string>, sep: char)
    requires |parts| >= 1
    requires forall k :: 0 <= k < |parts| ==> sep !in parts[k]
    ensures Split(Join(parts, [sep]), sep) == parts
  {
    if |parts| == 1 {
      NoSeparatorOnePiece(parts[0], sep);
    } else {
      SplitJoin(parts[1..], sep);
      SplitAppend(parts[0], Join(parts[1..], [sep]), sep);
      NoSeparatorOnePiece(parts[0], sep);
      assert parts == [parts[0]] + parts[1..];
    }
  }

  /** A separator splits the string into the pieces on its left followed by the
      pieces on its right. */
  lemma {:induction false} SplitAppend(a: string, b: string, sep: char)
    requires sep !in a
    ensures Split(a + [sep] + b, sep) == Split(a, sep) + Split(b, sep)
  {
    if a == [] {
      assert [sep] + b == a + [sep] + b;
      assert ([sep] + b)[1..] == b;
    } else {
      assert (a + [sep] + b)[1..] == a[1..] + [sep] + b;
      SplitAppend(a[1..], b, sep);
    }
  }

  /** The last piece of `s.split(sep)` is the text after the last separator: a suffix
      of `s` without `sep`, preceded in `s` by `sep` unless it is all of `s`. */
  lemma {:induction false} LastPiece(s: string, sep: char)
    ensures var p := Split(s, sep)[|Split(s, sep)| - 1];
            |p| <= |s| && p == s[|s| - |p|..] && sep !in p
            && (|p| < |s| ==> s[|s| - |p| - 1] == sep)
  {
    if s != [] {
      LastPiece(s[1..], sep);
      var rest := Split(s[1..], sep);
      var p := rest[|rest| - 1];
      if p == s[1..] {
        NoSeparatorOnePiece(s[1..], sep);
        assert rest == [s[1..]];
        if s[0] != sep {
          assert Split(s, sep) == [[s[0]] + s[1..]];
          assert [s[0]] + s[1..] == s;
        }
      } else {
        assert |p| < |s| - 1;
        assert s[1..][|s| - 1 - |p| - 1] == sep;
        if s[0] != sep {
          assert |rest| > 1 by {
            if |rest| == 1 { JoinSplit(s[1..], sep); }
          }
        }
      }
    }
  }

  // ---------------------------------------------------------------- replace

  /** `s.replace(' ', '%20')` */
  function EncodeSpaces(s: string): (r: string)
    ensures ' ' !in r
    ensures |r| >= |s|
  {
    if s == [] then ""
    else (if s[0] == ' ' then "%20" else [s[0]]) + EncodeSpaces(s[1..])
  }

  /** `s.replace('%20', ' ')` */
  function DecodeSpaces(s: string): string {
    if |s| >= 3 && s[..3] == "%20" then " " + DecodeSpaces(s[3..])
    else if s == [] then ""
    else [s[0]] + DecodeSpaces(s[1..])
  }

  /** Replacing spaces loses nothing when the query holds no '%': decoding gives it back. */
  lemma {:induction false} DecodeEncodeSpaces(s: string)
    requires '%' !in s
    ensures DecodeSpaces(EncodeSpaces(s)) == s
  {
    if s != [] {
      DecodeEncodeSpaces(s[1..]);
      var tail := EncodeSpaces(s[1..]);
      if s[0] == ' ' {
        assert EncodeSpaces(s) == "%20" + tail;
        assert ("%20" + tail)[..3] == "%20" && ("%20" + tail)[3..] == tail;
      } else {
        assert EncodeSpaces(s) == [s[0]] + tail;
        assert ([s[0]] + tail)[1..] == tail;
      }
    }
  }

  /** A query without spaces is used unchanged. */
  lemma {:induction false} EncodeWithoutSpaces(s: string)
    requires ' ' !in s
    ensures EncodeSpaces(s) == s
  {
    if s != [] {
      EncodeWithoutSpaces(s[1..]);
      assert s == [s[0]] + s[1..];
    }
  }

  // ---------------------------------------------------------------- digits and numbers

  predicate IsDigit(c: char) {
    '0' <= c <= '9'
  }

  /** ASCII `s.isdigit()`: false for the empty string. */
  predicate IsDigits(s: string) {
    s != [] && forall i :: 0 <= i < |s| ==> IsDigit(s[i])
  }

  /** The number that a run of decimal digits denotes. */
  function DigitsValue(s: string): (n: nat)
    requires forall i :: 0 <= i < |s| ==> IsDigit(s[i])
  {
    if s == [] then 0
    else
      assert IsDigit(s[|s| - 1]);
      DigitsValue(s[..|s| - 1]) * 10 + (s[|s| - 1] as int - '0' as int)
  }

  function Pow10(n: nat): (p: nat)
    ensures p >= 1
  {
    if n == 0 then 1 else 10 * Pow10(n - 1)
  }

  /** `int(s)` on a plain decimal literal: surrounding whitespace, an optional sign,
      then one or more digits. None where Python raises ValueError. */
  function ParseInt(s: string): (r: Option<int>)
    ensures r.Some? ==> exists i :: 0 <= i < |Strip(s)| && IsDigit(Strip(s)[i])
  {
    SignedInt(Strip(s))
  }

  /** An optional sign, then one or more digits. */
  function SignedInt(t: string): (r: Option<int>)
    ensures r.Some? ==> exists i :: 0 <= i < |t| && IsDigit(t[i])
  {
    var neg := t != [] && t[0] == '-';
    var body := if t != [] && (t[0] == '-' || t[0] == '+') then t[1..] else t;
    if IsDigits(body) then
      assert IsDigit(t[|t| - 1]) by { assert t[|t| - 1] == body[|body| - 1]; }
      var v: int := DigitsValue(body);
      Some(if neg then -v else v)
    else None
  }

  /** `float(s)` on a plain decimal literal: surrounding whitespace, an optional sign,
      digits with at most one '.', at least one digit. Exponents and the names
      `inf`/`nan` are not part of this model. */
  function ParseFloat(s: string): (r: Option<real>)
    ensures ParseInt(s).Some? ==> r == Some(ParseInt(s).value as real)
  {
    if ParseInt(s).Some? then Some(ParseInt(s).value as real)
    else SignedDecimal(Strip(s))
  }

  /** An optional sign, then digits around exactly one '.', with at least one digit. */
  function SignedDecimal(t: string): Option<real> {
    var neg := t != [] && t[0] == '-';
    var body := if t != [] && (t[0] == '-' || t[0] == '+') then t[1..] else t;
    var pieces := Split(body, '.');
    if |pieces| == 2 && |pieces[0]| + |pieces[1]| >= 1
       && (pieces[0] == [] || IsDigits(pieces[0])) && (pieces[1] == [] || IsDigits(pieces[1])) then
      var v := DigitsValue(pieces[0]) as real + DigitsValue(pieces[1]) as real / Pow10(|pieces[1]|) as real;
      Some(if neg then -v else v)
    else None
  }

  /** `str(n)` for a natural number: its decimal digits, without leading zeros. */
  function DigitsOf(n: nat): (s: string)
    ensures IsDigits(s) && DigitsValue(s) == n
    decreases n
  {
    var d := [('0' as int + n % 10) as char];
    if n < 10 then d
    else
      var init := DigitsOf(n / 10);
      assert (init + d)[..|init + d| - 1] == init;
      init + d
  }

  /** `str(n)` for an integer. */
  function DecimalOf(n: int): string {
    if n < 0 then "-" + DigitsOf(-n) else DigitsOf(n)
  }

  /** Surrounding whitespace is exactly what `strip` removes: a string whose ends
      are not whitespace comes back unchanged from any padding. */
  lemma {:induction false} StripPadded(a: string, x: string, b: string)
    requires AllIn(a, Whitespace) && AllIn(b, Whitespace) && IsStripped(x)
    ensures Strip(a + x + b) == x
  {
    if x == [] {
      assert a + x + b == a + b;
      assert AllIn(a + b, Whitespace) by {
        forall i | 0 <= i < |a + b| ensures (a + b)[i] in Whitespace {
          if i >= |a| { assert (a + b)[i] == b[i - |a|]; }
        }
      }
      StripEmptyIffAllSpace(a + b, Whitespace);
    } else {
      assert a + x + b == a + (x + b);
      StripLeftPadded(a, x + b);
      StripRightPadded(x, b);
    }
  }

  lemma {:induction false} StripLeftPadded(a: string, y: string)
    requires AllIn(a, Whitespace) && (y == [] || y[0] !in Whitespace)
    ensures StripLeft(a + y, Whitespace) == y
  {
    if a != [] {
      assert (a + y)[0] == a[0] && a[0] in Whitespace;
      assert (a + y)[1..] == a[1..] + y;
      StripLeftPadded(a[1..], y);
    }
  }

  lemma {:induction false} StripRightPadded(x: string, b: string)
    requires AllIn(b, Whitespace) && (x == [] || x[|x| - 1] !in Whitespace)
    ensures StripRight(x + b, Whitespace) == x
  {
    if b != [] {
      assert (x + b)[..|x + b| - 1] == x + b[..|b| - 1];
      StripRightPadded(x, b[..|b| - 1]);
    }
  }

  /** What `int(s)` returns: `s` without its surrounding whitespace must be a run of
      digits, optionally after one sign, and the value is that run's, negated after
      a minus. */
  lemma ParseIntValue(s: string, v: int)
    ensures ParseInt(s) == Some(v) <==>
              exists d | IsDigits(d) ::
                ((Strip(s) == d || Strip(s) == "+" + d) && v == DigitsValue(d))
                || (Strip(s) == "-" + d && v == -(DigitsValue(d) as int))
  {
    if ParseInt(s) == Some(v) {
      ParsedIntHasDigits(s, v);
    } else {
      forall d | IsDigits(d)
        ensures !(((Strip(s) == d || Strip(s) == "+" + d) && v == DigitsValue(d))
                  || (Strip(s) == "-" + d && v == -(DigitsValue(d) as int)))
      {
        if ((Strip(s) == d || Strip(s) == "+" + d) && v == DigitsValue(d))
           || (Strip(s) == "-" + d && v == -(DigitsValue(d) as int)) {
          DigitsParse(s, v, d);
        }
      }
    }
  }

  lemma ParsedIntHasDigits(s: string, v: int)
    requires ParseInt(s) == Some(v)
    ensures exists d | IsDigits(d) ::
              ((Strip(s) == d || Strip(s) == "+" + d) && v == DigitsValue(d))
              || (Strip(s) == "-" + d && v == -(DigitsValue(d) as int))
  {
    SignedIntHasDigits(Strip(s), v);
  }

  lemma DigitsParse(s: string, v: int, d: string)
    requires IsDigits(d)
    requires ((Strip(s) == d || Strip(s) == "+" + d) && v == DigitsValue(d))
             || (Strip(s) == "-" + d && v == -(DigitsValue(d) as int))
    ensures ParseInt(s) == Some(v)
  {
    DigitsSignedInt(Strip(s), v, d);
  }

  lemma {:induction false} SignedIntHasDigits(t: string, v: int)
    requires SignedInt(t) == Some(v)
    ensures exists d | IsDigits(d) ::
              ((t == d || t == "+" + d) && v == DigitsValue(d))
              || (t == "-" + d && v == -(DigitsValue(d) as int))
  {
    var body := if t[0] == '-' || t[0] == '+' then t[1..] else t;
    assert IsDigits(body);
    if t[0] == '-' {
      assert t == "-" + body;
    } else if t[0] == '+' {
      assert t == "+" + body;
    } else {
      assert t == body;
    }
  }

  lemma {:induction false} DigitsSignedInt(t: string, v: int, d: string)
    requires IsDigits(d)
    requires ((t == d || t == "+" + d) && v == DigitsValue(d))
             || (t == "-" + d && v == -(DigitsValue(d) as int))
    ensures SignedInt(t) == Some(v)
  {
    if t == d {
      assert IsDigit(t[0]);
    } else {
      assert t[1..] == d;
    }
  }

  /** `int(str(n)) == n`, also with whitespace around the numeral. */
  lemma {:induction false} ParseIntDecimal(n: int, a: string, b: string)
    requires AllIn(a, Whitespace) && AllIn(b, Whitespace)
    ensures ParseInt(a + DecimalOf(n) + b) == Some(n)
  {
    var x := DecimalOf(n);
    var d := DigitsOf(if n < 0 then -n else n);
    assert IsDigit(d[0]) && IsDigit(d[|d| - 1]);
    StripPadded(a, x, b);
    if n < 0 {
      ParseIntValue(a + x + b, n);
    } else {
      ParseIntValue(a + x + b, n);
    }
  }

  /** What `float(s)` returns for a literal with a point: the digits before it plus
      the digits after it scaled down by their count, negated after a minus. */
  lemma {:induction false} ParseFloatDecimal(a: string, b: string)
    requires (a == [] || IsDigits(a)) && (b == [] || IsDigits(b)) && |a| + |b| >= 1
    ensures var v := DigitsValue(a) as real + DigitsValue(b) as real / Pow10(|b|) as real;
            ParseFloat(a + "." + b) == Some(v) && ParseFloat("-" + a + "." + b) == Some(-v)
  {
    PointLiteral(a, b, a + "." + b);
    PointLiteral(a, b, "-" + a + "." + b);
  }

  /** `float(str(n)) == n` for every integer `n`, also with whitespace around the
      numeral. */
  lemma ParseFloatInteger(n: int, a: string, b: string)
    requires AllIn(a, Whitespace) && AllIn(b, Whitespace)
    ensures ParseFloat(a + DecimalOf(n) + b) == Some(n as real)
  {
    ParseIntDecimal(n, a, b);
  }

  /** A literal with a point splits at it into the digits on either side. */
  lemma {:induction false} PointSplit(a: string, b: string)
    requires (a == [] || IsDigits(a)) && (b == [] || IsDigits(b))
    ensures Split(a + "." + b, '.') == [a, b]
  {
    assert '.' !in a && '.' !in b;
    NoSeparatorOnePiece(a, '.');
    NoSeparatorOnePiece(b, '.');
    SplitAppend(a, b, '.');
    assert a + ['.'] + b == a + "." + b;
  }

  /** A literal with a point, after an optional minus, is already stripped and is no
      integer literal, so `float` reads it as a decimal. */
  lemma {:induction false} PointLiteral(a: string, b: string, q: string)
    requires (a == [] || IsDigits(a)) && (b == [] || IsDigits(b)) && |a| + |b| >= 1
    requires q == a + "." + b || q == "-" + a + "." + b
    ensures var v := DigitsValue(a) as real + DigitsValue(b) as real / Pow10(|b|) as real;
            ParseFloat(q) == Some(if q[0] == '-' then -v else v)
  {
    PointNotInt(a, b, q);
    PointValue(a, b, q);
  }

  lemma {:induction false} PointNotInt(a: string, b: string, q: string)
    requires (a == [] || IsDigits(a)) && (b == [] || IsDigits(b)) && |a| + |b| >= 1
    requires q == a + "." + b || q == "-" + a + "." + b
    ensures ParseFloat(q) == SignedDecimal(q)
  {
    PointStripped(a, b, q);
    PointNotSignedInt(a, b, q);
  }

  /** The literal is no integer literal: its digits are broken by the point. */
  lemma {:induction false} PointNotSignedInt(a: string, b: string, q: string)
    requires (a == [] || IsDigits(a)) && (b == [] || IsDigits(b))
    requires q == a + "." + b || q == "-" + a + "." + b
    ensures SignedInt(q).None?
  {
    PointBody(a, b, q);
    var p := a + "." + b;
    assert p[|a|] == '.';
    assert !IsDigit(p[|a|]);
  }

  /** The literal after its optional minus is the digits around the point. */
  lemma {:induction false} PointBody(a: string, b: string, q: string)
    requires (a == [] || IsDigits(a)) && (b == [] || IsDigits(b))
    requires q == a + "." + b || q == "-" + a + "." + b
    ensures q != [] && (if q[0] == '-' || q[0] == '+' then q[1..] else q) == a + "." + b
  {
    var p := a + "." + b;
    if q == p {
      if a != [] {
        assert q[0] == a[0] && IsDigit(a[0]);
      } else {
        assert q[0] == '.';
      }
    } else {
      assert q[0] == '-' && q[1..] == p;
    }
  }

  /** The literal neither starts nor ends with whitespace. */
  lemma {:induction false} PointStripped(a: string, b: string, q: string)
    requires (a == [] || IsDigits(a)) && (b == [] || IsDigits(b))
    requires q == a + "." + b || q == "-" + a + "." + b
    ensures Strip(q) == q
  {
    var p := a + "." + b;
    assert q[0] == '-' || q[0] == '.' || IsDigit(q[0]) by {
      if q == p && a != [] {
        assert q[0] == a[0] && IsDigit(a[0]);
      }
    }
    assert q[|q| - 1] == '.' || IsDigit(q[|q| - 1]) by {
      if b != [] {
        assert q[|q| - 1] == b[|b| - 1] && IsDigit(b[|b| - 1]);
      }
    }
    StripKeepsStripped(q, Whitespace);
  }

  lemma {:induction false} PointValue(a: string, b: string, q: string)
    requires (a == [] || IsDigits(a)) && (b == [] || IsDigits(b)) && |a| + |b| >= 1
    requires q == a + "." + b || q == "-" + a + "." + b
    ensures var v := DigitsValue(a) as real + DigitsValue(b) as real / Pow10(|b|) as real;
            SignedDecimal(q) == Some(if q[0] == '-' then -v else v)
  {
    var p := a + "." + b;
    PointSplit(a, b);
    if q == p {
      if a != [] { assert q[0] == a[0] && IsDigit(a[0]); } else { assert q[0] == '.'; }
    } else {
      assert q[0] == '-' && q[1..] == p;
    }
  }

  /** A string without the separator splits into itself alone. */
  lemma {:induction false} NoSeparatorOnePiece(s: string, sep: char)
    requires sep !in s
    ensures Split(s, sep) == [s]
  {
    if s != [] {
      NoSeparatorOnePiece(s[1..], sep);
      assert [s[0]] + s[1..] == s;
    }
  }
}
