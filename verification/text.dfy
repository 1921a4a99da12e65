/** The Python string operations the service relies on, over Dafny strings. */
module Text {

  /** Python's str.isspace(): exactly the characters str.strip() removes. */
  predicate IsSpace(c: char) {
    var n := c as int;
    || 0x09 <= n <= 0x0D
    || 0x1C <= n <= 0x20
    || n == 0x85 || n == 0xA0 || n == 0x1680
    || 0x2000 <= n <= 0x200A
    || n == 0x2028 || n == 0x2029 || n == 0x202F || n == 0x205F || n == 0x3000
  }

  predicate AllSpace(s: string) {
    forall i :: 0 <= i < |s| ==> IsSpace(s[i])
  }

  /** Drops the leading whitespace. */
  function TrimStart(s: string): (r: string)
    ensures |r| <= |s| && r == s[|s| - |r|..]
    ensures r == [] || !IsSpace(r[0])
    ensures AllSpace(s[..|s| - |r|])
  {
    if s != [] && IsSpace(s[0]) then
      var r := TrimStart(s[1..]);
      assert s[..|s| - |r|] == [s[0]] + s[1..][..|s| - 1 - |r|];
      r
    else s
  }

  /** Drops the trailing whitespace. */
  function TrimEnd(s: string): (r: string)
    ensures |r| <= |s| && r == s[..|r|]
    ensures r == [] || !IsSpace(r[|r| - 1])
    ensures AllSpace(s[|r|..])
  {
    if s != [] && IsSpace(s[|s| - 1]) then
      var r := TrimEnd(s[..|s| - 1]);
      assert s[|r|..] == s[..|s| - 1][|r|..] + [s[|s| - 1]];
      r
    else s
  }

  /** `s` is `r` with whitespace only before it (the first `i` characters) and after it. */
  predicate SurroundedBySpace(s: string, i: nat, r: string) {
    i + |r| <= |s| && s[i..i + |r|] == r && AllSpace(s[..i]) && AllSpace(s[i + |r|..])
  }

  /** Python's str.strip() with no argument. */
  function Strip(s: string): (r: string)
    ensures |r| <= |s|
    ensures r == [] || (!IsSpace(r[0]) && !IsSpace(r[|r| - 1]))
    ensures r == [] <==> AllSpace(s)
    ensures exists i: nat :: SurroundedBySpace(s, i, r)
  {
    var t := TrimStart(s);
    var u := TrimEnd(t);
    SpaceOnBothSides(s, t, u);
    EmptyExactlyWhenAllSpace(s, t, u);
    assert SurroundedBySpace(s, |s| - |t|, u);
    u
  }

  /** Whitespace cut from the front of `s`, giving `t`, then from the back of `t`,
      giving `u`, surrounds `u` in `s`. */
  lemma SpaceOnBothSides(s: string, t: string, u: string)
    requires |t| <= |s| && t == s[|s| - |t|..] && AllSpace(s[..|s| - |t|])
    requires |u| <= |t| && u == t[..|u|] && AllSpace(t[|u|..])
    ensures SurroundedBySpace(s, |s| - |t|, u)
  {
    var i := |s| - |t|;
    assert s[i + |u|..] == t[|u|..];
  }

  /** What is left after cutting whitespace from both ends is empty exactly when the
      text was all whitespace. */
  lemma {:induction false} EmptyExactlyWhenAllSpace(s: string, t: string, u: string)
    requires |t| <= |s| && t == s[|s| - |t|..] && AllSpace(s[..|s| - |t|]) && (t == [] || !IsSpace(t[0]))
    requires |u| <= |t| && u == t[..|u|] && AllSpace(t[|u|..])
    ensures u == [] <==> AllSpace(s)
  {
    if t != [] {
      assert s[|s| - |t|] == t[0];
      var rest := t[|u|..];
      assert u == [] ==> rest == t;
    } else {
      assert s[..|s| - |t|] == s;
    }
  }

  /** Text with no whitespace at either end is what Strip leaves alone. */
  lemma {:induction false} StripKeeps(s: string)
    requires s == [] || (!IsSpace(s[0]) && !IsSpace(s[|s| - 1]))
    ensures Strip(s) == s
  {
    assert TrimStart(s) == s;
    assert TrimEnd(s) == s;
  }

  /** Strip is idempotent. */
  lemma StripIdempotent(s: string)
    ensures Strip(Strip(s)) == Strip(s)
  {
    StripKeeps(Strip(s));
  }

  predicate StartsWith(s: string, prefix: string) {
    |prefix| <= |s| && s[..|prefix|] == prefix
  }

  predicate EndsWith(s: string, suffix: string) {
    |suffix| <= |s| && s[|s| - |suffix|..] == suffix
  }

  /** Python's `sub in s`. */
  predicate Contains(s: string, sub: string) {
    StartsWith(s, sub) || (s != [] && Contains(s[1..], sub))
  }

  /** Python's str.upper() on one character, for every character whose upper case is
      made of ASCII letters only: a-z, dotless i (U+0131), long s (U+017F), sharp s
      (U+00DF, to "SS") and the Latin ligatures U+FB00-U+FB06 ("FF", "FI", "FL", "FFI",
      "FFL", "ST", "ST"). Every other character is kept as it is: either Python keeps it
      too, or Python's upper case of it holds a character outside ASCII, as the kept
      character is; so whether the upper case of a text equals an ASCII word is exact. */
  function UpperChar(c: char): string {
    var n := c as int;
    if 'a' <= c <= 'z' then [(n - 32) as char]
    else if n == 0x131 then "I"
    else if n == 0x17F then "S"
    else if n == 0xDF then "SS"
    else if n == 0xFB00 then "FF"
    else if n == 0xFB01 then "FI"
    else if n == 0xFB02 then "FL"
    else if n == 0xFB03 then "FFI"
    else if n == 0xFB04 then "FFL"
    else if n == 0xFB05 || n == 0xFB06 then "ST"
    else [c]
  }

  function Upper(s: string): string {
    if s == [] then [] else UpperChar(s[0]) + Upper(s[1..])
  }

  /** Python's str.lower() on one character, for every character whose lower case holds
      ASCII: A-Z, the Kelvin sign (U+212A, to 'k') and dotted capital I (U+0130, to 'i'
      followed by a combining dot U+0307). Other characters are left as they are. */
  function LowerChar(c: char): string {
    if 'A' <= c <= 'Z' then [(c as int + 32) as char]
    else if c as int == 0x212A then "k"
    else if c as int == 0x130 then ['i', 0x307 as char]
    else [c]
  }

  function Lower(s: string): string {
    if s == [] then [] else LowerChar(s[0]) + Lower(s[1..])
  }

  /** Python's sep.join(parts). */
  function Join(sep: string, parts: seq<string>): string {
    if parts == [] then ""
    else if |parts| == 1 then parts[0]
    else parts[0] + sep + Join(sep, parts[1..])
  }

  function DigitChar(d: nat): char
    requires d < 10
  {
    "0123456789"[d]
  }

  function Digits(n: nat): string {
    if n < 10 then [DigitChar(n)] else Digits(n / 10) + [DigitChar(n % 10)]
  }

  /** Python's str() of an int. */
  function DecimalString(n: int): string {
    if n < 0 then "-" + Digits(-n) else Digits(n)
  }

  // ----- properties of the helpers that the service's contracts rely on -----

  /** Lower distributes over concatenation. */
  lemma {:induction false} LowerAppend(a: string, b: string)
    ensures Lower(a + b) == Lower(a) + Lower(b)
  {
    if a != [] {
      assert (a + b)[0] == a[0] && (a + b)[1..] == a[1..] + b;
      LowerAppend(a[1..], b);
      assert Lower(a + b) == LowerChar(a[0]) + Lower(a[1..] + b);
    } else {
      assert a + b == b;
    }
  }

  /** Text put in front of a text keeps what it contains. */
  lemma {:induction false} ContainsExtend(p: string, t: string, w: string)
    requires Contains(t, w)
    ensures Contains(p + t, w)
  {
    if p == [] {
      assert p + t == t;
    } else {
      assert (p + t)[1..] == p[1..] + t;
      ContainsExtend(p[1..], t, w);
    }
  }

  /** Containment survives lower-casing: if w occurs in s, Lower(w) occurs in Lower(s). */
  lemma {:induction false} LowerKeepsContains(s: string, w: string)
    requires Contains(s, w)
    ensures Contains(Lower(s), Lower(w))
  {
    if StartsWith(s, w) {
      var rest := s[|w|..];
      assert s == w + rest;
      LowerAppend(w, rest);
      assert Lower(s)[..|Lower(w)|] == Lower(w);
    } else {
      assert s != [] && Contains(s[1..], w);
      LowerKeepsContains(s[1..], w);
      ContainsExtend(LowerChar(s[0]), Lower(s[1..]), Lower(w));
    }
  }

  predicate IsAsciiUpper(s: string) {
    forall i :: 0 <= i < |s| ==> 'A' <= s[i] <= 'Z'
  }

  /** Upper distributes over concatenation. */
  lemma {:induction false} UpperAppend(a: string, b: string)
    ensures Upper(a + b) == Upper(a) + Upper(b)
  {
    if a != [] {
      assert (a + b)[0] == a[0] && (a + b)[1..] == a[1..] + b;
      UpperAppend(a[1..], b);
    } else {
      assert a + b == b;
    }
  }

  /** Upper undoes Lower on upper-case ASCII words. */
  lemma {:induction false} UpperOfLower(s: string)
    requires IsAsciiUpper(s)
    ensures Upper(Lower(s)) == s
  {
    if s != [] {
      UpperOfLower(s[1..]);
      var c := LowerChar(s[0]);
      assert Lower(s) == c + Lower(s[1..]);
      UpperAppend(c, Lower(s[1..]));
      assert c == [(s[0] as int + 32) as char];
      assert Upper(c) == UpperChar(c[0]) + Upper([]);
      assert s == [s[0]] + s[1..];
    }
  }

  /** Joining a part in front of a non-empty list adds that part and the separator. */
  lemma JoinCons(sep: string, first: string, parts: seq<string>)
    requires parts != []
    ensures Join(sep, [first] + parts) == first + sep + Join(sep, parts)
  {
    assert ([first] + parts)[1..] == parts;
  }

  /** Eight parts joined are the parts in order, separated by `sep`. */
  lemma JoinEight(sep: string, parts: seq<string>)
    requires |parts| == 8
    ensures Join(sep, parts)
      == parts[0] + sep + parts[1] + sep + parts[2] + sep + parts[3] + sep
         + parts[4] + sep + parts[5] + sep + parts[6] + sep + parts[7]
  {
    var p := parts;
    assert p[7..] == [p[7]];
    var j7 := Join(sep, p[7..]);
    assert j7 == p[7];
    assert p[6..] == [p[6]] + p[7..];
    JoinCons(sep, p[6], p[7..]);
    var j6 := Join(sep, p[6..]);
    assert j6 == p[6] + sep + j7;
    assert p[5..] == [p[5]] + p[6..];
    JoinCons(sep, p[5], p[6..]);
    var j5 := Join(sep, p[5..]);
    assert j5 == p[5] + sep + j6;
    assert p[4..] == [p[4]] + p[5..];
    JoinCons(sep, p[4], p[5..]);
    var j4 := Join(sep, p[4..]);
    assert j4 == p[4] + sep + j5;
    assert p[3..] == [p[3]] + p[4..];
    JoinCons(sep, p[3], p[4..]);
    var j3 := Join(sep, p[3..]);
    assert j3 == p[3] + sep + j4;
    assert p[2..] == [p[2]] + p[3..];
    JoinCons(sep, p[2], p[3..]);
    var j2 := Join(sep, p[2..]);
    assert j2 == p[2] + sep + j3;
    assert p[1..] == [p[1]] + p[2..];
    JoinCons(sep, p[1], p[2..]);
    var j1 := Join(sep, p[1..]);
    assert j1 == p[1] + sep + j2;
    assert p[0..] == [p[0]] + p[1..];
    JoinCons(sep, p[0], p[1..]);
    var j0 := Join(sep, p[0..]);
    assert j0 == p[0] + sep + j1;
    assert p[0..] == p;
  }

  /** Joining after appending one part adds the separator and that part. */
  lemma {:induction false} JoinSnoc(sep: string, parts: seq<string>, last: string)
    requires parts != []
    ensures Join(sep, parts + [last]) == Join(sep, parts) + sep + last
  {
    if |parts| == 1 {
      assert parts + [last] == [parts[0], last];
    } else {
      assert (parts + [last])[1..] == parts[1..] + [last];
      JoinSnoc(sep, parts[1..], last);
    }
  }
}
