/** String helpers shared by the front end and the back end: the parts of
    JavaScript's and Python's string methods the application relies on.
    Case mapping is ASCII only (see README, "Left out"). */
module Text {

  predicate IsUpper(c: char) { 'A' <= c <= 'Z' }
  predicate IsLower(c: char) { 'a' <= c <= 'z' }
  predicate IsDigit(c: char) { '0' <= c <= '9' }
  predicate IsAlnum(c: char) { IsUpper(c) || IsLower(c) || IsDigit(c) }

  function LowerChar(c: char): char {
    if IsUpper(c) then (c as int - 'A' as int + 'a' as int) as char else c
  }

  function UpperChar(c: char): char {
    if IsLower(c) then (c as int - 'a' as int + 'A' as int) as char else c
  }

  /** `a || b` on strings: the first unless it is empty (falsy). */
  function OrElse(a: string, b: string): (r: string)
    ensures r == a || r == b
    ensures r == "" ==> b == ""
  {
    if a != "" then a else b
  }

  /** `toLowerCase()` / Python `lower()` on ASCII letters. */
  function ToLower(s: string): (r: string)
    ensures |r| == |s|
    ensures forall i :: 0 <= i < |s| ==> r[i] == LowerChar(s[i])
  {
    if s == [] then [] else [LowerChar(s[0])] + ToLower(s[1..])
  }

  /** Lower-casing twice is lower-casing once. */
  lemma ToLowerIdempotent(s: string)
    ensures ToLower(ToLower(s)) == ToLower(s)
  {
    var l := ToLower(s);
    forall i | 0 <= i < |s| ensures ToLower(l)[i] == l[i] {
      assert l[i] == LowerChar(s[i]);
    }
  }

  lemma LowerHasNoUpper(s: string)
    ensures forall i :: 0 <= i < |ToLower(s)| ==> !IsUpper(ToLower(s)[i])
  {
  }

  /** The characters JavaScript's `trim()` removes: tab, the line terminators
      (LF, CR, U+2028, U+2029), vertical tab, form feed, the byte-order mark
      and the space separators (U+0020, U+00A0, U+1680, U+2000 to U+200A,
      U+202F, U+205F, U+3000). */
  predicate IsSpace(c: char) {
    c == ' ' || c == '\t' || c == '\n' || c == '\r' || c == '\U{000B}' || c == '\U{000C}'
    || c == '\U{00A0}' || c == '\U{FEFF}' || c == '\U{1680}' || ('\U{2000}' <= c <= '\U{200A}')
    || c == '\U{2028}' || c == '\U{2029}' || c == '\U{202F}' || c == '\U{205F}' || c == '\U{3000}'
  }

  function TrimStart(s: string): (r: string)
    ensures |r| <= |s| && r == s[|s| - |r|..]
    ensures r == [] || !IsSpace(r[0])
    decreases |s|
  {
    if s != [] && IsSpace(s[0]) then TrimStart(s[1..]) else s
  }

  function TrimEnd(s: string): (r: string)
    ensures |r| <= |s| && r == s[..|r|]
    ensures r == [] || !IsSpace(r[|r| - 1])
    decreases |s|
  {
    if s != [] && IsSpace(s[|s| - 1]) then TrimEnd(s[..|s| - 1]) else s
  }

  /** `trim()`: no leading and no trailing white space. */
  function Trim(s: string): (r: string)
    ensures |r| <= |s|
    ensures r == [] || (!IsSpace(r[0]) && !IsSpace(r[|r| - 1]))
  {
    TrimEnd(TrimStart(s))
  }

  /** Lower-casing (ASCII only) never creates or removes white space, so it
      commutes with each half of `trim()`. */
  lemma {:induction false} TrimStartLower(s: string)
    ensures TrimStart(ToLower(s)) == ToLower(TrimStart(s))
    decreases |s|
  {
    if s != [] {
      var l := ToLower(s);
      assert l == [LowerChar(s[0])] + ToLower(s[1..]);
      assert l[1..] == ToLower(s[1..]);
      if IsSpace(s[0]) {
        TrimStartLower(s[1..]);
        assert TrimStart(l) == TrimStart(l[1..]);
      } else {
        assert !IsSpace(l[0]);
        assert TrimStart(l) == l;
      }
    }
  }

  lemma {:induction false} TrimEndLower(s: string)
    ensures TrimEnd(ToLower(s)) == ToLower(TrimEnd(s))
    decreases |s|
  {
    if s != [] {
      var n := |s| - 1;
      var l := ToLower(s);
      assert l[..n] == ToLower(s[..n]);
      assert l[n] == LowerChar(s[n]);
      if IsSpace(s[n]) {
        TrimEndLower(s[..n]);
        assert TrimEnd(l) == TrimEnd(l[..n]);
      } else {
        assert !IsSpace(l[n]);
        assert TrimEnd(l) == l;
      }
    }
  }

  /** `s.toLowerCase().trim()` and `s.trim().toLowerCase()` agree. */
  lemma TrimLowerCommute(s: string)
    ensures Trim(ToLower(s)) == ToLower(Trim(s))
  {
    TrimStartLower(s);
    TrimEndLower(TrimStart(s));
  }

  /** A string that `trim()` leaves alone. */
  predicate Trimmed(s: string) {
    s == [] || (!IsSpace(s[0]) && !IsSpace(s[|s| - 1]))
  }

  lemma TrimOfTrimmed(s: string)
    requires Trimmed(s)
    ensures Trim(s) == s
  {
    assert TrimStart(s) == s;
  }

  /** The characters Python's `str.strip()` removes (`str.isspace()`): tab
      to carriage return, the separators U+001C to U+001F, space, U+0085,
      U+00A0, U+1680, U+2000 to U+200A, U+2028, U+2029, U+202F, U+205F and
      U+3000. Unlike `trim()` it removes U+001C to U+001F and U+0085 and keeps
      the byte-order mark. */
  predicate IsPySpace(c: char) {
    ('\t' <= c <= '\r') || ('\U{001C}' <= c <= '\U{001F}') || c == ' ' || c == '\U{0085}' || c == '\U{00A0}'
    || c == '\U{1680}' || ('\U{2000}' <= c <= '\U{200A}') || c == '\U{2028}' || c == '\U{2029}'
    || c == '\U{202F}' || c == '\U{205F}' || c == '\U{3000}'
  }

  function StripStart(s: string): (r: string)
    ensures |r| <= |s| && r == s[|s| - |r|..]
    ensures r == [] || !IsPySpace(r[0])
    ensures forall i :: 0 <= i < |s| - |r| ==> IsPySpace(s[i])
    decreases |s|
  {
    if s != [] && IsPySpace(s[0]) then StripStart(s[1..]) else s
  }

  function StripEnd(s: string): (r: string)
    ensures |r| <= |s| && r == s[..|r|]
    ensures r == [] || !IsPySpace(r[|r| - 1])
    ensures forall i :: |r| <= i < |s| ==> IsPySpace(s[i])
    decreases |s|
  {
    if s != [] && IsPySpace(s[|s| - 1]) then StripEnd(s[..|s| - 1]) else s
  }

  /** How much leading white space `strip()` cuts off. */
  function StripOffset(s: string): (k: nat)
    ensures k <= |s|
  {
    |s| - |StripStart(s)|
  }

  /** Python `s.strip()`: the longest middle part of s that neither starts
      nor ends with white space; everything cut off is white space. */
  function Strip(s: string): (r: string)
    ensures r == [] || (!IsPySpace(r[0]) && !IsPySpace(r[|r| - 1]))
    ensures StripOffset(s) + |r| <= |s| && r == s[StripOffset(s)..StripOffset(s) + |r|]
    ensures forall i :: 0 <= i < StripOffset(s) ==> IsPySpace(s[i])
    ensures forall i :: StripOffset(s) + |r| <= i < |s| ==> IsPySpace(s[i])
  {
    StripEnd(StripStart(s))
  }

  /** A string without surrounding white space is its own strip. */
  lemma StripOfStripped(s: string)
    requires s == [] || (!IsPySpace(s[0]) && !IsPySpace(s[|s| - 1]))
    ensures Strip(s) == s
  {
    assert StripStart(s) == s;
  }

  /** Leading white space in front of a non-space is all that `StripStart` cuts. */
  lemma {:induction false} StripStartPadded(front: string, w: string)
    requires forall i :: 0 <= i < |front| ==> IsPySpace(front[i])
    requires w == [] || !IsPySpace(w[0])
    ensures StripStart(front + w) == w
    decreases |front|
  {
    if front == [] {
      assert front + w == w;
    } else {
      assert (front + w)[1..] == front[1..] + w;
      StripStartPadded(front[1..], w);
    }
  }

  /** Trailing white space after a non-space is all that `StripEnd` cuts. */
  lemma {:induction false} StripEndPadded(w: string, back: string)
    requires forall i :: 0 <= i < |back| ==> IsPySpace(back[i])
    requires w == [] || !IsPySpace(w[|w| - 1])
    ensures StripEnd(w + back) == w
    decreases |back|
  {
    if back == [] {
      assert w + back == w;
    } else {
      var s := w + back;
      assert s[|s| - 1] == back[|back| - 1];
      assert s[..|s| - 1] == w + back[..|back| - 1];
      StripEndPadded(w, back[..|back| - 1]);
    }
  }

  /** Stripping a padded value gives the value back. */
  lemma StripPadded(front: string, v: string, back: string)
    requires forall i :: 0 <= i < |front| ==> IsPySpace(front[i])
    requires forall i :: 0 <= i < |back| ==> IsPySpace(back[i])
    requires v != [] && !IsPySpace(v[0]) && !IsPySpace(v[|v| - 1])
    ensures Strip(front + v + back) == v
  {
    assert front + v + back == front + (v + back);
    assert (v + back)[0] == v[0];
    StripStartPadded(front, v + back);
    StripEndPadded(v, back);
  }

  /** `s.includes(q)` / Python `q in s`: q occurs in s at some position. */
  predicate Contains(s: string, q: string)
    decreases |s|
  {
    q <= s || (s != [] && Contains(s[1..], q))
  }

  lemma {:induction false} ContainsEmpty(s: string)
    ensures Contains(s, [])
  {
  }

  lemma {:induction false} ContainsInRight(a: string, b: string, q: string)
    requires Contains(b, q)
    ensures Contains(a + b, q)
    decreases |a|
  {
    if a != [] {
      assert (a + b)[1..] == a[1..] + b;
      ContainsInRight(a[1..], b, q);
    } else {
      assert a + b == b;
    }
  }

  lemma ContainsInLeft(a: string, b: string, q: string)
    requires q <= a
    ensures Contains(a + b, q)
  {
    assert q <= a + b;
  }

  /** The length of a string is at least that of any string it contains. */
  lemma {:induction false} ContainsShorter(s: string, q: string)
    requires Contains(s, q)
    ensures |q| <= |s|
    decreases |s|
  {
    if !(q <= s) {
      ContainsShorter(s[1..], q);
    }
  }

  /** Python `s.split(c)[0]`, JavaScript `s.split(c)[0]`: the text before the first c. */
  function Before(s: string, c: char): (r: string)
    ensures r <= s && c !in r
    ensures |r| < |s| ==> s[|r|] == c
  {
    if s == [] || s[0] == c then [] else [s[0]] + Before(s[1..], c)
  }

  /** The text after the first c; empty when c does not occur. */
  function After(s: string, c: char): (r: string)
    ensures c in s ==> s == Before(s, c) + [c] + r
    ensures c !in s ==> r == []
  {
    if s == [] then []
    else if s[0] == c then s[1..]
    else After(s[1..], c)
  }

  /** Splitting at the first c recovers the two sides when the left one has no c. */
  lemma {:induction false} SplitAtFirst(a: string, c: char, b: string)
    requires c !in a
    ensures Before(a + [c] + b, c) == a
    ensures After(a + [c] + b, c) == b
  {
    if a != [] {
      SplitAtFirst(a[1..], c, b);
      assert (a + [c] + b)[1..] == a[1..] + [c] + b;
    } else {
      assert a + [c] + b == [c] + b;
    }
  }

  /** Python `s.split(c)[-1]`: the text after the last c, or all of s. */
  function AfterLast(s: string, c: char): (r: string)
    ensures c !in r
    ensures c in s ==> |r| < |s| && s[|s| - |r| - 1] == c && r == s[|s| - |r|..]
    ensures c !in s ==> r == s
    decreases |s|
  {
    if s == [] then []
    else if s[|s| - 1] == c then []
    else
      var r := AfterLast(s[..|s| - 1], c);
      assert s == s[..|s| - 1] + [s[|s| - 1]];
      r + [s[|s| - 1]]
  }

  /** The text after the last c of `prefix + [c] + tail` is tail, for a
      tail without c. */
  lemma {:induction false} AfterLastOfSuffix(prefix: string, c: char, tail: string)
    requires c !in tail
    ensures AfterLast(prefix + [c] + tail, c) == tail
    decreases |tail|
  {
    var s := prefix + [c] + tail;
    if tail != [] {
      var init := tail[..|tail| - 1];
      assert s[..|s| - 1] == prefix + [c] + init;
      assert s[|s| - 1] == tail[|tail| - 1];
      assert c !in init by {
        forall i | 0 <= i < |init| ensures init[i] != c { assert init[i] == tail[i]; }
      }
      AfterLastOfSuffix(prefix, c, init);
      assert init + [tail[|tail| - 1]] == tail;
    }
  }

  /** Decimal digits of a natural number, as `String(n)` writes them. */
  function Digits(n: nat): (r: string)
    ensures r != [] && forall i :: 0 <= i < |r| ==> IsDigit(r[i])
    ensures ':' !in r
  {
    if n < 10 then [('0' as int + n) as char]
    else Digits(n / 10) + [('0' as int + n % 10) as char]
  }

  /** Reads a string of decimal digits back as a number. */
  function ParseDigits(s: string): nat
    requires forall i :: 0 <= i < |s| ==> IsDigit(s[i])
  {
    if s == [] then 0
    else
      assert IsDigit(s[|s| - 1]);
      10 * ParseDigits(s[..|s| - 1]) + (s[|s| - 1] as int - '0' as int)
  }

  lemma {:induction false} ParseDigitsOfDigits(n: nat)
    ensures ParseDigits(Digits(n)) == n
  {
    if n >= 10 {
      var d := Digits(n / 10);
      assert Digits(n)[..|Digits(n)| - 1] == d;
      ParseDigitsOfDigits(n / 10);
    }
  }

  lemma {:induction false} DigitsOfSmall(n: nat)
    requires n < 10
    ensures |Digits(n)| == 1
  {
  }

  lemma {:induction false} DigitsOfTwoDigit(n: nat)
    requires 10 <= n < 100
    ensures |Digits(n)| == 2
  {
  }

  /** `parts.join(sep)`. */
  function Join(parts: seq<string>, sep: string): string {
    if parts == [] then []
    else if |parts| == 1 then parts[0]
    else parts[0] + sep + Join(parts[1..], sep)
  }

  /** Joining loses no part: every part occurs in the joined text. */
  lemma {:induction false} JoinContainsParts(parts: seq<string>, sep: string, i: nat)
    requires i < |parts|
    ensures Contains(Join(parts, sep), parts[i])
  {
    if |parts| == 1 {
      ContainsInLeft(parts[0], [], parts[0]);
      assert parts[0] + [] == parts[0];
    } else if i == 0 {
      ContainsInLeft(parts[0], sep + Join(parts[1..], sep), parts[0]);
      assert parts[0] + (sep + Join(parts[1..], sep)) == Join(parts, sep);
    } else {
      JoinContainsParts(parts[1..], sep, i - 1);
      ContainsInRight(parts[0] + sep, Join(parts[1..], sep), parts[i]);
      assert (parts[0] + sep) + Join(parts[1..], sep) == Join(parts, sep);
    }
  }

  /** `array.flat()` one level deep. */
  function Flatten(xss: seq<seq<string>>): (r: seq<string>)
    ensures forall i, j :: 0 <= i < |xss| && 0 <= j < |xss[i]| ==> xss[i][j] in r
  {
    if xss == [] then [] else xss[0] + Flatten(xss[1..])
  }
}
