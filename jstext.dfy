/**
 The JavaScript string built-ins the request handlers rely on, written as
 total functions on `string`: `String.prototype.trim`, the first element of
 `split` on a one-character separator, `Array.prototype.join`, the truthiness
 test `x || …` applied to an optional string, and `Number` to decimal text.
 */
module JsText {

  datatype Option<+T> = None | Some(value: T)

  /** A header or field is truthy in JavaScript when it is present and not the empty string. */
  predicate Truthy(v: Option<string>) {
    v.Some? && v.value != ""
  }

  /** The WhiteSpace and LineTerminator code points of ECMAScript: what `trim` removes and what `\s` matches. */
  predicate IsWhitespace(c: char) {
    c == '\t' || c == '\n' || c == '\U{B}' || c == '\U{C}' || c == '\r' || c == ' '
    || c == '\U{A0}' || c == '\U{1680}' || ('\U{2000}' <= c <= '\U{200A}')
    || c == '\U{2028}' || c == '\U{2029}' || c == '\U{202F}' || c == '\U{205F}'
    || c == '\U{3000}' || c == '\U{FEFF}'
  }

  predicate AllWhitespace(s: string) {
    forall i :: 0 <= i < |s| ==> IsWhitespace(s[i])
  }

  /** Neither end of `s` is whitespace. */
  predicate Trimmed(s: string) {
    s == [] || (!IsWhitespace(s[0]) && !IsWhitespace(s[|s| - 1]))
  }

  /** The length of the longest whitespace prefix of `s` (what a greedy `\s*` consumes). */
  function LeadingWhitespace(s: string): (n: nat)
    ensures n <= |s|
    ensures AllWhitespace(s[..n])
    ensures n == |s| || !IsWhitespace(s[n])
  {
    if s != [] && IsWhitespace(s[0]) then
      var n := 1 + LeadingWhitespace(s[1..]);
      assert s[..n] == [s[0]] + s[1..][..n - 1];
      n
    else 0
  }

  /** The length of the longest whitespace suffix of `s`. */
  function TrailingWhitespace(s: string): (n: nat)
    ensures n <= |s|
    ensures AllWhitespace(s[|s| - n..])
    ensures n == |s| || !IsWhitespace(s[|s| - n - 1])
  {
    if s != [] && IsWhitespace(s[|s| - 1]) then
      var p := s[..|s| - 1];
      var m := TrailingWhitespace(p);
      forall i | |s| - (m + 1) <= i < |s|
        ensures IsWhitespace(s[i])
      {
        if i < |s| - 1 {
          assert s[i] == p[|p| - m..][i - (|s| - (m + 1))];
        }
      }
      assert AllWhitespace(s[|s| - (m + 1)..]);
      assert m + 1 < |s| ==> s[|s| - (m + 1) - 1] == p[|p| - m - 1];
      m + 1
    else 0
  }

  /** `String.prototype.trimEnd`: `r` is the prefix of `a` that leaves out only its trailing whitespace. */
  function TrimEnd(a: string): (r: string)
    ensures |r| <= |a| && r == a[..|r|]
    ensures AllWhitespace(a[|r|..])
    ensures r == [] || !IsWhitespace(r[|r| - 1])
    ensures r != [] ==> r[0] == a[0]
  {
    var t := TrailingWhitespace(a);
    var r := a[..|a| - t];
    assert r != [] ==> r[|r| - 1] == a[|a| - t - 1];
    r
  }

  /**
   `String.prototype.trim`: `r` is the infix of `s` that starts after the
   leading whitespace, is followed only by whitespace, and has whitespace at
   neither end.
   */
  function Trim(s: string): (r: string)
    ensures Trimmed(r)
    ensures LeadingWhitespace(s) + |r| <= |s|
    ensures r == s[LeadingWhitespace(s)..LeadingWhitespace(s) + |r|]
    ensures AllWhitespace(s[LeadingWhitespace(s) + |r|..])
  {
    var n := LeadingWhitespace(s);
    var a := s[n..];
    var r := TrimEnd(a);
    assert Trimmed(r) by {
      if r != [] { assert r[0] == s[n]; }
    }
    assert r == s[n..n + |r|] by {
      assert a[..|r|] == s[n..n + |r|];
    }
    assert AllWhitespace(s[n + |r|..]) by {
      assert a[|r|..] == s[n + |r|..];
    }
    r
  }

  /** Trimming text that is already trimmed changes nothing. */
  lemma TrimOfTrimmed(s: string)
    requires Trimmed(s)
    ensures Trim(s) == s
  {
    assert LeadingWhitespace(s) == 0;
    var a := s[LeadingWhitespace(s)..];
    assert a == s;
    assert TrailingWhitespace(a) == 0;
  }

  /** `trim` is idempotent. */
  lemma TrimIdempotent(s: string)
    ensures Trim(Trim(s)) == Trim(s)
  {
    TrimOfTrimmed(Trim(s));
  }

  lemma {:induction false} LeadingWhitespaceAppend(w: string, s: string)
    requires AllWhitespace(w)
    ensures LeadingWhitespace(w + s) == |w| + LeadingWhitespace(s)
  {
    if w != [] {
      assert (w + s)[1..] == w[1..] + s;
      LeadingWhitespaceAppend(w[1..], s);
    } else {
      assert w + s == s;
    }
  }

  /** Whitespace in front of `s` makes no difference to `trim`. */
  lemma TrimIgnoresLeadingWhitespace(w: string, s: string)
    requires AllWhitespace(w)
    ensures Trim(w + s) == Trim(s)
  {
    var n := LeadingWhitespace(s);
    assert LeadingWhitespace(w + s) == |w| + n by {
      LeadingWhitespaceAppend(w, s);
    }
    assert (w + s)[|w| + n..] == s[n..];
    assert Trim(w + s) == TrimEnd(s[n..]);
  }

  /** Behind a non-empty text that does not end in whitespace, the trailing whitespace is exactly the padding. */
  lemma {:induction false} TrailingWhitespaceOfPadded(core: string, w: string)
    requires core != [] && !IsWhitespace(core[|core| - 1]) && AllWhitespace(w)
    ensures TrailingWhitespace(core + w) == |w|
    decreases |w|
  {
    if w == [] {
      assert core + w == core;
    } else {
      var s := core + w;
      assert s[|s| - 1] == w[|w| - 1];
      assert s[..|s| - 1] == core + w[..|w| - 1];
      TrailingWhitespaceOfPadded(core, w[..|w| - 1]);
    }
  }

  /** Trimming whitespace-padded text that is itself trimmed and not empty gives that text back. */
  lemma TrimOfPadded(w1: string, core: string, w2: string)
    requires AllWhitespace(w1) && AllWhitespace(w2)
    requires core != [] && Trimmed(core)
    ensures Trim(w1 + core + w2) == core
  {
    var s := w1 + core + w2;
    assert s == w1 + (core + w2);
    LeadingWhitespaceAppend(w1, core + w2);
    assert LeadingWhitespace(core + w2) == 0 by { assert (core + w2)[0] == core[0]; }
    assert s[|w1|..] == core + w2;
    TrailingWhitespaceOfPadded(core, w2);
    assert s[|w1|..|s| - |w2|] == core;
  }

  /** Trimming keeps a trimmed, non-empty prefix intact: only what follows it can lose trailing whitespace. */
  lemma TrimKeepsPrefix(p: string, t: string)
    requires p != [] && Trimmed(p)
    ensures |Trim(p + t)| >= |p| && Trim(p + t)[..|p|] == p
  {
    var s := p + t;
    assert LeadingWhitespace(s) == 0 by { assert s[0] == p[0]; }
    var r := Trim(s);
    assert !IsWhitespace(s[|p| - 1]);
    assert r[..|p|] == s[..|p|];
  }

  /**
   `s.split(sep)[0]` for a one-character separator: the longest prefix of `s`
   free of `sep`, which stops just before the first `sep` if there is one.
   */
  function BeforeFirst(s: string, sep: char): (r: string)
    ensures r <= s
    ensures sep !in r
    ensures |r| < |s| ==> s[|r|] == sep
  {
    if s == [] || s[0] == sep then "" else [s[0]] + BeforeFirst(s[1..], sep)
  }

  /** A text without the separator is its own first `split` element. */
  lemma BeforeFirstWithoutSeparator(s: string, sep: char)
    requires sep !in s
    ensures BeforeFirst(s, sep) == s
  {
  }

  /** The first `split` element of `a + sep + b` is `a` when `a` holds no separator. */
  lemma {:induction false} BeforeFirstOfList(a: string, sep: char, b: string)
    requires sep !in a
    ensures BeforeFirst(a + [sep] + b, sep) == a
  {
    if a != [] {
      assert (a + [sep] + b)[1..] == a[1..] + [sep] + b;
      BeforeFirstOfList(a[1..], sep, b);
    }
  }

  /** `items.join(sep)`. */
  function Join(items: seq<string>, sep: string): (r: string)
    ensures |items| == 1 ==> r == items[0]
    ensures items == [] ==> r == ""
  {
    if items == [] then ""
    else if |items| == 1 then items[0]
    else items[0] + sep + Join(items[1..], sep)
  }

  /**
   Appending an item to a non-empty list appends the separator and the item
   to the joined text: `join` keeps the items in order, one separator between
   neighbours.
   */
  lemma {:induction false} JoinSnoc(items: seq<string>, sep: string, last: string)
    requires items != []
    ensures Join(items + [last], sep) == Join(items, sep) + sep + last
  {
    if |items| == 1 {
      assert items + [last] == [items[0], last];
      assert (items + [last])[1..] == [last];
    } else {
      assert (items + [last])[1..] == items[1..] + [last];
      JoinSnoc(items[1..], sep, last);
    }
  }

  /** The length of a joined list: every item plus one separator between neighbours. */
  function TotalLength(items: seq<string>): nat {
    if items == [] then 0 else |items[0]| + TotalLength(items[1..])
  }

  lemma {:induction false} JoinLength(items: seq<string>, sep: string)
    requires items != []
    ensures |Join(items, sep)| == TotalLength(items) + (|items| - 1) * |sep|
  {
    if |items| > 1 {
      JoinLength(items[1..], sep);
    }
  }

  function DigitChar(d: nat): (c: char)
    requires d < 10
    ensures '0' <= c <= '9'
  {
    ('0' as int + d) as char
  }

  /** `String(n)` for a non-negative integer: its decimal digits, no leading zero. */
  function Decimal(n: nat): (s: string)
    ensures s != []
    ensures forall i :: 0 <= i < |s| ==> '0' <= s[i] <= '9'
    ensures s[0] == '0' ==> n == 0
  {
    if n < 10 then [DigitChar(n)] else Decimal(n / 10) + [DigitChar(n % 10)]
  }

  /** The number a string of decimal digits denotes. */
  function DigitsValue(s: string): nat
    requires forall i :: 0 <= i < |s| ==> '0' <= s[i] <= '9'
  {
    if s == [] then 0 else 10 * DigitsValue(s[..|s| - 1]) + (s[|s| - 1] as int - '0' as int)
  }

  /** Reading the decimal text back gives the number. */
  lemma {:induction false} DecimalRoundTrip(n: nat)
    ensures DigitsValue(Decimal(n)) == n
  {
    if n >= 10 {
      var s := Decimal(n);
      assert s[..|s| - 1] == Decimal(n / 10);
      DecimalRoundTrip(n / 10);
    }
  }
}
