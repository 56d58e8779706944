/** The parts of java.lang.String and java.util.Formatter that the core relies on.
    Strings are sequences of characters; a character counts as one unit of length. */
module JavaText {
  import opened Wrappers

  /** A character that String.trim strips: every code point up to and including U+0020. */
  predicate IsTrimmable(c: char) {
    c <= ' '
  }

  /** A character of the regular-expression class \s (ASCII only, as in java.util.regex
      without UNICODE_CHARACTER_CLASS): space, \t, \n, \x0B, \f and \r. */
  predicate IsRegexSpace(c: char) {
    c == ' ' || c == '\t' || c == '\n' || c == '\U{B}' || c == '\U{C}' || c == '\r'
  }

  predicate IsSuffix(t: string, s: string) {
    |t| <= |s| && t == s[|s| - |t|..]
  }

  /** The first index at or after st whose character String.trim keeps (|s| if none). */
  function TrimStartIndex(s: string, st: nat): (r: nat)
    requires st <= |s|
    ensures st <= r <= |s|
    ensures r < |s| ==> !IsTrimmable(s[r])
    decreases |s| - st
  {
    if st < |s| && IsTrimmable(s[st]) then TrimStartIndex(s, st + 1) else st
  }

  /** The end of the kept range: len lowered past trimmable characters, not below st. */
  function TrimEndIndex(s: string, st: nat, len: nat): (r: nat)
    requires st <= len <= |s|
    ensures st <= r <= len
    ensures r > st ==> !IsTrimmable(s[r - 1])
  {
    if st < len && IsTrimmable(s[len - 1]) then TrimEndIndex(s, st, len - 1) else len
  }

  /** String.trim(): the characters at or below U+0020 are skipped from the front, then
      from the back, and the slice in between is returned. */
  function Trim(s: string): (r: string)
    ensures |r| <= |s|
    ensures r == [] || (!IsTrimmable(r[0]) && !IsTrimmable(r[|r| - 1]))
  {
    var st := TrimStartIndex(s, 0);
    var len := TrimEndIndex(s, st, |s|);
    s[st..len]
  }

  lemma {:induction false} TrimStartIndexSkips(s: string, st: nat)
    requires st <= |s|
    ensures forall i :: st <= i < TrimStartIndex(s, st) ==> IsTrimmable(s[i])
    decreases |s| - st
  {
    if st < |s| && IsTrimmable(s[st]) {
      TrimStartIndexSkips(s, st + 1);
    }
  }

  lemma {:induction false} TrimEndIndexSkips(s: string, st: nat, len: nat)
    requires st <= len <= |s|
    ensures forall i :: TrimEndIndex(s, st, len) <= i < len ==> IsTrimmable(s[i])
  {
    if st < len && IsTrimmable(s[len - 1]) {
      TrimEndIndexSkips(s, st, len - 1);
    }
  }

  /** Trim(s) is a slice of s, and only trimmable characters lie outside it. */
  lemma TrimIsSlice(s: string) returns (a: nat)
    ensures a + |Trim(s)| <= |s|
    ensures Trim(s) == s[a..a + |Trim(s)|]
    ensures forall i :: 0 <= i < a ==> IsTrimmable(s[i])
    ensures forall i :: a + |Trim(s)| <= i < |s| ==> IsTrimmable(s[i])
  {
    a := TrimStartIndex(s, 0);
    TrimStartIndexSkips(s, 0);
    TrimEndIndexSkips(s, a, |s|);
  }

  /** A string is its own trim exactly when it is empty or neither end is trimmable. */
  lemma TrimFixpoint(s: string)
    ensures Trim(s) == s <==> (s == [] || (!IsTrimmable(s[0]) && !IsTrimmable(s[|s| - 1])))
  {
    if s != [] && !IsTrimmable(s[0]) && !IsTrimmable(s[|s| - 1]) {
      assert TrimStartIndex(s, 0) == 0;
      assert TrimEndIndex(s, 0, |s|) == |s|;
    }
  }

  lemma TrimIdempotent(s: string)
    ensures Trim(Trim(s)) == Trim(s)
  {
    TrimFixpoint(Trim(s));
  }

  /** Trim leaves nothing exactly when every character is trimmable. */
  lemma TrimEmptyIffBlank(s: string)
    ensures Trim(s) == [] <==> forall i :: 0 <= i < |s| ==> IsTrimmable(s[i])
  {
    var a := TrimIsSlice(s);
    if Trim(s) != [] {
      assert Trim(s)[0] == s[a];
    }
  }

  /** A trailing space never survives trim. */
  lemma TrimDropsTrailingSpace(s: string)
    ensures Trim(s + " ") == Trim(s)
  {
    var t := s + " ";
    var st := TrimStartIndex(s, 0);
    TrimStartIndexSkips(s, 0);
    TrimStartIndexAppend(s, 0);
    if st == |s| {
      assert TrimStartIndex(t, 0) == |t| by {
        TrimStartIndexSkips(t, 0);
        assert TrimStartIndex(t, 0) >= |s|;
      }
    } else {
      assert TrimStartIndex(t, 0) == st;
      assert TrimEndIndex(t, st, |t|) == TrimEndIndex(t, st, |s|);
      TrimEndIndexPrefix(s, t, st, |s|);
    }
  }

  lemma {:induction false} TrimStartIndexAppend(s: string, st: nat)
    requires st <= |s|
    ensures TrimStartIndex(s, st) < |s| ==> TrimStartIndex(s + " ", st) == TrimStartIndex(s, st)
    ensures TrimStartIndex(s, st) == |s| ==> TrimStartIndex(s + " ", st) >= |s|
    decreases |s| - st
  {
    var t := s + " ";
    assert forall i :: 0 <= i < |s| ==> t[i] == s[i];
    if st < |s| && IsTrimmable(s[st]) {
      TrimStartIndexAppend(s, st + 1);
    }
  }

  lemma {:induction false} TrimEndIndexPrefix(s: string, t: string, st: nat, len: nat)
    requires st <= len <= |s| <= |t|
    requires s == t[..|s|]
    ensures TrimEndIndex(t, st, len) == TrimEndIndex(s, st, len)
  {
    if st < len {
      assert t[len - 1] == s[len - 1];
      TrimEndIndexPrefix(s, t, st, len - 1);
    }
  }

  /** Appending the same text to a suffix and to the whole keeps the suffix relation,
      and the appended text ends the result. */
  lemma SuffixAppend(k: string, a: string, t: string)
    requires IsSuffix(k, a)
    ensures IsSuffix(k + t, a + t)
    ensures IsSuffix(t, k + t)
  {
    var b := k + t;
    var whole := a + t;
    assert b[|b| - |t|..] == t;
    assert whole == a[..|a| - |k|] + b;
    assert whole[|whole| - |b|..] == b;
  }

  /** String.startsWith. */
  predicate StartsWith(s: string, prefix: string) {
    |prefix| <= |s| && s[..|prefix|] == prefix
  }

  /** String.indexOf(char): the first index of c, or -1. */
  function IndexOf(s: string, c: char): (r: int)
    ensures -1 <= r < |s|
  {
    if |s| == 0 then -1
    else if s[0] == c then 0
    else
      var k := IndexOf(s[1..], c);
      if k == -1 then -1 else k + 1
  }

  /** indexOf answers -1 exactly when c does not occur, and otherwise the position of
      the first occurrence. */
  lemma {:induction false} IndexOfFirst(s: string, c: char)
    ensures IndexOf(s, c) == -1 <==> c !in s
    ensures IndexOf(s, c) >= 0 ==>
              s[IndexOf(s, c)] == c && forall j :: 0 <= j < IndexOf(s, c) ==> s[j] != c
  {
    if |s| > 0 && s[0] != c {
      IndexOfFirst(s[1..], c);
      assert forall j :: 1 <= j < |s| ==> s[j] == s[1..][j - 1];
      assert c in s <==> c in s[1..];
    }
  }

  /** Collectors.joining(sep): the parts in order, with sep between neighbours. */
  function Join(parts: seq<string>, sep: string): string
  {
    if |parts| == 0 then ""
    else if |parts| == 1 then parts[0]
    else Join(parts[..|parts| - 1], sep) + sep + parts[|parts| - 1]
  }

  function TotalLength(parts: seq<string>): nat
  {
    if |parts| == 0 then 0 else TotalLength(parts[..|parts| - 1]) + |parts[|parts| - 1]|
  }

  /** Joining n parts inserts exactly n - 1 separators and nothing else. */
  lemma {:induction false} JoinLength(parts: seq<string>, sep: string)
    requires |parts| > 0
    ensures |Join(parts, sep)| == TotalLength(parts) + (|parts| - 1) * |sep|
  {
    var n := |parts|;
    if n > 1 {
      JoinLength(parts[..n - 1], sep);
      assert (n - 2) * |sep| + |sep| == (n - 1) * |sep|;
    }
  }

  /** Join is built left to right: the first part opens it. */
  lemma {:induction false} JoinStartsWithFirst(parts: seq<string>, sep: string)
    requires |parts| > 0
    ensures |parts[0]| <= |Join(parts, sep)|
    ensures Join(parts, sep)[..|parts[0]|] == parts[0]
  {
    if |parts| > 1 {
      var init := parts[..|parts| - 1];
      JoinStartsWithFirst(init, sep);
      assert init[0] == parts[0];
      var j := Join(init, sep);
      assert Join(parts, sep) == j + sep + parts[|parts| - 1];
      assert (j + sep + parts[|parts| - 1])[..|parts[0]|] == j[..|parts[0]|];
    }
  }

  predicate IsDigit(c: char) {
    '0' <= c <= '9'
  }

  function DigitChar(d: nat): (c: char)
    requires d < 10
    ensures IsDigit(c)
  {
    ('0' as int + d) as char
  }

  function DigitValue(c: char): (d: nat)
    requires IsDigit(c)
    ensures d < 10
  {
    (c as int - '0' as int)
  }

  /** Decimal rendering of a natural number, most significant digit first, no leading zeros. */
  function NatToString(n: nat): (r: string)
    ensures |r| >= 1
    ensures forall i :: 0 <= i < |r| ==> IsDigit(r[i])
  {
    if n < 10 then [DigitChar(n)] else NatToString(n / 10) + [DigitChar(n % 10)]
  }

  /** Integer.toString and the %d conversion of String.format. */
  function IntToString(i: int): (r: string)
    ensures |r| >= 1
    ensures r[0] == '-' <==> i < 0
    ensures i >= 0 ==> r == NatToString(i)
    ensures i < 0 ==> r[1..] == NatToString(-i)
  {
    if i < 0 then "-" + NatToString(-i) else NatToString(i)
  }

  /** Reads a non-empty string of decimal digits; anything else is None. */
  function ParseNat(s: string): (r: Option<nat>)
    ensures r.Some? ==> |s| > 0 && forall i :: 0 <= i < |s| ==> IsDigit(s[i])
  {
    if |s| == 0 || !IsDigit(s[|s| - 1]) then None
    else if |s| == 1 then Some(DigitValue(s[0]))
    else
      match ParseNat(s[..|s| - 1])
      case None => None
      case Some(v) => Some(v * 10 + DigitValue(s[|s| - 1]))
  }

  /** Reading back a rendered number gives the number. */
  lemma {:induction false} ParseNatToString(n: nat)
    ensures ParseNat(NatToString(n)) == Some(n)
  {
    if n >= 10 {
      var s := NatToString(n);
      assert s[..|s| - 1] == NatToString(n / 10);
      ParseNatToString(n / 10);
    }
  }
}
