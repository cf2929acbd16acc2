/** The Python string built-ins the connector relies on: `str.isspace`,
    `str.strip`, `str.lower`, `str.startswith`, `str.join` and `str.split`,
    over Dafny strings (sequences of Unicode scalar values). */
module Text {
  import opened Outcomes

  /** `c.isspace()`: the 29 code points Python treats as whitespace. */
  predicate IsSpace(c: char) {
    || c == ' '
    || '\t' <= c <= '\r'            // tab, line feed, vertical tab, form feed, carriage return
    || '\U{1C}' <= c <= '\U{1F}'    // file, group, record and unit separators
    || c == '\U{85}' || c == '\U{A0}' || c == '\U{1680}'
    || '\U{2000}' <= c <= '\U{200A}'
    || c == '\U{2028}' || c == '\U{2029}' || c == '\U{202F}' || c == '\U{205F}' || c == '\U{3000}'
  }

  /** Every character of `w` is whitespace. */
  predicate AllSpace(w: string) {
    forall k :: 0 <= k < |w| ==> IsSpace(w[k])
  }

  /** Removes the longest prefix of characters satisfying `blank`. */
  function TrimStart(s: string, blank: char -> bool): (r: string)
    ensures |r| <= |s| && r == s[|s| - |r|..]
    ensures forall i :: 0 <= i < |s| - |r| ==> blank(s[i])
    ensures r != [] ==> !blank(r[0])
  {
    if s != [] && blank(s[0]) then TrimStart(s[1..], blank) else s
  }

  /** Removes the longest suffix of characters satisfying `blank`. */
  function TrimEnd(s: string, blank: char -> bool): (r: string)
    ensures |r| <= |s| && r == s[..|r|]
    ensures forall i :: |r| <= i < |s| ==> blank(s[i])
    ensures r != [] ==> !blank(r[|r| - 1])
  {
    if s != [] && blank(s[|s| - 1]) then TrimEnd(s[..|s| - 1], blank) else s
  }

  /** Removes `blank` characters from both ends. */
  function StripWith(s: string, blank: char -> bool): string {
    TrimEnd(TrimStart(s, blank), blank)
  }

  /** `s.strip()` with no argument. */
  function Strip(s: string): string {
    StripWith(s, IsSpace)
  }

  /** When `s[..k]` is blank and `s[k]` is not, trimming the start leaves `s[k..]`. */
  lemma TrimStartAt(s: string, blank: char -> bool, k: nat)
    requires k <= |s|
    requires forall i :: 0 <= i < k ==> blank(s[i])
    requires k == |s| || !blank(s[k])
    ensures TrimStart(s, blank) == s[k..]
  {
    var r := TrimStart(s, blank);
    var m := |s| - |r|;
    assert m < |s| ==> r[0] == s[m];
    assert m == k;
  }

  /** When `s[j..]` is blank and `s[j - 1]` is not, trimming the end leaves `s[..j]`. */
  lemma TrimEndAt(s: string, blank: char -> bool, j: nat)
    requires j <= |s|
    requires forall i :: j <= i < |s| ==> blank(s[i])
    requires j == 0 || !blank(s[j - 1])
    ensures TrimEnd(s, blank) == s[..j]
  {
    var r := TrimEnd(s, blank);
    assert |r| > 0 ==> r[|r| - 1] == s[|r| - 1];
    assert |r| == j;
  }

  /** Trimming the end keeps every prefix of what remains. */
  lemma TrimEndKeepsPrefix(s: string, blank: char -> bool, n: nat)
    requires n <= |TrimEnd(s, blank)|
    ensures n <= |s| && TrimEnd(s, blank)[..n] == s[..n]
  {
  }

  /** Stripping keeps exactly the span from the first to the last non-blank character. */
  lemma StripWithAt(s: string, blank: char -> bool, i: nat, j: nat)
    requires i < j <= |s|
    requires forall k :: 0 <= k < i ==> blank(s[k])
    requires forall k :: j <= k < |s| ==> blank(s[k])
    requires !blank(s[i]) && !blank(s[j - 1])
    ensures StripWith(s, blank) == s[i..j]
  {
    TrimStartAt(s, blank, i);
    var t := s[i..];
    assert TrimStart(s, blank) == t;
    TrimEndOfSuffix(s, blank, i, j);
    assert StripWith(s, blank) == TrimEnd(t, blank);
  }

  /** Stripping keeps a span `s[i..j]` with only blanks outside it. */
  lemma StripWithSpan(s: string, blank: char -> bool) returns (i: nat, j: nat)
    ensures i <= j <= |s| && StripWith(s, blank) == s[i..j]
    ensures forall k :: 0 <= k < i ==> blank(s[k])
    ensures forall k :: j <= k < |s| ==> blank(s[k])
  {
    var u := TrimStart(s, blank);
    i := |s| - |u|;
    assert forall k :: 0 <= k < i ==> blank(s[k]);
    var t := TrimEnd(u, blank);
    j := i + |t|;
    TrimEndSpan(s, blank, i, u, t);
    assert StripWith(s, blank) == t;
  }

  /** Trimming the end of the suffix `u == s[i..]` keeps `s[i..i + |t|]`
      and drops only blanks. */
  lemma TrimEndSpan(s: string, blank: char -> bool, i: nat, u: string, t: string)
    requires i <= |s| && u == s[i..] && t == TrimEnd(u, blank)
    ensures i + |t| <= |s| && t == s[i..i + |t|]
    ensures forall k :: i + |t| <= k < |s| ==> blank(s[k])
  {
    forall k | i + |t| <= k < |s|
      ensures blank(s[k])
    {
      assert s[k] == u[k - i];
    }
  }

  /** Once trimming the start leaves `s[k..]`, the first `n` characters of
      the stripped string are `s[k..k + n]`. */
  lemma StripWithKeepsPrefix(s: string, blank: char -> bool, k: nat, n: nat)
    requires k <= |s| && TrimStart(s, blank) == s[k..]
    requires n <= |StripWith(s, blank)|
    ensures k + n <= |s| && StripWith(s, blank)[..n] == s[k..k + n]
  {
    var u := s[k..];
    var t := TrimEnd(u, blank);
    assert n <= |u| && t[..n] == u[..n] by {
      TrimEndKeepsPrefix(u, blank, n);
    }
    assert u[..n] == s[k..k + n];
  }

  /** Trimming the end of a suffix `s[i..]` stops at the last non-blank character `s[j - 1]`. */
  lemma TrimEndOfSuffix(s: string, blank: char -> bool, i: nat, j: nat)
    requires i < j <= |s|
    requires forall k :: j <= k < |s| ==> blank(s[k])
    requires !blank(s[j - 1])
    ensures TrimEnd(s[i..], blank) == s[i..j]
  {
    var t := s[i..];
    forall k | j - i <= k < |t|
      ensures blank(t[k])
    {
      assert t[k] == s[i + k];
    }
    TrimEndAt(t, blank, j - i);
    assert t[..j - i] == s[i..j];
  }

  /** ASCII-only `str.lower` on one character. */
  function LowerChar(c: char): char {
    if 'A' <= c <= 'Z' then (c as int + 32) as char else c
  }

  /** `s.lower()`, restricted to the ASCII letters. */
  function Lower(s: string): (r: string)
    ensures |r| == |s|
    ensures forall i :: 0 <= i < |s| ==> r[i] == LowerChar(s[i])
  {
    seq(|s|, i requires 0 <= i < |s| => LowerChar(s[i]))
  }

  /** `s.startswith(p)`. */
  predicate StartsWith(s: string, p: string) {
    |p| <= |s| && s[..|p|] == p
  }

  /** `s.find(c)` as an option: the index of the first occurrence of `c`. */
  function IndexOf(s: string, c: char): (r: Option<nat>)
    ensures r.None? <==> c !in s
    ensures r.Some? ==> r.value < |s| && s[r.value] == c
    ensures r.Some? ==> forall i :: 0 <= i < r.value ==> s[i] != c
  {
    if s == [] then None
    else if s[0] == c then Some(0)
    else match IndexOf(s[1..], c)
      case None => None
      case Some(i) => Some(i + 1)
  }

  /** `sep.join(parts)` for a one-character separator. */
  function Join(sep: char, parts: seq<string>): string
  {
    if |parts| == 0 then ""
    else if |parts| == 1 then parts[0]
    else parts[0] + [sep] + Join(sep, parts[1..])
  }

  /** `s.split(sep)` for a one-character separator: never empty, and no piece
      contains the separator. */
  function Split(s: string, sep: char): (r: seq<string>)
    ensures |r| >= 1
    ensures forall i :: 0 <= i < |r| ==> sep !in r[i]
    decreases |s|
  {
    match IndexOf(s, sep)
    case None => [s]
    case Some(i) => [s[..i]] + Split(s[i + 1..], sep)
  }

  /** The first separator of `a + [sep] + b` is the one after `a` when `a` has none. */
  lemma IndexOfAfter(a: string, sep: char, b: string)
    requires sep !in a
    ensures IndexOf(a + [sep] + b, sep) == Some(|a|)
    ensures (a + [sep] + b)[..|a|] == a && (a + [sep] + b)[|a| + 1..] == b
  {
    var s := a + [sep] + b;
    assert s[|a|] == sep;
    assert forall i :: 0 <= i < |a| ==> s[i] == a[i];
  }

  /** Joining a first part onto a non-empty rest puts one separator between them. */
  lemma JoinCons(sep: char, first: string, rest: seq<string>)
    requires |rest| > 0
    ensures Join(sep, [first] + rest) == first + [sep] + Join(sep, rest)
  {
    assert ([first] + rest)[1..] == rest;
  }

  /** Splitting a join gives the parts back, when no part holds the separator. */
  lemma {:induction false} SplitJoin(sep: char, parts: seq<string>)
    requires |parts| > 0
    requires forall i :: 0 <= i < |parts| ==> sep !in parts[i]
    ensures Split(Join(sep, parts), sep) == parts
  {
    if |parts| > 1 {
      var rest := parts[1..];
      assert parts == [parts[0]] + rest;
      JoinCons(sep, parts[0], rest);
      IndexOfAfter(parts[0], sep, Join(sep, rest));
      SplitJoin(sep, rest);
    }
  }

  /** Where the first separator is, the split is the piece before it
      followed by the split of what comes after it. */
  lemma SplitAt(s: string, sep: char, i: nat)
    requires IndexOf(s, sep) == Some(i)
    ensures i < |s| && s == s[..i] + [sep] + s[i + 1..]
    ensures Split(s, sep) == [s[..i]] + Split(s[i + 1..], sep)
  {
    assert s[i] == sep;
  }

  /** Joining the pieces of a split gives the string back. */
  lemma {:induction false} JoinSplit(s: string, sep: char)
    ensures Join(sep, Split(s, sep)) == s
    decreases |s|
  {
    match IndexOf(s, sep)
    case None =>
      assert Split(s, sep) == [s];
    case Some(i) =>
      SplitAt(s, sep, i);
      var head, tail := s[..i], s[i + 1..];
      JoinSplit(tail, sep);
      JoinCons(sep, head, Split(tail, sep));
  }
}
