/** String helpers with the semantics of the JavaScript built-ins the generator
    uses: String.prototype.split on one character, trim, the regular-expression
    class \s, and ASCII case changes. */
module Text {

  /** ASCII lower-casing of one character; every other character is unchanged. */
  function Lower(c: char): char {
    if 'A' <= c <= 'Z' then (c as int + 32) as char else c
  }

  /** ASCII upper-casing of one character; every other character is unchanged. */
  function Upper(c: char): char {
    if 'a' <= c <= 'z' then (c as int - 32) as char else c
  }

  /** Upper-cases the first character only. */
  function FirstLetterUpperCase(s: string): (r: string)
    ensures |r| == |s|
    ensures |s| > 0 ==> r[0] == Upper(s[0]) && r[1..] == s[1..]
  {
    if |s| == 0 then s else [Upper(s[0])] + s[1..]
  }

  /** Lower-cases the first character only. */
  function FirstLetterToLowerCase(s: string): (r: string)
    ensures |r| == |s|
    ensures |s| > 0 ==> r[0] == Lower(s[0]) && r[1..] == s[1..]
  {
    if |s| == 0 then s else [Lower(s[0])] + s[1..]
  }

  function ToLowerCase(s: string): (r: string)
    ensures |r| == |s|
    ensures forall k :: 0 <= k < |s| ==> r[k] == Lower(s[k])
  {
    seq(|s|, k requires 0 <= k < |s| => Lower(s[k]))
  }

  /** Every occurrence of `from` replaced by `to`. */
  function ReplaceAll(s: string, from: char, to: char): (r: string)
    ensures |r| == |s|
    ensures forall k :: 0 <= k < |s| ==> r[k] == if s[k] == from then to else s[k]
  {
    seq(|s|, k requires 0 <= k < |s| => if s[k] == from then to else s[k])
  }

  predicate StartsWith(s: string, prefix: string) {
    |prefix| <= |s| && s[..|prefix|] == prefix
  }

  predicate EndsWith(s: string, suffix: string) {
    |suffix| <= |s| && s[|s| - |suffix|..] == suffix
  }

  /** The JavaScript regular-expression class \s (which is also what trim strips). */
  predicate IsSpace(c: char) {
    || c == ' ' || c == '\t' || c == '\n' || c == '\r' || c == '\U{B}' || c == '\U{C}'
    || c == '\U{A0}' || c == '\U{1680}' || ('\U{2000}' <= c <= '\U{200A}')
    || c == '\U{2028}' || c == '\U{2029}' || c == '\U{202F}' || c == '\U{205F}'
    || c == '\U{3000}' || c == '\U{FEFF}'
  }

  predicate AllSpace(s: string) {
    forall k :: 0 <= k < |s| ==> IsSpace(s[k])
  }

  predicate NoSpace(s: string) {
    forall k :: 0 <= k < |s| ==> !IsSpace(s[k])
  }

  /** Array.prototype.join. */
  function Join(parts: seq<string>, sep: string): string {
    if |parts| == 0 then ""
    else if |parts| == 1 then parts[0]
    else parts[0] + sep + Join(parts[1..], sep)
  }

  /** Concatenation regrouped, stated once so that literal-heavy proofs need
      not rediscover it. */
  lemma ConcatAssoc(a: string, b: string, c: string)
    ensures a + b + c == a + (b + c)
  {
  }

  lemma JoinCons(head: string, tail: seq<string>, sep: string)
    requires |tail| > 0
    ensures Join([head] + tail, sep) == head + sep + Join(tail, sep)
  {
    assert ([head] + tail)[1..] == tail;
  }

  lemma {:induction false} JoinAppend(parts: seq<string>, last: string, sep: string)
    requires |parts| > 0
    ensures Join(parts + [last], sep) == Join(parts, sep) + sep + last
  {
    if |parts| == 1 {
      assert parts + [last] == [parts[0]] + [last];
      JoinCons(parts[0], [last], sep);
    } else {
      JoinAppend(parts[1..], last, sep);
      assert parts + [last] == [parts[0]] + (parts[1..] + [last]);
      JoinCons(parts[0], parts[1..] + [last], sep);
      assert parts == [parts[0]] + parts[1..];
      JoinCons(parts[0], parts[1..], sep);
    }
  }

  /** String.prototype.split with a one-character separator: always at least
      one piece, no piece holds the separator. */
  function Split(s: string, c: char): (r: seq<string>)
    ensures |r| >= 1
    ensures forall k :: 0 <= k < |r| ==> c !in r[k]
    ensures |r| == 1 <==> c !in s
    ensures c !in s ==> r == [s]
  {
    if |s| == 0 then [""]
    else
      var rest := Split(s[1..], c);
      assert [s[0]] + s[1..] == s;
      if s[0] == c then [""] + rest
      else [[s[0]] + rest[0]] + rest[1..]
  }

  /** Joining the pieces of a split with the separator gives the text back. */
  lemma {:induction false} JoinSplit(s: string, c: char)
    ensures Join(Split(s, c), [c]) == s
  {
    if |s| > 0 {
      var rest := Split(s[1..], c);
      JoinSplit(s[1..], c);
      if s[0] == c {
        JoinCons("", rest, [c]);
      } else if |rest| == 1 {
        assert Split(s, c) == [[s[0]] + rest[0]];
      } else {
        assert rest == [rest[0]] + rest[1..];
        JoinCons(rest[0], rest[1..], [c]);
        JoinCons([s[0]] + rest[0], rest[1..], [c]);
      }
    }
  }

  lemma {:induction false} SplitPrefix(x: string, y: string, c: char)
    requires c !in x
    ensures Split(x + [c] + y, c) == [x] + Split(y, c)
  {
    if |x| == 0 {
      assert x + [c] + y == [c] + y;
      assert ([c] + y)[1..] == y;
    } else {
      SplitPrefix(x[1..], y, c);
      var s := x + [c] + y;
      assert s[0] == x[0] && s[1..] == x[1..] + [c] + y;
      assert [x[0]] + x[1..] == x;
    }
  }

  /** Splitting the join of separator-free pieces gives the pieces back. */
  lemma {:induction false} SplitJoin(parts: seq<string>, c: char)
    requires |parts| >= 1
    requires forall k :: 0 <= k < |parts| ==> c !in parts[k]
    ensures Split(Join(parts, [c]), c) == parts
  {
    if |parts| > 1 {
      SplitJoin(parts[1..], c);
      assert parts == [parts[0]] + parts[1..];
      JoinCons(parts[0], parts[1..], [c]);
      SplitPrefix(parts[0], Join(parts[1..], [c]), c);
    }
  }

  /** The last piece of a split is the text after the last separator, or all of
      `s` when there is none: the split joins back to `s`, and the last piece
      follows the last separator of that join. */
  lemma SplitLast(s: string, c: char)
    ensures var r := Split(s, c); var l := r[|r| - 1];
      EndsWith(s, l) && (|l| < |s| ==> s[|s| - |l| - 1] == c)
  {
    var r := Split(s, c);
    var n := |r|;
    var l := r[n - 1];
    JoinSplit(s, c);
    if n == 1 {
      assert s == l;
    } else {
      var init := r[..n - 1];
      assert r == init + [l];
      JoinAppend(init, l, [c]);
      var head := Join(init, [c]) + [c];
      assert s == head + l;
      assert s[|s| - |l|..] == l;
      assert s[|s| - |l| - 1] == head[|head| - 1];
    }
  }

  /** The bounds of String.prototype.trim: what lies outside them is space,
      and the text inside them neither starts nor ends with space. */
  function TrimBounds(s: string): (b: (nat, nat))
    ensures b.0 <= b.1 <= |s|
    ensures AllSpace(s[..b.0]) && AllSpace(s[b.1..])
    ensures b.0 < b.1 ==> !IsSpace(s[b.0]) && !IsSpace(s[b.1 - 1])
  {
    var lo := LeadingSpaces(s, 0);
    (lo, TrailingEnd(s, lo, |s|))
  }

  /** The first index at or after i whose character is not space, or |s|. */
  function LeadingSpaces(s: string, i: nat): (k: nat)
    requires i <= |s|
    ensures i <= k <= |s|
    ensures AllSpace(s[i..k])
    ensures k < |s| ==> !IsSpace(s[k])
    decreases |s| - i
  {
    if i == |s| || !IsSpace(s[i]) then i else LeadingSpaces(s, i + 1)
  }

  /** LeadingSpaces stops at the first non-space character. */
  lemma {:induction false} LeadingSpacesAt(s: string, i: nat, k: nat)
    requires i <= k < |s| && AllSpace(s[i..k]) && !IsSpace(s[k])
    ensures LeadingSpaces(s, i) == k
    decreases k - i
  {
    if i < k {
      assert IsSpace(s[i..k][0]);
      assert s[i + 1..k] == s[i..k][1..];
      LeadingSpacesAt(s, i + 1, k);
    }
  }

  /** The least end j with lo <= j <= hi such that s[j..hi] is all space. */
  function TrailingEnd(s: string, lo: nat, hi: nat): (j: nat)
    requires lo <= hi <= |s|
    ensures lo <= j <= hi
    ensures AllSpace(s[j..hi])
    ensures lo < j ==> !IsSpace(s[j - 1])
    decreases hi - lo
  {
    if hi == lo || !IsSpace(s[hi - 1]) then hi
    else
      var j := TrailingEnd(s, lo, hi - 1);
      assert s[j..hi] == s[j..hi - 1] + [s[hi - 1]];
      j
  }

  function Trim(s: string): (r: string)
    ensures |r| == 0 || (!IsSpace(r[0]) && !IsSpace(r[|r| - 1]))
  {
    var b := TrimBounds(s);
    s[b.0..b.1]
  }

  lemma TrimOfClean(s: string)
    requires |s| == 0 || (!IsSpace(s[0]) && !IsSpace(s[|s| - 1]))
    ensures Trim(s) == s
  {
  }

  lemma {:induction false} TrimPadded(s: string)
    requires |s| > 0 && IsSpace(s[0])
    ensures Trim(s) == Trim(s[1..])
  {
    assert LeadingSpaces(s, 1) == LeadingSpaces(s, 0);
    var lo := LeadingSpaces(s, 1);
    var lo' := LeadingSpaces(s[1..], 0);
    LeadingShift(s, 1, 0);
    TrailingShift(s, lo, |s|);
  }

  lemma {:induction false} LeadingShift(s: string, i: nat, j: nat)
    requires 1 <= i <= |s| && j + 1 == i
    ensures LeadingSpaces(s, i) == LeadingSpaces(s[1..], j) + 1
    decreases |s| - i
  {
    if i < |s| && IsSpace(s[i]) {
      LeadingShift(s, i + 1, j + 1);
    }
  }

  lemma {:induction false} TrailingShift(s: string, lo: nat, hi: nat)
    requires 1 <= lo <= hi <= |s|
    ensures TrailingEnd(s, lo, hi) == TrailingEnd(s[1..], lo - 1, hi - 1) + 1
    decreases hi - lo
  {
    if hi != lo && IsSpace(s[hi - 1]) {
      TrailingShift(s, lo, hi - 1);
    }
  }

  function DigitChar(d: nat): char
    requires d < 10
  {
    "0123456789"[d]
  }

  /** The decimal text of a natural number, as a template literal prints it. */
  function NatToString(n: nat): (r: string)
    ensures |r| > 0
    decreases n
  {
    if n < 10 then [DigitChar(n)] else NatToString(n / 10) + [DigitChar(n % 10)]
  }

  /** The value of a decimal text, read left to right. */
  function DecimalValue(s: string): int {
    if |s| == 0 then 0 else DecimalValue(s[..|s| - 1]) * 10 + (s[|s| - 1] as int - '0' as int)
  }

  lemma DigitValue(d: nat)
    requires d < 10
    ensures DigitChar(d) as int - '0' as int == d
  {
  }

  /** Printing a number and reading it back gives the number. */
  lemma {:induction false} NatToStringRoundTrip(n: nat)
    ensures DecimalValue(NatToString(n)) == n
  {
    if n < 10 {
      DigitValue(n);
      assert [DigitChar(n)][..0] == [];
    } else {
      NatToStringRoundTrip(n / 10);
      DigitValue(n % 10);
      var s := NatToString(n / 10) + [DigitChar(n % 10)];
      assert s[..|s| - 1] == NatToString(n / 10);
    }
  }

  /** Different numbers print differently. */
  lemma NatToStringInjective(m: nat, n: nat)
    requires m != n
    ensures NatToString(m) != NatToString(n)
  {
    NatToStringRoundTrip(m);
    NatToStringRoundTrip(n);
  }
}
