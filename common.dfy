/** Shared vocabulary: failure-carrying datatypes, the character classes of
    JavaScript regular expressions and String.prototype.trim, and the string
    helpers (split, join, trim, decimal rendering) the configuration code uses. */
module Common {

  datatype Option<+T> = None | Some(value: T)

  datatype Result<+T, +E> = Ok(value: T) | Err(error: E)

  /** `\d` */
  predicate IsDigit(c: char) { '0' <= c <= '9' }

  /** `\w` */
  predicate IsWordChar(c: char) {
    'a' <= c <= 'z' || 'A' <= c <= 'Z' || IsDigit(c) || c == '_'
  }

  /** ECMAScript LineTerminator: the characters `.` refuses to match. */
  predicate IsLineTerminator(c: char) {
    c == '\n' || c == '\r' || c == '\U{2028}' || c == '\U{2029}'
  }

  /** ECMAScript WhiteSpace plus LineTerminator: what `\s` matches and what
      `trim()` removes (the same set). */
  predicate IsSpace(c: char) {
    var n := c as int;
    n == 0x09 || n == 0x0B || n == 0x0C || n == 0x20 || n == 0xA0 || n == 0xFEFF
    || n == 0x1680 || (0x2000 <= n <= 0x200A) || n == 0x202F || n == 0x205F || n == 0x3000
    || IsLineTerminator(c)
  }

  predicate AllWordChars(s: string) { forall i :: 0 <= i < |s| ==> IsWordChar(s[i]) }

  /** `/^\d+$/.test(s)` */
  predicate AllDigits(s: string) { |s| > 0 && forall i :: 0 <= i < |s| ==> IsDigit(s[i]) }

  predicate NoSpace(s: string) { forall i :: 0 <= i < |s| ==> !IsSpace(s[i]) }

  predicate StartsWith(s: string, prefix: string) {
    |prefix| <= |s| && s[..|prefix|] == prefix
  }

  function DigitChar(d: nat): (c: char)
    requires d < 10
    ensures IsDigit(c)
  {
    ['0', '1', '2', '3', '4', '5', '6', '7', '8', '9'][d]
  }

  function DigitValue(c: char): (d: nat)
    requires IsDigit(c)
    ensures d < 10 && DigitChar(d) == c
  {
    (c as int - '0' as int) as nat
  }

  /** Decimal rendering of a natural number, as `String(n)` or a template
      literal produces it. */
  function NatToString(n: nat): (s: string)
    ensures AllDigits(s)
    decreases n
  {
    if n < 10 then [DigitChar(n)] else NatToString(n / 10) + [DigitChar(n % 10)]
  }

  /** `String(i)` for an integer. */
  function IntToString(i: int): string {
    if i < 0 then "-" + NatToString(-i) else NatToString(i)
  }

  /** The value of a run of decimal digits, as `parseInt(s, 10)` reads it. */
  function DigitsValue(s: string): nat
    requires forall i :: 0 <= i < |s| ==> IsDigit(s[i])
  {
    if |s| == 0 then 0 else DigitsValue(s[..|s| - 1]) * 10 + DigitValue(s[|s| - 1])
  }

  /** Reading back a rendered number gives the number. */
  lemma {:induction false} DigitsValueOfNatToString(n: nat)
    ensures DigitsValue(NatToString(n)) == n
    decreases n
  {
    var s := NatToString(n);
    if n >= 10 {
      DigitsValueOfNatToString(n / 10);
      assert s[..|s| - 1] == NatToString(n / 10);
    }
  }

  /** Rendering is injective. */
  lemma NatToStringInjective(a: nat, b: nat)
    requires NatToString(a) == NatToString(b)
    ensures a == b
  {
    DigitsValueOfNatToString(a);
    DigitsValueOfNatToString(b);
  }

  /** `s.split(sep)`: never empty, and the empty string splits to `[""]`. */
  function Split(s: string, sep: char): (r: seq<string>)
    ensures |r| >= 1
  {
    if |s| == 0 then [""]
    else
      var rest := Split(s[1..], sep);
      if s[0] == sep then [""] + rest else [[s[0]] + rest[0]] + rest[1..]
  }

  /** `parts.join(sep)` */
  function Join(parts: seq<string>, sep: string): string {
    if |parts| == 0 then ""
    else if |parts| == 1 then parts[0]
    else parts[0] + sep + Join(parts[1..], sep)
  }

  lemma {:induction false} SplitNoSep(s: string, sep: char)
    requires sep !in s
    ensures Split(s, sep) == [s]
  {
    if |s| > 0 {
      SplitNoSep(s[1..], sep);
      assert [s[0]] + s[1..] == s;
    }
  }

  lemma Associative<T>(a: seq<T>, b: seq<T>, c: seq<T>)
    ensures a + b + c == a + (b + c)
  {
  }

  /** One step of `split`: the first character either ends the first piece or
      joins it. */
  lemma SplitCons(c: char, t: string, sep: char)
    ensures Split([c] + t, sep) ==
      if c == sep then [""] + Split(t, sep) else [[c] + Split(t, sep)[0]] + Split(t, sep)[1..]
  {
    assert ([c] + t)[0] == c && ([c] + t)[1..] == t;
  }

  /** Splitting distributes over a separator: `(a + sep + b).split(sep)` is
      `a.split(sep)` followed by `b.split(sep)`. */
  lemma {:induction false} SplitAround(a: string, sep: char, b: string)
    ensures Split(a + [sep] + b, sep) == Split(a, sep) + Split(b, sep)
    decreases |a|
  {
    if |a| == 0 {
      assert a + [sep] + b == [sep] + b;
      SplitCons(sep, b, sep);
    } else {
      var t := a[1..];
      ConsShift(a, [sep] + b);
      assert a + [sep] + b == a + ([sep] + b) && t + [sep] + b == t + ([sep] + b);
      SplitAround(t, sep, b);
      SplitCons(a[0], t + [sep] + b, sep);
      SplitCons(a[0], t, sep);
      SplitConsAppend(a[0], Split(t, sep), Split(b, sep), sep);
    }
  }

  lemma ConsShift<T>(a: seq<T>, b: seq<T>)
    requires |a| > 0
    ensures a == [a[0]] + a[1..] && a + b == [a[0]] + (a[1..] + b)
  {
  }

  /** The first piece of a split absorbs a leading non-separator, also when more
      pieces follow. */
  lemma SplitConsAppend(c: char, rt: seq<string>, sb: seq<string>, sep: char)
    requires |rt| >= 1
    ensures (if c == sep then [""] + (rt + sb) else [[c] + (rt + sb)[0]] + (rt + sb)[1..]) ==
      (if c == sep then [""] + rt else [[c] + rt[0]] + rt[1..]) + sb
  {
    if c != sep {
      assert (rt + sb)[0] == rt[0];
      assert (rt + sb)[1..] == rt[1..] + sb;
    }
  }

  /** Joining lines that hold no separator and splitting again gives them back. */
  lemma {:induction false} SplitJoin(parts: seq<string>, sep: char)
    requires |parts| >= 1
    requires forall i :: 0 <= i < |parts| ==> sep !in parts[i]
    ensures Split(Join(parts, [sep]), sep) == parts
  {
    if |parts| == 1 {
      SplitNoSep(parts[0], sep);
    } else {
      SplitJoin(parts[1..], sep);
      SplitNoSep(parts[0], sep);
      SplitAround(parts[0], sep, Join(parts[1..], [sep]));
      assert [parts[0]] + parts[1..] == parts;
    }
  }

  /** A non-empty sequence is its prefix followed by its last element. */
  lemma LastSplit<T>(s: seq<T>)
    requires |s| > 0
    ensures s == s[..|s| - 1] + [s[|s| - 1]]
  {
  }

  /** The prefix and the last element of a sequence with one element added. */
  lemma SnocParts<T>(p: seq<T>, x: T)
    ensures (p + [x])[..|p|] == p && (p + [x])[|p|] == x
  {
  }

  /** An element of a sequence with one element added. */
  lemma SnocAt<T>(p: seq<T>, x: T, j: nat)
    requires j <= |p|
    ensures (p + [x])[j] == if j < |p| then p[j] else x
  {
  }

  /** A prefix of a prefix is a prefix, and agrees with the whole below its
      length. */
  lemma PrefixOfPrefix<T>(s: seq<T>, n: nat, j: nat)
    requires j <= n <= |s|
    ensures s[..n][..j] == s[..j] && (j < n ==> s[..n][j] == s[j])
  {
  }

  /** Dropping the last element of a concatenation drops it from the second part. */
  lemma AppendDropLast<T>(a: seq<T>, b: seq<T>)
    requires |b| > 0
    ensures (a + b)[..|a + b| - 1] == a + b[..|b| - 1] && (a + b)[|a + b| - 1] == b[|b| - 1]
  {
  }

  /** Joining the first piece after one more character shifts that character
      to the front. */
  lemma JoinCons(c: char, parts: seq<string>, sep: string)
    requires |parts| >= 1
    ensures Join([[c] + parts[0]] + parts[1..], sep) == [c] + Join(parts, sep)
  {
    var q := [[c] + parts[0]] + parts[1..];
    assert q[0] == [c] + parts[0] && q[1..] == parts[1..];
  }

  /** `s.split(sep).join(sep)` gives `s` back: splitting loses nothing. */
  lemma {:induction false} JoinSplit(s: string, sep: char)
    ensures Join(Split(s, sep), [sep]) == s
    decreases |s|
  {
    if |s| > 0 {
      var rest := Split(s[1..], sep);
      JoinSplit(s[1..], sep);
      if s[0] == sep {
        var q := [""] + rest;
        assert q[0] == "" && q[1..] == rest;
        assert s == [sep] + s[1..];
      } else {
        JoinCons(s[0], rest, [sep]);
        assert s == [s[0]] + s[1..];
      }
    }
  }

  function TrimStart(s: string): (r: string)
    ensures |r| <= |s|
  {
    if |s| > 0 && IsSpace(s[0]) then TrimStart(s[1..]) else s
  }

  function TrimEnd(s: string): (r: string)
    ensures |r| <= |s|
  {
    if |s| > 0 && IsSpace(s[|s| - 1]) then TrimEnd(s[..|s| - 1]) else s
  }

  /** `s.trim()` */
  function Trim(s: string): (r: string)
    ensures r == "" || (!IsSpace(r[0]) && !IsSpace(r[|r| - 1]))
  {
    TrimStartShape(s);
    TrimEndKeepsStart(TrimStart(s));
    TrimEnd(TrimStart(s))
  }

  lemma {:induction false} TrimStartShape(s: string)
    ensures TrimStart(s) == "" || !IsSpace(TrimStart(s)[0])
  {
    if |s| > 0 && IsSpace(s[0]) { TrimStartShape(s[1..]); }
  }

  lemma {:induction false} TrimEndKeepsStart(s: string)
    ensures TrimEnd(s) == "" || !IsSpace(TrimEnd(s)[|TrimEnd(s)| - 1])
    ensures (s == "" || !IsSpace(s[0])) ==> (TrimEnd(s) == "" || TrimEnd(s)[0] == s[0])
    ensures TrimStart(s) == s ==> (TrimEnd(s) == "" || !IsSpace(TrimEnd(s)[0]))
  {
    if |s| > 0 && IsSpace(s[|s| - 1]) {
      TrimEndKeepsStart(s[..|s| - 1]);
      if |s| > 1 && !IsSpace(s[0]) {
        assert TrimStart(s[..|s| - 1]) == s[..|s| - 1];
      }
    }
  }

  /** Trimming leaves alone a string whose ends are not white space, and removes
      one leading tab in front of such a string. */
  lemma TrimTabbed(prefix: string, s: string)
    requires forall i :: 0 <= i < |prefix| ==> IsSpace(prefix[i])
    requires |s| > 0 && !IsSpace(s[0]) && !IsSpace(s[|s| - 1])
    ensures Trim(prefix + s) == s
  {
    TrimStartPrefix(prefix, s);
  }

  lemma {:induction false} TrimStartPrefix(prefix: string, s: string)
    requires forall i :: 0 <= i < |prefix| ==> IsSpace(prefix[i])
    requires |s| > 0 && !IsSpace(s[0])
    ensures TrimStart(prefix + s) == s
  {
    if |prefix| > 0 {
      assert (prefix + s)[1..] == prefix[1..] + s;
      TrimStartPrefix(prefix[1..], s);
    } else {
      assert prefix + s == s;
    }
  }

  lemma TrimBlank(s: string)
    requires forall i :: 0 <= i < |s| ==> IsSpace(s[i])
    ensures Trim(s) == ""
  {
    TrimStartAllSpace(s);
  }

  lemma {:induction false} TrimStartAllSpace(s: string)
    requires forall i :: 0 <= i < |s| ==> IsSpace(s[i])
    ensures TrimStart(s) == ""
  {
    if |s| > 0 { TrimStartAllSpace(s[1..]); }
  }
}
