/**
 * The slice of Python's `str` behaviour the scripts rely on: `strip`,
 * `rstrip("\n")`, `lower`, `in`, `startswith`, `split(sep)`, `split()`,
 * `replace(",", "")`, `count`, decimal rendering of integers and the
 * `int(str)` conversion.  Letters and digits are ASCII; whitespace is the
 * set of code points Python's `str.isspace` accepts.
 */
module Text {
  import opened Wrappers

  // ---------------------------------------------------------------------
  // Characters

  /** Python's `str.isspace` on one code point. */
  predicate IsSpace(c: char) {
    c == ' ' || ('\t' <= c <= '\r') || ('\U{1c}' <= c <= '\U{1f}')
    || c == '\U{85}' || c == '\U{a0}' || c == '\U{1680}'
    || ('\U{2000}' <= c <= '\U{200a}') || c == '\U{2028}' || c == '\U{2029}'
    || c == '\U{202f}' || c == '\U{205f}' || c == '\U{3000}'
  }

  predicate IsDigit(c: char) {
    '0' <= c <= '9'
  }

  predicate AllDigits(s: string) {
    forall i :: 0 <= i < |s| ==> IsDigit(s[i])
  }

  function LowerChar(c: char): char {
    if 'A' <= c <= 'Z' then (c as int + 32) as char else c
  }

  /** `s.lower()` */
  function Lower(s: string): (r: string)
    ensures |r| == |s|
    ensures forall i :: 0 <= i < |s| ==> r[i] == LowerChar(s[i])
  {
    seq(|s|, i requires 0 <= i < |s| => LowerChar(s[i]))
  }

  // ---------------------------------------------------------------------
  // Stripping

  /** `s.lstrip()` */
  function LStrip(s: string): (r: string)
    ensures |r| <= |s| && r == s[|s| - |r|..]
    ensures r == [] || !IsSpace(r[0])
    ensures forall i :: 0 <= i < |s| - |r| ==> IsSpace(s[i])
  {
    if |s| > 0 && IsSpace(s[0]) then LStrip(s[1..]) else s
  }

  /** `s.strip()`: the part of `s` between its leading and trailing whitespace. */
  function Strip(s: string): (r: string)
    ensures |r| <= |s|
    ensures r == [] || (!IsSpace(r[0]) && !IsSpace(r[|r| - 1]))
    ensures r == [] <==> forall i :: 0 <= i < |s| ==> IsSpace(s[i])
    decreases |s|
  {
    if |s| > 0 && IsSpace(s[0]) then
      var r := Strip(s[1..]);
      assert (forall i :: 0 <= i < |s| - 1 ==> IsSpace(s[1..][i])) ==> forall i :: 0 <= i < |s| ==> IsSpace(s[i]) by {
        if forall i :: 0 <= i < |s| - 1 ==> IsSpace(s[1..][i]) {
          forall i | 0 <= i < |s| ensures IsSpace(s[i]) {
            if i > 0 {
              assert s[i] == s[1..][i - 1];
            }
          }
        }
      }
      r
    else if |s| > 0 && IsSpace(s[|s| - 1]) then
      var r := Strip(s[..|s| - 1]);
      assert s[..|s| - 1][0] == s[0];
      r
    else
      s
  }

  /** `r` sits at offset `a` of `s`, with only whitespace before and after it. */
  ghost predicate MiddleAt(s: string, r: string, a: int) {
    0 <= a <= |s| - |r| && r == s[a..a + |r|]
    && (forall i :: 0 <= i < a ==> IsSpace(s[i]))
    && (forall i :: a + |r| <= i < |s| ==> IsSpace(s[i]))
  }

  /** `s.strip()` is `s` with a leading and a trailing whitespace run cut off. */
  lemma {:induction false} StripMiddle(s: string)
    ensures exists a :: MiddleAt(s, Strip(s), a)
    decreases |s|
  {
    var r := Strip(s);
    if |s| > 0 && IsSpace(s[0]) {
      StripMiddle(s[1..]);
      var a :| MiddleAt(s[1..], r, a);
      MiddleAtFront(s, r, a);
    } else if |s| > 0 && IsSpace(s[|s| - 1]) {
      StripMiddle(s[..|s| - 1]);
      var a :| MiddleAt(s[..|s| - 1], r, a);
      MiddleAtBack(s, r, a);
    } else {
      assert s[0..|s|] == s;
      assert MiddleAt(s, r, 0);
    }
  }

  lemma {:induction false} MiddleAtFront(s: string, r: string, a: int)
    requires |s| > 0 && IsSpace(s[0]) && MiddleAt(s[1..], r, a)
    ensures MiddleAt(s, r, a + 1)
  {
    var t := s[1..];
    assert t[a..a + |r|] == s[a + 1..a + 1 + |r|];
    forall i | 0 <= i < a + 1 ensures IsSpace(s[i]) {
      if i > 0 { assert s[i] == t[i - 1]; }
    }
    forall i | a + 1 + |r| <= i < |s| ensures IsSpace(s[i]) {
      assert s[i] == t[i - 1];
    }
  }

  lemma {:induction false} MiddleAtBack(s: string, r: string, a: int)
    requires |s| > 0 && IsSpace(s[|s| - 1]) && MiddleAt(s[..|s| - 1], r, a)
    ensures MiddleAt(s, r, a)
  {
    var t := s[..|s| - 1];
    assert t[a..a + |r|] == s[a..a + |r|];
    forall i | 0 <= i < a ensures IsSpace(s[i]) {
      assert s[i] == t[i];
    }
    forall i | a + |r| <= i < |s| ensures IsSpace(s[i]) {
      if i < |s| - 1 { assert s[i] == t[i]; }
    }
  }

  lemma {:induction false} StripOfNoSpace(s: string)
    requires s == [] || (!IsSpace(s[0]) && !IsSpace(s[|s| - 1]))
    ensures Strip(s) == s
  {
  }

  /** A character that is not whitespace survives `strip()`. */
  lemma {:induction false} StripKeeps(s: string, k: int)
    requires 0 <= k < |s| && !IsSpace(s[k])
    ensures s[k] in Strip(s)
  {
    StripMiddle(s);
    var a :| MiddleAt(s, Strip(s), a);
    assert Strip(s)[k - a] == s[k];
  }

  /** `s.rstrip("\n")` */
  function RStripNewlines(s: string): (r: string)
    ensures |r| <= |s| && r == s[..|r|]
    ensures r == [] || r[|r| - 1] != '\n'
  {
    if |s| > 0 && s[|s| - 1] == '\n' then RStripNewlines(s[..|s| - 1]) else s
  }

  // ---------------------------------------------------------------------
  // Searching

  predicate StartsWith(s: string, prefix: string) {
    |prefix| <= |s| && s[..|prefix|] == prefix
  }

  /** Python's `sub in s`. */
  predicate Contains(s: string, sub: string)
    decreases |s|
  {
    StartsWith(s, sub) || (|s| > 0 && Contains(s[1..], sub))
  }

  lemma {:induction false} ContainsAt(s: string, sub: string, i: nat)
    requires i + |sub| <= |s| && s[i..i + |sub|] == sub
    ensures Contains(s, sub)
    decreases i
  {
    if i > 0 {
      assert s[1..][i - 1..i - 1 + |sub|] == sub;
      ContainsAt(s[1..], sub, i - 1);
    }
  }

  lemma {:induction false} ContainsWitness(s: string, sub: string) returns (i: nat)
    requires Contains(s, sub)
    ensures i + |sub| <= |s| && s[i..i + |sub|] == sub
    decreases |s|
  {
    if StartsWith(s, sub) {
      i := 0;
    } else {
      var j := ContainsWitness(s[1..], sub);
      i := j + 1;
      assert s[i..i + |sub|] == s[1..][j..j + |sub|];
    }
  }

  /** `s.count(c)` for a one-character needle. */
  function Count(s: string, c: char): nat {
    if s == [] then 0 else Count(s[..|s| - 1], c) + (if s[|s| - 1] == c then 1 else 0)
  }

  /** `s.replace(c, "")` for a one-character needle. */
  function RemoveChar(s: string, c: char): (r: string)
    ensures c !in r
    ensures |r| + Count(s, c) == |s|
  {
    if s == [] then [] else RemoveChar(s[..|s| - 1], c) + (if s[|s| - 1] == c then [] else [s[|s| - 1]])
  }

  // ---------------------------------------------------------------------
  // Splitting and joining

  function IndexOf(s: string, c: char): (i: nat)
    requires c in s
    ensures i < |s| && s[i] == c && c !in s[..i]
  {
    if s[0] == c then 0 else 1 + IndexOf(s[1..], c)
  }

  lemma {:induction false} IndexOfUnique(s: string, c: char, j: nat)
    requires j < |s| && s[j] == c && c !in s[..j]
    ensures IndexOf(s, c) == j
  {
    if j > 0 {
      assert s[0] in s[..j];
      assert s[1..][..j - 1] == s[..j][1..];
      IndexOfUnique(s[1..], c, j - 1);
    }
  }

  /** `s.split(sep)` for a one-character separator: empty fields are kept. */
  function Split(s: string, sep: char): (parts: seq<string>)
    ensures |parts| >= 1
    ensures forall k :: 0 <= k < |parts| ==> sep !in parts[k]
    decreases |s|
  {
    if sep !in s then [s]
    else
      var i := IndexOf(s, sep);
      [s[..i]] + Split(s[i + 1..], sep)
  }

  /** `sep.join(parts)` */
  function Join(parts: seq<string>, sep: char): string
    requires |parts| >= 1
  {
    if |parts| == 1 then parts[0] else parts[0] + [sep] + Join(parts[1..], sep)
  }

  /** Splitting and re-joining on the same separator gives back the text. */
  lemma {:induction false} JoinSplit(s: string, sep: char)
    ensures Join(Split(s, sep), sep) == s
    decreases |s|
  {
    if sep in s {
      var i := IndexOf(s, sep);
      var rest := Split(s[i + 1..], sep);
      assert Split(s, sep) == [s[..i]] + rest;
      assert ([s[..i]] + rest)[1..] == rest;
      assert Join(Split(s, sep), sep) == s[..i] + [sep] + Join(rest, sep);
      JoinSplit(s[i + 1..], sep);
      assert s == s[..i] + [sep] + s[i + 1..];
    }
  }

  /** Joining fields that do not contain the separator and splitting again gives the fields. */
  lemma {:induction false} SplitJoin(parts: seq<string>, sep: char)
    requires |parts| >= 1
    requires forall k :: 0 <= k < |parts| ==> sep !in parts[k]
    ensures Split(Join(parts, sep), sep) == parts
    decreases |parts|
  {
    if |parts| > 1 {
      var s := Join(parts, sep);
      assert s == parts[0] + [sep] + Join(parts[1..], sep);
      assert s[|parts[0]|] == sep;
      assert sep in s;
      assert s[..|parts[0]|] == parts[0];
      IndexOfUnique(s, sep, |parts[0]|);
      assert s[|parts[0]| + 1..] == Join(parts[1..], sep);
      SplitJoin(parts[1..], sep);
    }
  }

  /** Length of the run of non-whitespace characters at the start of `s`. */
  function WordLen(s: string): (n: nat)
    ensures n <= |s|
    ensures forall i :: 0 <= i < n ==> !IsSpace(s[i])
    ensures n == |s| || IsSpace(s[n])
  {
    if s == [] || IsSpace(s[0]) then 0 else 1 + WordLen(s[1..])
  }

  /** A non-empty run of non-whitespace characters. */
  ghost predicate IsWord(w: string) {
    w != [] && forall i :: 0 <= i < |w| ==> !IsSpace(w[i])
  }

  /** `s.split()`: the maximal runs of non-whitespace characters. */
  function Words(s: string): (ws: seq<string>)
    ensures forall k :: 0 <= k < |ws| ==> IsWord(ws[k])
    decreases |s|
  {
    var t := LStrip(s);
    if t == [] then []
    else
      var n := WordLen(t);
      var w := t[..n];
      var rest := Words(t[n..]);
      assert IsWord(w);
      assert forall k :: 0 < k < 1 + |rest| ==> ([w] + rest)[k] == rest[k - 1];
      [w] + rest
  }

  /** A text whose first character is not whitespace starts with its first word. */
  lemma {:induction false} WordsHead(s: string)
    requires s != [] && !IsSpace(s[0])
    ensures Words(s) != [] && Words(s)[0] == s[..WordLen(s)]
  {
  }

  /** A single word splits into itself. */
  lemma {:induction false} WordsOfWord(w: string)
    requires IsWord(w)
    ensures Words(w) == [w]
  {
    assert WordLen(w) == |w|;
    assert w[..|w|] == w;
    assert w[|w|..] == [];
  }

  // ---------------------------------------------------------------------
  // Decimal numbers

  function DigitValue(c: char): nat
    requires IsDigit(c)
  {
    c as int - '0' as int
  }

  function DigitChar(d: nat): (c: char)
    requires d < 10
    ensures IsDigit(c) && DigitValue(c) == d
  {
    ('0' as int + d) as char
  }

  /** The value of a string of decimal digits, most significant first. */
  function DigitsValue(s: string): nat
    requires AllDigits(s)
  {
    if s == [] then 0 else DigitsValue(s[..|s| - 1]) * 10 + DigitValue(s[|s| - 1])
  }

  /** `str(n)` for a natural number: no sign, no leading zero. */
  function NatToString(n: nat): (s: string)
    ensures s != [] && AllDigits(s)
    ensures |s| > 1 ==> s[0] != '0'
  {
    if n < 10 then [DigitChar(n)] else NatToString(n / 10) + [DigitChar(n % 10)]
  }

  /** `str(i)` for an integer. */
  function IntToString(i: int): (s: string)
    ensures s != []
  {
    if i < 0 then "-" + NatToString(-i) else NatToString(i)
  }

  /** Reading back the digits that `str` printed gives the number. */
  lemma {:induction false} NatToStringRoundTrip(n: nat)
    ensures DigitsValue(NatToString(n)) == n
  {
    if n >= 10 {
      var s := NatToString(n);
      assert s[..|s| - 1] == NatToString(n / 10);
      NatToStringRoundTrip(n / 10);
    }
  }

  /** Length of the run of digits at the start of `s`. */
  function DigitRun(s: string): (n: nat)
    ensures n <= |s| && AllDigits(s[..n])
    ensures n == |s| || !IsDigit(s[n])
  {
    if s == [] || !IsDigit(s[0]) then 0 else 1 + DigitRun(s[1..])
  }

  lemma {:induction false} DigitRunAll(s: string)
    requires AllDigits(s)
    ensures DigitRun(s) == |s|
  {
  }

  /** A run of digits followed by a non-digit (or by nothing) is read up to its end. */
  lemma {:induction false} DigitRunOfRun(d: string, q: string)
    requires AllDigits(d) && (q == [] || !IsDigit(q[0]))
    ensures DigitRun(d + q) == |d|
    decreases |d|
  {
    if d == [] {
      assert d + q == q;
    } else {
      assert (d + q)[1..] == d[1..] + q;
      assert AllDigits(d[1..]) by {
        assert forall i :: 0 <= i < |d[1..]| ==> d[1..][i] == d[i + 1];
      }
      DigitRunOfRun(d[1..], q);
    }
  }

  /**
   * The body of a base-10 literal that Python's `int()` accepts:
   * digits, with single underscores allowed between two digits.
   */
  predicate DigitGroups(s: string)
    decreases |s|
  {
    && |s| > 0
    && IsDigit(s[|s| - 1])
    && (|s| == 1 || if s[|s| - 2] == '_' then DigitGroups(s[..|s| - 2]) else DigitGroups(s[..|s| - 1]))
  }

  /** Any other character survives `replace(c, "")`. */
  lemma {:induction false} RemoveCharKeeps(s: string, c: char, k: int)
    requires 0 <= k < |s| && s[k] != c
    ensures s[k] in RemoveChar(s, c)
    decreases |s|
  {
    var p := s[..|s| - 1];
    if k < |s| - 1 {
      assert p[k] == s[k];
      RemoveCharKeeps(p, c, k);
    }
  }

  lemma {:induction false} RemoveCharAbsent(s: string, c: char)
    requires forall i :: 0 <= i < |s| ==> s[i] != c
    ensures RemoveChar(s, c) == s
  {
    if s != [] {
      var p := s[..|s| - 1];
      assert forall i :: 0 <= i < |p| ==> p[i] == s[i];
      RemoveCharAbsent(p, c);
      assert s == p + [s[|s| - 1]];
    }
  }

  /** The value of an accepted literal body: its digits, the underscores skipped. */
  function GroupsValue(s: string): nat
    requires DigitGroups(s)
    decreases |s|
  {
    var d := DigitValue(s[|s| - 1]);
    if |s| == 1 then d
    else if s[|s| - 2] == '_' then GroupsValue(s[..|s| - 2]) * 10 + d
    else GroupsValue(s[..|s| - 1]) * 10 + d
  }

  /** A non-empty run of digits is an accepted body, worth its decimal value. */
  lemma {:induction false} GroupsOfDigits(s: string)
    requires s != [] && AllDigits(s)
    ensures DigitGroups(s) && GroupsValue(s) == DigitsValue(s)
    decreases |s|
  {
    if |s| > 1 {
      var p := s[..|s| - 1];
      assert AllDigits(p) by {
        assert forall i :: 0 <= i < |p| ==> p[i] == s[i];
      }
      assert s[|s| - 2] == p[|p| - 1];
      GroupsOfDigits(p);
    }
  }

  /** Python's `int(s)` on a string in base 10; `None` where Python raises `ValueError`. */
  function ParseInt(s: string): Option<int> {
    var t := Strip(s);
    if |t| > 1 && (t[0] == '-' || t[0] == '+') && DigitGroups(t[1..]) then
      var v: int := GroupsValue(t[1..]);
      Some(if t[0] == '-' then -v else v)
    else if DigitGroups(t) then
      Some(GroupsValue(t))
    else
      None
  }

  /** The characters `int()` can accept: digits, a sign, and the underscore. */
  predicate IntChar(c: char) {
    IsDigit(c) || c == '+' || c == '-' || c == '_'
  }

  /** An accepted literal body holds only digits and underscores. */
  lemma {:induction false} GroupsChars(s: string)
    requires DigitGroups(s)
    ensures forall k :: 0 <= k < |s| ==> IsDigit(s[k]) || s[k] == '_'
    decreases |s|
  {
    if |s| > 1 {
      var p := if s[|s| - 2] == '_' then s[..|s| - 2] else s[..|s| - 1];
      GroupsChars(p);
      assert forall k :: 0 <= k < |p| ==> p[k] == s[k];
    }
  }

  /**
   * What `int()` accepts, stripped, is a sign or digit followed by digits
   * and underscores; text holding any other character raises `ValueError`.
   */
  lemma {:induction false} ParseIntAccepts(s: string)
    requires ParseInt(s).Some?
    ensures forall k :: 0 <= k < |Strip(s)| ==> IntChar(Strip(s)[k])
    ensures forall k :: 0 < k < |Strip(s)| ==> IsDigit(Strip(s)[k]) || Strip(s)[k] == '_'
  {
    var t := Strip(s);
    if |t| > 1 && (t[0] == '-' || t[0] == '+') && DigitGroups(t[1..]) {
      GroupsChars(t[1..]);
      assert forall k :: 0 < k < |t| ==> t[k] == t[1..][k - 1];
    } else {
      GroupsChars(t);
    }
  }

  /** The digits `str` prints for a natural number are read back by `int()`. */
  lemma {:induction false} NatToStringGroups(n: nat)
    ensures DigitGroups(NatToString(n)) && GroupsValue(NatToString(n)) == n
  {
    NatToStringRoundTrip(n);
    GroupsOfDigits(NatToString(n));
  }

  lemma {:induction false} ParseIntOfDigits(d: string)
    requires DigitGroups(d) && IsDigit(d[0])
    ensures ParseInt(d) == Some(GroupsValue(d) as int)
  {
    StripOfNoSpace(d);
  }

  lemma {:induction false} ParseIntOfNegDigits(d: string)
    requires DigitGroups(d) && IsDigit(d[0])
    ensures ParseInt("-" + d) == Some(-(GroupsValue(d) as int))
  {
    var s := "-" + d;
    assert s[1..] == d;
    assert |s| > 1 && s[0] == '-' && s[|s| - 1] == d[|d| - 1];
    StripOfNoSpace(s);
    assert DigitGroups(Strip(s)[1..]);
  }

  /** `int(str(i)) == i` */
  lemma {:induction false} ParseIntOfIntToString(i: int)
    ensures ParseInt(IntToString(i)) == Some(i)
  {
    var n: nat := if i < 0 then -i else i;
    var d := NatToString(n);
    NatToStringGroups(n);
    if i < 0 {
      ParseIntOfNegDigits(d);
    } else {
      ParseIntOfDigits(d);
    }
  }

  lemma {:induction false} AllDigitsAppend(a: string, b: string)
    requires AllDigits(a) && AllDigits(b)
    ensures AllDigits(a + b)
  {
    assert forall k :: 0 <= k < |a + b| ==> (a + b)[k] == if k < |a| then a[k] else b[k - |a|];
  }

  /** `int(d)` of a run of digits is its decimal value. */
  lemma {:induction false} ParseIntOfAllDigits(d: string)
    requires d != [] && AllDigits(d)
    ensures ParseInt(d) == Some(DigitsValue(d) as int)
  {
    GroupsOfDigits(d);
    ParseIntOfDigits(d);
  }

  /** Removing `c` from `a + [c] + b` where neither part holds `c` leaves `a + b`. */
  lemma {:induction false} RemoveCharSplit(a: string, b: string, c: char)
    requires RemoveChar(a, c) == a && RemoveChar(b, c) == b
    ensures RemoveChar(a + [c] + b, c) == a + b
  {
    assert RemoveChar([c], c) == [] by {
      assert [c][..0] == [];
    }
    RemoveCharAppend(a, [c], c);
    assert RemoveChar(a + [c], c) == a;
    RemoveCharAppend(a + [c], b, c);
  }

  lemma {:induction false} RemoveCharAppend(a: string, b: string, c: char)
    ensures RemoveChar(a + b, c) == RemoveChar(a, c) + RemoveChar(b, c)
    decreases |b|
  {
    if b == [] {
      assert a + b == a;
    } else {
      assert (a + b)[..|a + b| - 1] == a + b[..|b| - 1];
      RemoveCharAppend(a, b[..|b| - 1], c);
    }
  }
}
