/** The string operations the object keys and command outputs are built and
    parsed with: Python's str.split/join on one separator, str.startswith,
    `in`, str.strip, str()/int() on integers, and pathlib's Path(key).stem. */
module Strings {
  import opened Wrappers

  predicate StartsWith(s: string, prefix: string) {
    |prefix| <= |s| && s[..|prefix|] == prefix
  }

  /** `sub` occurs in `s` starting at position `i`. */
  predicate OccursAt(s: string, sub: string, i: int) {
    0 <= i <= |s| - |sub| && s[i..i + |sub|] == sub
  }

  /** Python's `sub in s`. */
  predicate Contains(s: string, sub: string) {
    exists i | 0 <= i <= |s| - |sub| :: OccursAt(s, sub, i)
  }

  /** The first position of `c` in `s`, as `str.find` gives it. */
  function IndexOf(s: string, c: char): (r: Option<nat>)
    ensures r.None? <==> c !in s
    ensures r.Some? ==> r.value < |s| && s[r.value] == c && c !in s[..r.value]
  {
    if |s| == 0 then None
    else if s[0] == c then Some(0)
    else
      match IndexOf(s[1..], c)
      case None => None
      case Some(i) =>
        assert s[..i + 1] == [s[0]] + s[1..][..i];
        Some(i + 1)
  }

  /** `s.partition(c)` when `c` occurs: the text before the first `c` and the
      text after it. */
  function Cut(s: string, c: char): (r: Option<(string, string)>)
    ensures r.None? <==> c !in s
    ensures r.Some? ==> c !in r.value.0 && s == r.value.0 + [c] + r.value.1
  {
    match IndexOf(s, c)
    case None => None
    case Some(i) =>
      assert s == s[..i] + [c] + s[i + 1..];
      Some((s[..i], s[i + 1..]))
  }

  /** Cutting `a + [c] + b` at `c`, when `a` has no `c`, gives `a` and `b` back. */
  lemma CutJoined(a: string, c: char, b: string)
    requires c !in a
    ensures Cut(a + [c] + b, c) == Some((a, b))
  {
    var s := a + [c] + b;
    assert s[..|a|] == a;
    assert s[|a|] == c;
    assert s[|a| + 1..] == b;
    assert IndexOf(s, c) == Some(|a|);
  }

  /** The last position of `c` in `s`, as `str.rfind` gives it. */
  function LastIndexOf(s: string, c: char): (r: Option<nat>)
    ensures r.None? <==> c !in s
    ensures r.Some? ==> r.value < |s| && s[r.value] == c
    ensures r.Some? ==> c !in s[r.value + 1..]
  {
    if |s| == 0 then None
    else if s[|s| - 1] == c then Some(|s| - 1)
    else LastIndexOf(s[..|s| - 1], c)
  }

  /** `LastIndexOf` finds the last occurrence: an occurrence with none after
      it is the one found. */
  lemma {:induction false} LastIndexOfIsLast(s: string, c: char, i: nat)
    requires i < |s| && s[i] == c
    ensures LastIndexOf(s, c) == Some(i) <==> c !in s[i + 1..]
  {
    if i < |s| - 1 {
      var init := s[..|s| - 1];
      assert s[i + 1..] == init[i + 1..] + [s[|s| - 1]];
      if s[|s| - 1] != c {
        LastIndexOfIsLast(init, c, i);
      }
    }
  }

  /** An occurrence after the first character is an occurrence in the tail. */
  lemma OccursShift(s: string, sub: string, j: int)
    requires |s| >= 1 && j >= 1
    ensures OccursAt(s, sub, j) <==> OccursAt(s[1..], sub, j - 1)
  {
    if 0 <= j - 1 <= |s| - 1 - |sub| {
      assert s[j..j + |sub|] == s[1..][j - 1..j - 1 + |sub|];
    }
  }

  /** The first position at which `sub` occurs in `s`. */
  function FindSub(s: string, sub: string): (r: Option<nat>)
    ensures r.Some? ==> OccursAt(s, sub, r.value)
    ensures r.Some? ==> forall j :: 0 <= j < r.value ==> !OccursAt(s, sub, j)
    ensures r.None? <==> !Contains(s, sub)
    decreases |s|
  {
    if |s| < |sub| then None
    else if s[..|sub|] == sub then assert OccursAt(s, sub, 0); Some(0)
    else
      var t := FindSub(s[1..], sub);
      forall j | 1 <= j ensures OccursAt(s, sub, j) <==> OccursAt(s[1..], sub, j - 1) {
        OccursShift(s, sub, j);
      }
      match t
      case None => None
      case Some(i) => Some(i + 1)
  }

  /** An occurrence splits the string into the text before it, `sub`, and the rest. */
  lemma AroundOccurrence(s: string, sub: string, i: int)
    requires OccursAt(s, sub, i)
    ensures s == s[..i] + sub + s[i + |sub|..]
  {
    assert s == s[..i] + s[i..i + |sub|] + s[i + |sub|..];
  }

  // ---------------------------------------------------------------------------
  // Splitting and joining on one separator character

  /** `sep.join(parts)`. */
  function Join(parts: seq<string>, sep: char): string {
    if |parts| == 0 then ""
    else if |parts| == 1 then parts[0]
    else parts[0] + [sep] + Join(parts[1..], sep)
  }

  /** `s.split(sep)` for a one-character separator: the pieces between the
      separators, at least one piece, none holding the separator. */
  function Split(s: string, sep: char): (r: seq<string>)
    ensures |r| >= 1
    ensures forall i :: 0 <= i < |r| ==> sep !in r[i]
    ensures Join(r, sep) == s
    decreases |s|
  {
    match IndexOf(s, sep)
    case None => [s]
    case Some(i) =>
      var rest := Split(s[i + 1..], sep);
      assert s == s[..i] + [sep] + s[i + 1..];
      [s[..i]] + rest
  }

  /** Splitting a joined list of separator-free pieces gives the pieces back. */
  lemma {:induction false} SplitJoin(parts: seq<string>, sep: char)
    requires |parts| >= 1
    requires forall i :: 0 <= i < |parts| ==> sep !in parts[i]
    ensures Split(Join(parts, sep), sep) == parts
  {
    if |parts| == 1 {
    } else {
      var s := Join(parts, sep);
      assert s == parts[0] + [sep] + Join(parts[1..], sep);
      assert s[..|parts[0]|] == parts[0];
      assert s[|parts[0]|] == sep;
      assert IndexOf(s, sep) == Some(|parts[0]|);
      assert s[|parts[0]| + 1..] == Join(parts[1..], sep);
      SplitJoin(parts[1..], sep);
    }
  }

  /** `s.split(sep)[0]`: the text before the first separator, or all of `s`. */
  lemma SplitHead(s: string, sep: char)
    ensures StartsWith(s, Split(s, sep)[0])
    ensures sep in s ==> |Split(s, sep)[0]| < |s| && s[|Split(s, sep)[0]|] == sep
    ensures sep !in s ==> Split(s, sep)[0] == s
  {
  }

  /** The first piece of `a + [sep] + b` is `a` when `a` has no separator. */
  lemma SplitHeadOf(a: string, sep: char, b: string)
    requires sep !in a
    ensures Split(a + [sep] + b, sep)[0] == a
  {
    var s := a + [sep] + b;
    assert s[|a|] == sep && s[..|a|] == a;
    assert IndexOf(s, sep) == Some(|a|);
  }

  /** Splitting at a separator between two texts splits each of them. */
  lemma {:induction false} SplitAppend(a: string, sep: char, b: string)
    ensures Split(a + [sep] + b, sep) == Split(a, sep) + Split(b, sep)
    decreases |a|
  {
    if sep !in a {
      SplitBeforeFirst(a, sep, b);
    } else {
      var i := IndexOf(a, sep).value;
      SplitAppend(a[i + 1..], sep, b);
      SplitAppendStep(a, sep, b, i);
    }
  }

  /** The step of `SplitAppend`: once the text after the first separator in
      `a` splits piecewise, so does `a` itself. */
  lemma SplitAppendStep(a: string, sep: char, b: string, i: nat)
    requires IndexOf(a, sep) == Some(i)
    requires Split(a[i + 1..] + [sep] + b, sep) == Split(a[i + 1..], sep) + Split(b, sep)
    ensures Split(a + [sep] + b, sep) == Split(a, sep) + Split(b, sep)
  {
    SplitAtFirst(a, sep, b, i);
    ConsAssoc(a[..i], Split(a[i + 1..], sep), Split(b, sep));
  }

  lemma ConsAssoc<T>(h: T, p: seq<T>, q: seq<T>)
    ensures [h] + (p + q) == ([h] + p) + q
  {
  }

  /** A separator-free text before the separator is the first piece. */
  lemma SplitBeforeFirst(a: string, sep: char, b: string)
    requires sep !in a
    ensures Split(a, sep) == [a]
    ensures Split(a + [sep] + b, sep) == [a] + Split(b, sep)
  {
    var s := a + [sep] + b;
    assert s[..|a|] == a;
    IndexOfFirst(s, sep, |a|);
    assert s[|a| + 1..] == b;
  }

  /** A separator-free prefix joins the first piece and leaves the others. */
  lemma SplitPrefixed(prefix: string, s: string, sep: char)
    requires sep !in prefix
    ensures Split(prefix + s, sep) == [prefix + Split(s, sep)[0]] + Split(s, sep)[1..]
  {
    match IndexOf(s, sep)
    case None =>
      assert sep !in prefix + s;
      SplitBeforeFirst(s, sep, "");
      SplitBeforeFirst(prefix + s, sep, "");
    case Some(i) =>
      assert s == s[..i] + [sep] + s[i + 1..];
      assert prefix + s == (prefix + s[..i]) + [sep] + s[i + 1..];
      SplitBeforeFirst(s[..i], sep, s[i + 1..]);
      SplitBeforeFirst(prefix + s[..i], sep, s[i + 1..]);
  }

  /** A separator inside the first text ends the first piece there. */
  lemma SplitAtFirst(a: string, sep: char, b: string, i: nat)
    requires IndexOf(a, sep) == Some(i)
    ensures Split(a, sep) == [a[..i]] + Split(a[i + 1..], sep)
    ensures Split(a + [sep] + b, sep) == [a[..i]] + Split(a[i + 1..] + [sep] + b, sep)
  {
    var s := a + [sep] + b;
    assert s[..i] == a[..i];
    IndexOfFirst(s, sep, i);
    assert s[i + 1..] == a[i + 1..] + [sep] + b;
  }

  /** The first occurrence is the one with no occurrence before it. */
  /** The first occurrence is the one `FindSub` reports. */
  lemma FindSubFirst(s: string, sub: string, i: nat)
    requires OccursAt(s, sub, i)
    requires forall j :: 0 <= j < i ==> !OccursAt(s, sub, j)
    ensures FindSub(s, sub) == Some(i)
  {
    assert Contains(s, sub);
    var r := FindSub(s, sub).value;
    assert r < i ==> !OccursAt(s, sub, r);
  }

  lemma IndexOfFirst(s: string, c: char, j: nat)
    requires j < |s| && s[j] == c && c !in s[..j]
    ensures IndexOf(s, c) == Some(j)
  {
  }

  /** A character other than the separator is in a join only if it is in a piece. */
  lemma {:induction false} JoinExcludes(parts: seq<string>, sep: char, c: char)
    requires c != sep && forall i :: 0 <= i < |parts| ==> c !in parts[i]
    ensures c !in Join(parts, sep)
  {
    if |parts| > 1 {
      JoinExcludes(parts[1..], sep, c);
    }
  }

  /** The number of pieces `Split` yields is one more than the number of separators. */
  function Count(s: string, c: char): nat {
    if |s| == 0 then 0 else (if s[0] == c then 1 else 0) + Count(s[1..], c)
  }

  lemma {:induction false} CountAppend(a: string, b: string, c: char)
    ensures Count(a + b, c) == Count(a, c) + Count(b, c)
  {
    if |a| > 0 {
      assert (a + b)[0] == a[0] && (a + b)[1..] == a[1..] + b;
      CountAppend(a[1..], b, c);
    } else {
      assert a + b == b;
    }
  }

  lemma {:induction false} CountAbsent(s: string, c: char)
    requires c !in s
    ensures Count(s, c) == 0
  {
    if |s| > 0 { CountAbsent(s[1..], c); }
  }

  lemma {:induction false} SplitCount(s: string, sep: char)
    ensures |Split(s, sep)| == Count(s, sep) + 1
    decreases |s|
  {
    match IndexOf(s, sep)
    case None => CountAbsent(s, sep);
    case Some(i) =>
      assert s == s[..i] + ([sep] + s[i + 1..]);
      CountAppend(s[..i], [sep] + s[i + 1..], sep);
      CountAbsent(s[..i], sep);
      assert ([sep] + s[i + 1..])[1..] == s[i + 1..];
      SplitCount(s[i + 1..], sep);
  }

  // ---------------------------------------------------------------------------
  // Integers as decimal text: Python's str(int) and int(str)

  predicate IsDigit(c: char) { '0' <= c <= '9' }

  predicate AllDigits(s: string) { forall i :: 0 <= i < |s| ==> IsDigit(s[i]) }

  function DigitChar(d: nat): (c: char)
    requires d < 10
    ensures IsDigit(c) && c as int - '0' as int == d
  {
    (d + '0' as int) as char
  }

  /** Decimal digits of a natural number, without leading zeros. */
  function NatToStr(n: nat): (r: string)
    ensures |r| >= 1
  {
    if n < 10 then [DigitChar(n)] else NatToStr(n / 10) + [DigitChar(n % 10)]
  }

  /** `str(i)` for an integer (also JavaScript's number-to-string for a safe integer). */
  function IntToStr(i: int): (r: string)
    ensures |r| >= 1
  {
    if i < 0 then "-" + NatToStr(-i) else NatToStr(i)
  }

  /** The ValueError Python raises when `got` values are unpacked into
      `expected` names: too few are counted, too many are not. */
  function UnpackError(expected: nat, got: nat): (e: Error)
    requires got != expected
    ensures e.ValueError?
    ensures got < expected <==> StartsWith(e.message, "not enough values to unpack")
  {
    if got < expected then
      ValueError("not enough values to unpack (expected " + NatToStr(expected) + ", got " + NatToStr(got) + ")")
    else
      var m := "too many values to unpack (expected " + NatToStr(expected) + ")";
      assert m[0] == 't';
      ValueError(m)
  }

  /** The value of a string of decimal digits. */
  function DigitsValue(s: string): nat
    requires AllDigits(s)
  {
    if |s| == 0 then 0 else DigitsValue(s[..|s| - 1]) * 10 + (s[|s| - 1] as int - '0' as int)
  }

  /** `int(s)` on an optional sign followed by at least one decimal digit;
      anything else raises ValueError. */
  function ParseInt(s: string): Option<int> {
    if |s| > 0 && (s[0] == '-' || s[0] == '+') then
      if |s| > 1 && AllDigits(s[1..]) then
        var v: int := DigitsValue(s[1..]);
        Some(if s[0] == '-' then -v else v)
      else None
    else if |s| > 0 && AllDigits(s) then Some(DigitsValue(s))
    else None
  }

  lemma {:induction false} NatToStrValue(n: nat)
    ensures AllDigits(NatToStr(n)) && DigitsValue(NatToStr(n)) == n
  {
    if n >= 10 {
      var r := NatToStr(n);
      assert r[..|r| - 1] == NatToStr(n / 10);
      NatToStrValue(n / 10);
    }
  }

  /** `int(str(i)) == i`. */
  lemma IntToStrRoundTrip(i: int)
    ensures ParseInt(IntToStr(i)) == Some(i)
  {
    var n: nat := if i < 0 then -i else i;
    var d := NatToStr(n);
    NatToStrValue(n);
    assert IsDigit(d[0]);
    if i < 0 {
      assert IntToStr(i) == "-" + d;
      assert IntToStr(i)[1..] == d;
    } else {
      assert IntToStr(i) == d;
    }
  }

  /** The decimal text of an integer holds none of the key separators. */
  lemma IntToStrHasNo(i: int, c: char)
    requires !IsDigit(c) && c != '-'
    ensures c !in IntToStr(i)
  {
    IntToStrChars(i);
  }

  /** The text of an integer is digits after an optional leading '-'. */
  lemma IntToStrChars(i: int)
    ensures forall k :: 0 <= k < |IntToStr(i)| ==> IsDigit(IntToStr(i)[k]) || (k == 0 && IntToStr(i)[k] == '-')
  {
    NatToStrValue(if i < 0 then -i else i);
  }

  // ---------------------------------------------------------------------------
  // pathlib and whitespace

  /** `Path(key).stem`: the last '/'-separated component without its last
      suffix; a name whose only dot is its first or last character keeps it. */
  function Stem(path: string): string {
    var name := match LastIndexOf(path, '/')
      case None => path
      case Some(j) => path[j + 1..];
    match LastIndexOf(name, '.')
    case Some(i) => if 0 < i < |name| - 1 then name[..i] else name
    case None => name
  }

  /** A stem never holds a '/'. */
  lemma StemHasNoSlash(path: string)
    ensures '/' !in Stem(path)
  {
    match LastIndexOf(path, '/')
    case None =>
    case Some(j) => LastIndexOfIsLast(path, '/', j);
  }

  /** The stem of `base.ext` is `base` when neither part has a '/', the
      extension is non-empty and dot-free, and the base is non-empty. */
  lemma StemOfName(base: string, ext: string)
    requires |base| >= 1 && |ext| >= 1
    requires '/' !in base && '/' !in ext && '.' !in ext
    ensures Stem(base + "." + ext) == base
  {
    var name := base + "." + ext;
    assert '/' !in name;
    assert name[|base|] == '.';
    assert name[|base| + 1..] == ext;
    LastIndexOfIsLast(name, '.', |base|);
    assert name[..|base|] == base;
  }

  /** The text a regular expression `^...$` whose `.` does not match a newline
      can cover: `$` also matches just before one final newline. */
  function Anchored(key: string): (r: Option<string>)
    ensures r.Some? ==> '\n' !in r.value && (key == r.value || key == r.value + "\n")
    ensures r.None? ==> forall s :: key == s || key == s + "\n" ==> '\n' in s
  {
    var s := if |key| > 0 && key[|key| - 1] == '\n' then key[..|key| - 1] else key;
    if '\n' in s then None else Some(s)
  }

  /** The characters Python's str.isspace() accepts. */
  predicate IsSpace(c: char) {
    c == ' ' || ('\t' <= c <= '\r') || ('\U{1c}' <= c <= '\U{1f}') || c == '\U{85}' || c == '\U{a0}'
    || c == '\U{1680}' || ('\U{2000}' <= c <= '\U{200a}') || c == '\U{2028}' || c == '\U{2029}'
    || c == '\U{202f}' || c == '\U{205f}' || c == '\U{3000}'
  }

  /** Every character of `t` is white space. */
  predicate AllSpace(t: string) {
    forall i :: 0 <= i < |t| ==> IsSpace(t[i])
  }

  lemma AllSpaceJoin(a: string, b: string)
    requires AllSpace(a) && AllSpace(b)
    ensures AllSpace(a + b)
  {
    forall i | 0 <= i < |a + b| ensures IsSpace((a + b)[i]) {
      if i < |a| { assert (a + b)[i] == a[i]; } else { assert (a + b)[i] == b[i - |a|]; }
    }
  }

  /** `s.lstrip()`: the longest suffix of `s` that does not start with
      whitespace; everything cut off is whitespace. */
  function StripLeft(s: string): (r: string)
    ensures |r| <= |s| && r == s[|s| - |r|..]
    ensures |r| > 0 ==> !IsSpace(r[0])
    ensures AllSpace(s[..|s| - |r|])
  {
    if |s| > 0 && IsSpace(s[0]) then
      var t := s[1..];
      var r := StripLeft(t);
      assert t[|t| - |r|..] == s[|s| - |r|..];
      assert s[..|s| - |r|] == [s[0]] + t[..|t| - |r|];
      AllSpaceJoin([s[0]], t[..|t| - |r|]);
      r
    else s
  }

  /** `s.rstrip()`: the longest prefix of `s` that does not end with
      whitespace; everything cut off is whitespace. */
  function StripRight(s: string): (r: string)
    ensures |r| <= |s| && r == s[..|r|]
    ensures |r| > 0 ==> !IsSpace(r[|r| - 1])
    ensures AllSpace(s[|r|..])
  {
    if |s| > 0 && IsSpace(s[|s| - 1]) then
      var r := StripRight(s[..|s| - 1]);
      assert s[|r|..] == s[..|s| - 1][|r|..] + [s[|s| - 1]];
      AllSpaceJoin(s[..|s| - 1][|r|..], [s[|s| - 1]]);
      r
    else s
  }

  /** `r` is the piece of `s` at offset `k`, and everything around it is
      whitespace. */
  predicate TrimmedAt(s: string, r: string, k: int) {
    && 0 <= k <= |s| - |r| && r == s[k..k + |r|]
    && AllSpace(s[..k]) && AllSpace(s[k + |r|..])
  }

  /** `s.strip()`: the piece of `s` left once the whitespace at both ends is
      cut off; no whitespace is left at either end, and only whitespace was
      cut. */
  function Strip(s: string): (r: string)
    ensures |r| > 0 ==> !IsSpace(r[0]) && !IsSpace(r[|r| - 1])
    ensures Contains(s, r)
    ensures exists k :: TrimmedAt(s, r, k)
  {
    var l := StripLeft(s);
    var r := StripRight(l);
    var k := |s| - |l|;
    assert r == s[k..k + |r|] by {
      assert s[k..][..|r|] == s[k..k + |r|];
    }
    assert s[k + |r|..] == l[|r|..];
    assert OccursAt(s, r, k);
    assert TrimmedAt(s, r, k);
    r
  }
}
