/**
 * The Python 3 string operations the three scripts rely on, with Python's
 * semantics: `str.isspace`, `str.strip`, `str.find`, `str.split`,
 * `str.join`, `str.replace(pat, "")`, `str.endswith`, clamped slicing,
 * `int(str)`, `str(int)` and the code-point order of `<` on strings.
 */
module PyStr {
  import opened Wrappers

  // ------------------------------------------------------------ characters

  /** `c.isspace()`: the characters that `str.strip()` discards. */
  predicate IsSpace(c: char)
  {
    || ('\U{0009}' <= c <= '\U{000D}') || ('\U{001C}' <= c <= '\U{0020}')
    || c == '\U{0085}' || c == '\U{00A0}' || c == '\U{1680}'
    || ('\U{2000}' <= c <= '\U{200A}') || c == '\U{2028}' || c == '\U{2029}'
    || c == '\U{202F}' || c == '\U{205F}' || c == '\U{3000}'
  }

  /** The characters `int(str)` discards around a literal. The interpreter
      first turns every non-ASCII whitespace character into a space and keeps
      ASCII characters as they are, then skips only the six ASCII whitespace
      characters, so the separators U+001C..U+001F are not skipped. */
  predicate IsIntSpace(c: char)
  {
    c == ' ' || ('\U{0009}' <= c <= '\U{000D}') || (c > '\U{007F}' && IsSpace(c))
  }

  predicate IsDigit(c: char) { '0' <= c <= '9' }

  function DigitValue(c: char): nat
  {
    if IsDigit(c) then c as int - '0' as int else 0
  }

  function DigitChar(d: nat): (c: char)
    requires d < 10
    ensures IsDigit(c) && DigitValue(c) == d
  {
    ('0' as int + d) as char
  }

  // ------------------------------------------------------------- stripping

  /** Removes the leading characters of the class `ws`. */
  function StripStart(s: string, ws: char -> bool): (r: string)
    ensures |r| <= |s| && r == s[|s| - |r|..]
    ensures forall i :: 0 <= i < |s| - |r| ==> ws(s[i])
    ensures |r| > 0 ==> !ws(r[0])
    decreases |s|
  {
    if |s| > 0 && ws(s[0]) then StripStart(s[1..], ws) else s
  }

  /** Removes the trailing characters of the class `ws`. */
  function StripEnd(s: string, ws: char -> bool): (r: string)
    ensures |r| <= |s| && r == s[..|r|]
    ensures forall i :: |r| <= i < |s| ==> ws(s[i])
    ensures |r| > 0 ==> !ws(r[|r| - 1])
    decreases |s|
  {
    if |s| > 0 && ws(s[|s| - 1]) then StripEnd(s[..|s| - 1], ws) else s
  }

  /** Removes the surrounding characters of the class `ws`. */
  function StripBy(s: string, ws: char -> bool): string
  {
    StripEnd(StripStart(s, ws), ws)
  }

  /** `s.strip()` */
  function Strip(s: string): string
  {
    StripBy(s, IsSpace)
  }

  /** What `int(s)` reads of `s`: `s` without the whitespace `int()` skips. */
  function IntStrip(s: string): string
  {
    StripBy(s, IsIntSpace)
  }

  predicate AllIn(s: string, ws: char -> bool)
  {
    forall i :: 0 <= i < |s| ==> ws(s[i])
  }

  predicate AllSpace(s: string)
  {
    AllIn(s, IsSpace)
  }

  /** Characters of a class around a text whose ends are not in it are exactly what stripping removes. */
  lemma {:induction false} StripBySurrounded(before: string, s: string, after: string, ws: char -> bool)
    requires AllIn(before, ws) && AllIn(after, ws)
    requires |s| > 0 && !ws(s[0]) && !ws(s[|s| - 1])
    ensures StripBy(before + s + after, ws) == s
  {
    StripStartSpaces(before, s + after, ws);
    assert before + s + after == before + (s + after);
    StripEndSpaces(s, after, ws);
  }

  /** Whitespace around a text whose ends are not whitespace is exactly what `strip` removes. */
  lemma StripSurrounded(before: string, s: string, after: string)
    requires AllSpace(before) && AllSpace(after)
    requires |s| > 0 && !IsSpace(s[0]) && !IsSpace(s[|s| - 1])
    ensures Strip(before + s + after) == s
  {
    StripBySurrounded(before, s, after, IsSpace);
  }

  lemma {:induction false} StripStartSpaces(before: string, rest: string, ws: char -> bool)
    requires AllIn(before, ws) && |rest| > 0 && !ws(rest[0])
    ensures StripStart(before + rest, ws) == rest
    decreases |before|
  {
    if |before| > 0 {
      assert (before + rest)[1..] == before[1..] + rest;
      StripStartSpaces(before[1..], rest, ws);
    }
  }

  lemma {:induction false} StripEndSpaces(s: string, after: string, ws: char -> bool)
    requires AllIn(after, ws) && |s| > 0 && !ws(s[|s| - 1])
    ensures StripEnd(s + after, ws) == s
    decreases |after|
  {
    if |after| > 0 {
      assert (s + after)[..|s + after| - 1] == s + after[..|after| - 1];
      StripEndSpaces(s, after[..|after| - 1], ws);
    } else {
      assert s + after == s;
    }
  }

  // ------------------------------------------------------ search and split

  /** `pat` occurs in `s` starting at index `j`. */
  predicate OccursAt(s: string, pat: string, j: int)
  {
    0 <= j && j + |pat| <= |s| && s[j..j + |pat|] == pat
  }

  /** `pat in s` */
  predicate Contains(s: string, pat: string)
  {
    exists j :: 0 <= j <= |s| - |pat| && OccursAt(s, pat, j)
  }

  /** `s.endswith(suffix)` */
  predicate EndsWith(s: string, suffix: string)
  {
    |suffix| <= |s| && s[|s| - |suffix|..] == suffix
  }

  /** `s.find(pat)`, with `None` for -1: the leftmost occurrence of `pat`. */
  function Find(s: string, pat: string): (r: Option<nat>)
    requires |pat| > 0
    ensures r.Some? ==> OccursAt(s, pat, r.value)
    ensures forall j :: 0 <= j && (r.None? || j < r.value) ==> !OccursAt(s, pat, j)
    decreases |s|
  {
    if |s| < |pat| then None
    else if s[..|pat|] == pat then Some(0)
    else
      OccursShiftAll(s, pat);
      match Find(s[1..], pat)
      case None => None
      case Some(i) => Some(i + 1)
  }

  /** An occurrence at `j > 0` is an occurrence at `j - 1` in the tail. */
  lemma OccursShift(s: string, pat: string, j: int)
    requires 1 <= j && |s| > 0
    ensures OccursAt(s, pat, j) <==> OccursAt(s[1..], pat, j - 1)
  {
    if j + |pat| <= |s| {
      assert s[1..][j - 1..j - 1 + |pat|] == s[j..j + |pat|];
    }
  }

  lemma OccursShiftAll(s: string, pat: string)
    requires |s| > 0
    ensures forall j :: 1 <= j ==> (OccursAt(s, pat, j) <==> OccursAt(s[1..], pat, j - 1))
  {
    forall j | 1 <= j ensures OccursAt(s, pat, j) <==> OccursAt(s[1..], pat, j - 1) {
      OccursShift(s, pat, j);
    }
  }

  /** An occurrence inside a prefix is an occurrence in the whole text. */
  lemma OccursInPrefix(s: string, pat: string, i: nat, j: int)
    requires i <= |s| && OccursAt(s[..i], pat, j)
    ensures OccursAt(s, pat, j)
  {
    assert 0 <= j && j + |pat| <= i;
    assert s[..i][j..j + |pat|] == s[j..j + |pat|];
  }

  /** No occurrence lies inside the part of `s` before index `i`. */
  lemma PrefixFree(s: string, pat: string, i: nat)
    requires |pat| > 0 && i <= |s|
    requires forall j :: 0 <= j < i ==> !OccursAt(s, pat, j)
    ensures !Contains(s[..i], pat)
  {
    if Contains(s[..i], pat) {
      var j :| 0 <= j <= i - |pat| && OccursAt(s[..i], pat, j);
      OccursInPrefix(s, pat, i, j);
    }
  }

  /** `s.split(sep)`: the pieces between the leftmost non-overlapping occurrences of `sep`. */
  function Split(s: string, sep: string): (parts: seq<string>)
    requires |sep| > 0
    ensures |parts| > 0
    decreases |s|
  {
    match Find(s, sep)
    case None => [s]
    case Some(i) => [s[..i]] + Split(s[i + |sep|..], sep)
  }

  /** No piece of a split contains the separator. */
  lemma {:induction false} SplitPartsClean(s: string, sep: string)
    requires |sep| > 0
    ensures forall k :: 0 <= k < |Split(s, sep)| ==> !Contains(Split(s, sep)[k], sep)
    decreases |s|
  {
    match Find(s, sep)
    case None =>
      PrefixFree(s, sep, |s|);
      assert s[..|s|] == s;
    case Some(i) =>
      PrefixFree(s, sep, i);
      SplitPartsClean(s[i + |sep|..], sep);
      var parts := Split(s, sep);
      forall k | 0 <= k < |parts| ensures !Contains(parts[k], sep) {
        if k > 0 {
          assert parts[k] == Split(s[i + |sep|..], sep)[k - 1];
        }
      }
  }

  /** `sep.join(parts)` */
  function Join(parts: seq<string>, sep: string): string
    decreases |parts|
  {
    if |parts| == 0 then ""
    else if |parts| == 1 then parts[0]
    else parts[0] + sep + Join(parts[1..], sep)
  }

  lemma JoinCons(first: string, rest: seq<string>, sep: string)
    requires |rest| > 0
    ensures Join([first] + rest, sep) == first + sep + Join(rest, sep)
  {
    assert ([first] + rest)[1..] == rest;
  }

  /** Joining the pieces of a split with the same separator gives back the text. */
  lemma {:induction false} JoinSplit(s: string, sep: string)
    requires |sep| > 0
    ensures Join(Split(s, sep), sep) == s
    decreases |s|
  {
    match Find(s, sep)
    case None =>
    case Some(i) =>
      var rest := s[i + |sep|..];
      JoinSplit(rest, sep);
      JoinCons(s[..i], Split(rest, sep), sep);
      assert s == s[..i] + sep + rest;
  }

  lemma {:induction false} JoinSnoc(parts: seq<string>, last: string, sep: string)
    requires |parts| > 0
    ensures Join(parts + [last], sep) == Join(parts, sep) + sep + last
    decreases |parts|
  {
    if |parts| == 1 {
      assert (parts + [last])[1..] == [last];
    } else {
      JoinSnoc(parts[1..], last, sep);
      assert (parts + [last])[1..] == parts[1..] + [last];
    }
  }

  /** A split finds more than one piece exactly when the separator occurs. */
  lemma SplitCount(s: string, sep: string)
    requires |sep| > 0
    ensures |Split(s, sep)| > 1 <==> Contains(s, sep)
  {
    match Find(s, sep)
    case None =>
    case Some(i) =>
  }

  /** In `a + sep` no occurrence of `sep` starts inside `a`, so a split of
      `a + sep + rest` finds its first separator right after `a`. */
  predicate EndsCleanly(a: string, sep: string)
  {
    forall j :: 0 <= j < |a| ==> !OccursAt(a + sep, sep, j)
  }

  lemma SplitAfterField(a: string, sep: string, rest: string)
    requires |sep| > 0 && EndsCleanly(a, sep)
    ensures Split(a + sep + rest, sep) == [a] + Split(rest, sep)
  {
    var s := a + sep + rest;
    assert s[|a|..|a| + |sep|] == sep;
    assert OccursAt(s, sep, |a|);
    forall j | 0 <= j < |a| ensures !OccursAt(s, sep, j) {
      if OccursAt(s, sep, j) {
        assert s[j..j + |sep|] == (a + sep)[j..j + |sep|];
        assert OccursAt(a + sep, sep, j);
      }
    }
    assert Find(s, sep) == Some(|a|);
    assert s[..|a|] == a;
    assert s[|a| + |sep|..] == rest;
  }

  /** A split of a join gives back the pieces, when no piece contains the
      separator and no separator is found early across a piece's end. */
  lemma {:induction false} SplitJoin(parts: seq<string>, sep: string)
    requires |sep| > 0 && |parts| > 0
    requires forall k :: 0 <= k < |parts| - 1 ==> EndsCleanly(parts[k], sep)
    requires !Contains(parts[|parts| - 1], sep)
    ensures Split(Join(parts, sep), sep) == parts
    decreases |parts|
  {
    if |parts| == 1 {
    } else {
      SplitJoin(parts[1..], sep);
      SplitAfterField(parts[0], sep, Join(parts[1..], sep));
      assert parts == [parts[0]] + parts[1..];
    }
  }

  /** `s.replace(pat, "")`: every leftmost non-overlapping occurrence of `pat` is cut out. */
  function RemoveAll(s: string, pat: string): (r: string)
    requires |pat| > 0
    ensures |r| <= |s|
    decreases |s|
  {
    if |s| < |pat| then s
    else if s[..|pat|] == pat then RemoveAll(s[|pat|..], pat)
    else [s[0]] + RemoveAll(s[1..], pat)
  }

  /** Without an occurrence at the front, `replace` keeps the first character. */
  lemma RemoveAllKeepsFirst(s: string, pat: string)
    requires |pat| > 0 && |s| >= |pat| && !OccursAt(s, pat, 0)
    ensures RemoveAll(s, pat) == [s[0]] + RemoveAll(s[1..], pat)
  {
    assert s[0..|pat|] == s[..|pat|];
  }

  lemma {:induction false} RemoveAllUpTo(s: string, pat: string, i: nat)
    requires |pat| > 0 && OccursAt(s, pat, i)
    requires forall j :: 0 <= j < i ==> !OccursAt(s, pat, j)
    ensures RemoveAll(s, pat) == s[..i] + RemoveAll(s[i + |pat|..], pat)
    decreases i
  {
    if i > 0 {
      assert !OccursAt(s, pat, 0);
      NoOccurrenceShift(s, pat, i);
      RemoveAllUpTo(s[1..], pat, i - 1);
      RemoveAllCons(s, pat, i);
    } else {
      assert s[..|pat|] == s[0..|pat|];
      assert s[..i] == [];
    }
  }

  /** Dropping the first character moves the first occurrence one place left. */
  lemma NoOccurrenceShift(s: string, pat: string, i: nat)
    requires 0 < i && OccursAt(s, pat, i) && forall j :: 0 <= j < i ==> !OccursAt(s, pat, j)
    ensures OccursAt(s[1..], pat, i - 1) && forall j :: 0 <= j < i - 1 ==> !OccursAt(s[1..], pat, j)
  {
    OccursShift(s, pat, i);
    forall j | 0 <= j < i - 1 ensures !OccursAt(s[1..], pat, j) {
      OccursShift(s, pat, j + 1);
    }
  }

  /** The step of `RemoveAllUpTo`: a first character that starts no
      occurrence is kept in front of what the rest leaves. */
  lemma RemoveAllCons(s: string, pat: string, i: nat)
    requires |pat| > 0 && 0 < i && i + |pat| <= |s| && !OccursAt(s, pat, 0)
    requires RemoveAll(s[1..], pat) == s[1..][..i - 1] + RemoveAll(s[1..][i - 1 + |pat|..], pat)
    ensures RemoveAll(s, pat) == s[..i] + RemoveAll(s[i + |pat|..], pat)
  {
    var t := s[1..];
    RemoveAllKeepsFirst(s, pat);
    var after := t[i - 1 + |pat|..];
    assert after == s[i + |pat|..];
    var rest := RemoveAll(after, pat);
    var head := t[..i - 1];
    assert [s[0]] + head == s[..i];
    Regroup([s[0]], head, rest);
  }

  lemma Regroup<T>(a: seq<T>, b: seq<T>, c: seq<T>)
    ensures a + (b + c) == (a + b) + c
  {
  }

  lemma {:induction false} RemoveAllAbsent(s: string, pat: string)
    requires |pat| > 0 && forall j :: 0 <= j ==> !OccursAt(s, pat, j)
    ensures RemoveAll(s, pat) == s
    decreases |s|
  {
    if |s| >= |pat| {
      assert !OccursAt(s, pat, 0);
      forall j | 0 <= j ensures !OccursAt(s[1..], pat, j) {
        if OccursAt(s[1..], pat, j) {
          assert s[1..][j..j + |pat|] == s[j + 1..j + 1 + |pat|];
          assert OccursAt(s, pat, j + 1);
        }
      }
      RemoveAllAbsent(s[1..], pat);
    }
  }

  /** `s.replace(pat, "") == "".join(s.split(pat))`: the scanning definition of
      replace agrees with cutting at every separator found by split. */
  lemma {:induction false} RemoveAllIsJoinOfSplit(s: string, pat: string)
    requires |pat| > 0
    ensures RemoveAll(s, pat) == Join(Split(s, pat), "")
    decreases |s|
  {
    match Find(s, pat)
    case None =>
      RemoveAllAbsent(s, pat);
    case Some(i) =>
      var rest := s[i + |pat|..];
      RemoveAllUpTo(s, pat, i);
      RemoveAllIsJoinOfSplit(rest, pat);
      JoinCons(s[..i], Split(rest, pat), "");
  }

  /** A text holding `pat` gets strictly shorter, by at least `|pat|`. */
  lemma {:induction false} RemoveAllShortens(s: string, pat: string)
    requires |pat| > 0 && Contains(s, pat)
    ensures |RemoveAll(s, pat)| <= |s| - |pat|
    decreases |s|
  {
    var j :| 0 <= j <= |s| - |pat| && OccursAt(s, pat, j);
    if s[..|pat|] != pat {
      assert s[0..|pat|] == s[..|pat|];
      assert j > 0;
      OccursShift(s, pat, j);
      assert 0 <= j - 1 <= |s[1..]| - |pat|;
      RemoveAllShortens(s[1..], pat);
    }
  }

  /** `s[i:j]` with Python's clamping of the bounds to the string. */
  function Slice(s: string, i: nat, j: nat): string
  {
    if |s| <= i || j <= i then "" else if |s| <= j then s[i..] else s[i..j]
  }

  // ----------------------------------------------------------------- int()

  /** Digits with single underscores between them: `1_000`, but not `_1`, `1_` or `1__0`. */
  predicate IsDigitGroup(t: string)
  {
    && |t| > 0 && IsDigit(t[0]) && IsDigit(t[|t| - 1])
    && (forall i :: 0 <= i < |t| ==> IsDigit(t[i]) || t[i] == '_')
    && (forall i :: 0 <= i < |t| - 1 && t[i] == '_' ==> t[i + 1] != '_')
  }

  /** The interpreter's default limit on the decimal digits `int()` reads and
      `str()` writes (`sys.get_int_max_str_digits()`, from Python 3.11 on). */
  const MaxStrDigits: nat := 4300

  /** The number of decimal digits in `t`; signs and underscores do not count. */
  function DigitCount(t: string): (n: nat)
    ensures n <= |t|
    decreases |t|
  {
    if |t| == 0 then 0 else (if IsDigit(t[0]) then 1 else 0) + DigitCount(t[1..])
  }

  /** The shape of a decimal integer literal: an optional sign and a digit group. */
  predicate IsIntSyntax(t: string)
  {
    if |t| > 0 && (t[0] == '+' || t[0] == '-') then IsDigitGroup(t[1..]) else IsDigitGroup(t)
  }

  /** What `int()` accepts once the surrounding whitespace is stripped: a
      literal of at most `MaxStrDigits` digits; a longer one raises `ValueError`. */
  predicate IsIntLiteral(t: string)
  {
    IsIntSyntax(t) && DigitCount(t) <= MaxStrDigits
  }

  /** The number the digits of `t` denote, read left to right after `acc`, underscores skipped. */
  function DecimalValue(t: string, acc: nat): nat
    decreases |t|
  {
    if |t| == 0 then acc
    else DecimalValue(t[1..], if t[0] == '_' then acc else acc * 10 + DigitValue(t[0]))
  }

  function LiteralValue(t: string): int
  {
    if |t| > 0 && t[0] == '-' then -(DecimalValue(t[1..], 0) as int)
    else if |t| > 0 && t[0] == '+' then DecimalValue(t[1..], 0)
    else DecimalValue(t, 0)
  }

  /** The digit loop of the interpreter's integer parser: one character at a
      time; an underscore is allowed only right after a digit. */
  function ScanDigits(t: string, acc: nat, afterDigit: bool): Option<nat>
    decreases |t|
  {
    if |t| == 0 then (if afterDigit then Some(acc) else None)
    else if IsDigit(t[0]) then ScanDigits(t[1..], acc * 10 + DigitValue(t[0]), true)
    else if t[0] == '_' && afterDigit then ScanDigits(t[1..], acc, false)
    else None
  }

  /** When ScanDigits accepts the rest of a digit group, stated without recursion. */
  predicate DigitTail(t: string, afterDigit: bool)
  {
    && (|t| == 0 ==> afterDigit)
    && (|t| > 0 ==> IsDigit(t[|t| - 1]) && (t[0] == '_' ==> afterDigit))
    && (forall i :: 0 <= i < |t| ==> IsDigit(t[i]) || t[i] == '_')
    && (forall i :: 0 <= i < |t| - 1 && t[i] == '_' ==> t[i + 1] != '_')
  }

  lemma {:induction false} ScanDigitsCorrect(t: string, acc: nat, afterDigit: bool)
    ensures ScanDigits(t, acc, afterDigit).Some? <==> DigitTail(t, afterDigit)
    ensures ScanDigits(t, acc, afterDigit).Some? ==> ScanDigits(t, acc, afterDigit).value == DecimalValue(t, acc)
    decreases |t|
  {
    if |t| > 0 {
      var u := t[1..];
      assert forall i :: 0 <= i < |u| ==> u[i] == t[i + 1];
      if IsDigit(t[0]) {
        ScanDigitsCorrect(u, acc * 10 + DigitValue(t[0]), true);
      } else if t[0] == '_' && afterDigit {
        ScanDigitsCorrect(u, acc, false);
      }
    }
  }

  /** `int(s)` for a string `s`; `None` where Python raises `ValueError`.
      Only ASCII digits are read: see IsIntSpace for the whitespace skipped. */
  function ParseInt(s: string): (r: Option<int>)
    ensures r.Some? <==> IsIntLiteral(IntStrip(s))
    ensures r.Some? ==> r.value == LiteralValue(IntStrip(s))
  {
    var t := IntStrip(s);
    var signed := |t| > 0 && (t[0] == '+' || t[0] == '-');
    var body := if signed then t[1..] else t;
    ScanDigitsCorrect(body, 0, false);
    match ScanDigits(body, 0, false)
    case None => None
    case Some(n) =>
      if DigitCount(t) > MaxStrDigits then None
      else Some(if signed && t[0] == '-' then -(n as int) else n)
  }

  // ---------------------------------------------------------------- str()

  /** `str(n)` for a natural number: its decimal digits, without leading zeros. */
  function NatToString(n: nat): (r: string)
    ensures |r| > 0 && forall i :: 0 <= i < |r| ==> IsDigit(r[i])
    decreases n
  {
    if n < 10 then [DigitChar(n)] else NatToString(n / 10) + [DigitChar(n % 10)]
  }

  /** `str(i)` for an integer. */
  function IntToString(i: int): string
  {
    if i < 0 then "-" + NatToString(-i) else NatToString(i)
  }

  lemma {:induction false} DecimalValueSnoc(t: string, c: char, acc: nat)
    requires IsDigit(c)
    ensures DecimalValue(t + [c], acc) == DecimalValue(t, acc) * 10 + DigitValue(c)
    decreases |t|
  {
    if |t| > 0 {
      assert (t + [c])[1..] == t[1..] + [c];
      DecimalValueSnoc(t[1..], c, if t[0] == '_' then acc else acc * 10 + DigitValue(t[0]));
    }
  }

  lemma {:induction false} NatToStringValue(n: nat)
    ensures DecimalValue(NatToString(n), 0) == n
    decreases n
  {
    if n >= 10 {
      NatToStringValue(n / 10);
      DecimalValueSnoc(NatToString(n / 10), DigitChar(n % 10), 0);
    }
  }

  /** `str(i)` does not raise: `i` has at most `MaxStrDigits` digits. */
  predicate StrWritable(i: int)
  {
    |NatToString(if i < 0 then -i else i)| <= MaxStrDigits
  }

  lemma {:induction false} DigitCountAll(t: string)
    requires forall k :: 0 <= k < |t| ==> IsDigit(t[k])
    ensures DigitCount(t) == |t|
    decreases |t|
  {
    if |t| > 0 {
      DigitCountAll(t[1..]);
    }
  }

  /** `str(i)` is a literal of the digits of `|i|` that denotes `i`. */
  lemma IntToStringLiteral(i: int)
    ensures IsIntSyntax(IntToString(i)) && LiteralValue(IntToString(i)) == i
    ensures IsIntLiteral(IntToString(i)) <==> StrWritable(i)
  {
    var n: nat := if i < 0 then -i else i;
    var digits := NatToString(n);
    NatToStringValue(n);
    DigitCountAll(digits);
    assert IsDigitGroup(digits);
    if i < 0 {
      assert IntToString(i)[1..] == digits;
    }
  }

  /** `int()` of a text with no skipped whitespace at its ends reads the text as it is. */
  lemma ParseIntUnstripped(s: string)
    requires |s| > 0 && !IsIntSpace(s[0]) && !IsIntSpace(s[|s| - 1])
    ensures ParseInt(s) == if IsIntLiteral(s) then Some(LiteralValue(s)) else None
  {
    StripBySurrounded("", s, "", IsIntSpace);
    assert "" + s + "" == s;
  }

  /** `int(str(i)) == i` for every integer `str()` can write; `int()` also
      rejects the wider literals, which `str()` itself refuses to write. */
  lemma ParseIntOfIntToString(i: int)
    ensures ParseInt(IntToString(i)) == if StrWritable(i) then Some(i) else None
  {
    IntToStringLiteral(i);
    var s := IntToString(i);
    var n: nat := if i < 0 then -i else i;
    assert s[|s| - 1] == NatToString(n)[|NatToString(n)| - 1];
    ParseIntUnstripped(s);
  }

  /** `int()` ignores whitespace around the literal: `int(" 42\n") == 42`. */
  lemma ParseIntIgnoresSpace(before: string, t: string, after: string)
    requires AllIn(before, IsIntSpace) && AllIn(after, IsIntSpace)
    requires IsIntLiteral(t)
    ensures ParseInt(before + t + after) == Some(LiteralValue(t))
  {
    assert !IsIntSpace(t[0]) && !IsIntSpace(t[|t| - 1]);
    StripBySurrounded(before, t, after, IsIntSpace);
  }

  /** The ASCII separators are whitespace to `str.strip()` but not to `int()`:
      `int("\x1c5")` raises, and `int()` of any text starting with one does. */
  lemma ParseIntRejectsSeparator(c: char, t: string)
    requires '\U{001C}' <= c <= '\U{001F}'
    ensures IsSpace(c) && ParseInt([c] + t) == None
  {
    var s := [c] + t;
    assert !IsIntSpace(s[0]);
    assert StripStart(s, IsIntSpace) == s;
    var u := StripEnd(s, IsIntSpace);
    assert |u| > 0;
    assert u[0] == c && !IsDigit(c) && c != '+' && c != '-';
    assert !IsIntLiteral(u);
  }

  // ------------------------------------------------------------ comparison

  /** `a < b` on Python strings: lexicographic by code point, a proper prefix first. */
  predicate StrLess(a: string, b: string)
    decreases |a|
  {
    if |a| == 0 then |b| > 0
    else if |b| == 0 then false
    else if a[0] != b[0] then a[0] < b[0]
    else StrLess(a[1..], b[1..])
  }

  lemma {:induction false} StrLessIrreflexive(a: string)
    ensures !StrLess(a, a)
    decreases |a|
  {
    if |a| > 0 { StrLessIrreflexive(a[1..]); }
  }

  lemma {:induction false} StrLessTransitive(a: string, b: string, c: string)
    requires StrLess(a, b) && StrLess(b, c)
    ensures StrLess(a, c)
    decreases |a|
  {
    if |a| > 0 && |b| > 0 && |c| > 0 && a[0] == b[0] && b[0] == c[0] {
      StrLessTransitive(a[1..], b[1..], c[1..]);
    }
  }

  lemma {:induction false} StrLessTotal(a: string, b: string)
    requires a != b
    ensures StrLess(a, b) || StrLess(b, a)
    decreases |a|
  {
    if |a| > 0 && |b| > 0 && a[0] == b[0] {
      assert a == [a[0]] + a[1..] && b == [b[0]] + b[1..];
      StrLessTotal(a[1..], b[1..]);
    }
  }
}
