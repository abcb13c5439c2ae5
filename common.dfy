/** Shared vocabulary: optional values, results, and the few JavaScript
    string operations the bot relies on, written out over `seq<char>`. */
module Common {

  datatype Option<T> = None | Some(value: T)

  datatype Result<T, E> = Ok(value: T) | Err(error: E)

  /** `s.startsWith(p)` */
  predicate StartsWith(s: string, p: string)
  {
    |p| <= |s| && s[..|p|] == p
  }

  predicate EndsWith(s: string, t: string)
  {
    |t| <= |s| && s[|s| - |t|..] == t
  }

  lemma PrefixStartsWith(p: string, rest: string)
    ensures StartsWith(p + rest, p)
  {
    assert (p + rest)[..|p|] == p;
  }

  /** A text keeps its prefix however much is appended. */
  lemma PrefixOfFive(p: string, a: string, b: string, c: string, d: string)
    ensures StartsWith(p + a + b + c + d, p)
  {
    assert p + a + b + c + d == p + (a + b + c + d);
    PrefixStartsWith(p, a + b + c + d);
  }

  /** Appending keeps the last character of the appended text last. */
  lemma LastOfAppend(h: string, v: string)
    requires |v| > 0
    ensures (h + v)[|h + v| - 1] == v[|v| - 1]
  {
  }

  /** `parts.join(sep)` */
  function Join(parts: seq<string>, sep: string): string
  {
    if |parts| == 0 then ""
    else if |parts| == 1 then parts[0]
    else parts[0] + sep + Join(parts[1..], sep)
  }

  /** `parts.join("")` is plain concatenation. */
  function Concat(parts: seq<string>): string
  {
    if |parts| == 0 then "" else parts[0] + Concat(parts[1..])
  }

  lemma ConcatAppend(a: seq<string>, b: seq<string>)
    ensures Concat(a + b) == Concat(a) + Concat(b)
  {
    if |a| > 0 {
      assert (a + b)[1..] == a[1..] + b;
      ConcatAppend(a[1..], b);
    } else {
      assert a + b == b;
    }
  }

  /** `s.slice(0, end)`: a negative `end` counts back from the end. */
  function SliceTo(s: string, end: int): (r: string)
    ensures |r| <= |s| && r == s[..|r|]
    ensures 0 <= end ==> |r| == if end < |s| then end else |s|
    ensures end < 0 ==> |r| == if |s| + end > 0 then |s| + end else 0
  {
    if end < 0 then (if |s| + end > 0 then s[..|s| + end] else [])
    else if end < |s| then s[..end]
    else s
  }

  /** `s.slice(start)` and `s.substring(start)` for a non-negative start. */
  function DropFirst(s: string, start: nat): (r: string)
    ensures |r| == if start < |s| then |s| - start else 0
    ensures start < |s| ==> r == s[start..]
  {
    if start < |s| then s[start..] else []
  }

  /** `s.substring(0, n)` for a non-negative `n`. */
  function TakeFirst(s: string, n: nat): (r: string)
    ensures |r| == if n < |s| then n else |s|
    ensures |r| <= |s| && r == s[..|r|]
  {
    if n < |s| then s[..n] else s
  }

  // ---- characters -------------------------------------------------------

  predicate IsDigit(c: char) { '0' <= c <= '9' }

  /** JavaScript `\w` without the `u` flag: `[A-Za-z0-9_]`. */
  predicate IsWordChar(c: char)
  {
    ('a' <= c <= 'z') || ('A' <= c <= 'Z') || IsDigit(c) || c == '_'
  }

  /** `toLowerCase` on one character; only the ASCII letters are folded. */
  function LowerChar(c: char): (r: char)
    ensures !('A' <= r <= 'Z')
    ensures 'A' <= c <= 'Z' || r == c
  {
    if 'A' <= c <= 'Z' then (c as int + 32) as char else c
  }

  function Lower(s: string): (r: string)
    ensures |r| == |s|
    ensures forall i :: 0 <= i < |s| ==> r[i] == LowerChar(s[i])
  {
    if s == [] then [] else [LowerChar(s[0])] + Lower(s[1..])
  }

  /** The ECMAScript WhiteSpace and LineTerminator code points that
      `String.prototype.trim` removes. */
  predicate IsJsWhitespace(c: char)
  {
    c == '\t' || c == '\n' || c == '\U{B}' || c == '\U{C}' || c == '\r' || c == ' '
    || c == '\U{A0}' || c == '\U{1680}' || ('\U{2000}' <= c <= '\U{200A}')
    || c == '\U{2028}' || c == '\U{2029}' || c == '\U{202F}' || c == '\U{205F}'
    || c == '\U{3000}' || c == '\U{FEFF}'
  }

  function TrimStart(s: string): (r: string)
    ensures |r| <= |s| && r == s[|s| - |r|..]
    ensures r == [] || !IsJsWhitespace(r[0])
  {
    if s != [] && IsJsWhitespace(s[0]) then TrimStart(s[1..]) else s
  }

  /** What `TrimStart` drops is whitespace only. */
  lemma {:induction false} TrimStartDrops(s: string)
    ensures AllWhitespace(s[..|s| - |TrimStart(s)|])
  {
    if s != [] && IsJsWhitespace(s[0]) {
      var r := TrimStart(s[1..]);
      TrimStartDrops(s[1..]);
      assert s[..|s| - |r|] == [s[0]] + s[1..][..|s| - 1 - |r|];
    }
  }

  function TrimEnd(s: string): (r: string)
    ensures |r| <= |s| && r == s[..|r|]
    ensures r == [] || !IsJsWhitespace(r[|r| - 1])
  {
    if s != [] && IsJsWhitespace(s[|s| - 1]) then TrimEnd(s[..|s| - 1]) else s
  }

  /** What `TrimEnd` drops is whitespace only. */
  lemma {:induction false} TrimEndDrops(s: string)
    ensures AllWhitespace(s[|TrimEnd(s)|..])
  {
    if s != [] && IsJsWhitespace(s[|s| - 1]) {
      var r := TrimEnd(s[..|s| - 1]);
      TrimEndDrops(s[..|s| - 1]);
      assert s[|r|..] == s[..|s| - 1][|r|..] + [s[|s| - 1]];
      AllWhitespaceSnoc(s[..|s| - 1][|r|..], s[|s| - 1]);
    } else {
      assert s[|s|..] == [];
    }
  }

  /** Every character is JavaScript whitespace. */
  predicate AllWhitespace(s: string)
  {
    s == [] || (IsJsWhitespace(s[0]) && AllWhitespace(s[1..]))
  }

  lemma {:induction false} AllWhitespaceSnoc(a: string, c: char)
    requires AllWhitespace(a) && IsJsWhitespace(c)
    ensures AllWhitespace(a + [c])
  {
    if a != [] {
      AllWhitespaceSnoc(a[1..], c);
      assert (a + [c])[1..] == a[1..] + [c];
    }
  }

  /** `r` sits at offset `k` of `s`, with only whitespace before and after it. */
  predicate TrimmedAt(s: string, k: int, r: string)
  {
    0 <= k <= k + |r| <= |s| && r == s[k..k + |r|]
    && AllWhitespace(s[..k]) && AllWhitespace(s[k + |r|..])
  }

  /** `s.trim()`: the text between its leading and its trailing whitespace. */
  function Trim(s: string): (r: string)
    ensures |r| <= |s|
    ensures r == [] || (!IsJsWhitespace(r[0]) && !IsJsWhitespace(r[|r| - 1]))
  {
    var t := TrimStart(s);
    var r := TrimEnd(t);
    assert r != [] ==> r[0] == t[0];
    r
  }

  /** `trim()` keeps the slice of the text between its leading and its
      trailing whitespace, and drops only whitespace. */
  lemma TrimSpec(s: string)
    ensures TrimmedAt(s, |s| - |TrimStart(s)|, Trim(s))
  {
    var t := TrimStart(s);
    TrimStartDrops(s);
    TrimEndDrops(t);
    TrimAround(s, t, TrimEnd(t));
  }

  /** A whitespace-only prefix dropped from `s`, then a whitespace-only
      suffix dropped from what is left. */
  lemma TrimAround(s: string, t: string, r: string)
    requires |t| <= |s| && t == s[|s| - |t|..] && AllWhitespace(s[..|s| - |t|])
    requires |r| <= |t| && r == t[..|r|] && AllWhitespace(t[|r|..])
    ensures TrimmedAt(s, |s| - |t|, r)
  {
    var k := |s| - |t|;
    SliceOfSuffix(s, k, |r|);
    assert t[|r|..] == s[k + |r|..];
    assert AllWhitespace(s[k + |r|..]);
    assert r == s[k..k + |r|];
  }

  lemma SliceOfSuffix(s: string, k: nat, m: nat)
    requires k + m <= |s|
    ensures s[k..][..m] == s[k..k + m] && s[k..][m..] == s[k + m..]
  {
  }

  /** Text without whitespace at either end is left as it is. */
  lemma TrimUntouched(s: string)
    requires s != [] && !IsJsWhitespace(s[0]) && !IsJsWhitespace(s[|s| - 1])
    ensures Trim(s) == s
  {
  }

  // ---- numbers as text ---------------------------------------------------

  function DigitChar(d: nat): (c: char)
    requires d < 10
    ensures IsDigit(c)
  {
    (48 + d) as char
  }

  function DigitValue(c: char): (d: nat)
    requires IsDigit(c)
    ensures d < 10
  {
    c as int - 48
  }

  predicate AllDigits(s: string)
  {
    forall i :: 0 <= i < |s| ==> IsDigit(s[i])
  }

  /** Decimal rendering of a natural number, as `Number.prototype.toString`. */
  function NatToDecimal(n: nat): (r: string)
    ensures |r| >= 1 && AllDigits(r)
    ensures r[0] == '0' <==> n == 0
    ensures |r| == 1 || r[0] != '0'
    decreases n
  {
    if n < 10 then [DigitChar(n)] else NatToDecimal(n / 10) + [DigitChar(n % 10)]
  }

  /** Decimal rendering of an integer: a leading '-' for negatives. */
  function IntToDecimal(n: int): string
  {
    if n < 0 then "-" + NatToDecimal(-n) else NatToDecimal(n)
  }

  /** The value of a string of decimal digits. */
  function DigitsValue(s: string): nat
    requires AllDigits(s)
  {
    if s == [] then 0 else DigitsValue(s[..|s| - 1]) * 10 + DigitValue(s[|s| - 1])
  }

  lemma {:induction false} NatToDecimalValue(n: nat)
    ensures DigitsValue(NatToDecimal(n)) == n
    decreases n
  {
    if n >= 10 {
      var r := NatToDecimal(n);
      assert r[..|r| - 1] == NatToDecimal(n / 10);
      NatToDecimalValue(n / 10);
    }
  }

  /** How many digits stand from position `i` on; none past the end. */
  function DigitsFrom(s: string, i: nat): (k: nat)
    ensures k == 0 || i + k <= |s|
    decreases |s| - i
  {
    if i < |s| && IsDigit(s[i]) then 1 + DigitsFrom(s, i + 1) else 0
  }

  /** The run counted is made of digits and is not followed by one. */
  lemma {:induction false} DigitsFromSound(s: string, i: nat)
    ensures forall j :: i <= j < i + DigitsFrom(s, i) ==> IsDigit(s[j])
    ensures i + DigitsFrom(s, i) < |s| ==> !IsDigit(s[i + DigitsFrom(s, i)])
    decreases |s| - i
  {
    if i < |s| && IsDigit(s[i]) {
      DigitsFromSound(s, i + 1);
    }
  }

  /** Conversely, `n` digits ending the text or followed by a non-digit
      are the run counted. */
  lemma {:induction false} DigitsFromExactly(s: string, i: nat, n: nat)
    requires i + n <= |s|
    requires forall j :: i <= j < i + n ==> IsDigit(s[j])
    requires i + n == |s| || !IsDigit(s[i + n])
    ensures DigitsFrom(s, i) == n
    decreases n
  {
    if n > 0 {
      DigitsFromExactly(s, i + 1, n - 1);
    }
  }

  /** Length of the run of decimal digits at the start of `s`. */
  function DigitRun(s: string): (k: nat)
    ensures k <= |s| && AllDigits(s[..k])
    ensures k < |s| ==> !IsDigit(s[k])
  {
    if s != [] && IsDigit(s[0]) then
      var k := 1 + DigitRun(s[1..]);
      assert forall i :: 1 <= i < k ==> s[..k][i] == s[1..][..k - 1][i - 1];
      k
    else 0
  }

  lemma {:induction false} DigitRunAll(s: string)
    requires AllDigits(s)
    ensures DigitRun(s) == |s|
  {
    if s != [] {
      DigitRunAll(s[1..]);
    }
  }

  /** `parseInt(s)` on decimal text: leading white space, an optional sign
      and the longest run of digits; `None` stands for `NaN`. */
  function ParseInt(s: string): Option<int>
  {
    var t := TrimStart(s);
    var neg := t != [] && t[0] == '-';
    var u := if t != [] && (t[0] == '-' || t[0] == '+') then t[1..] else t;
    var k := DigitRun(u);
    var v: int := DigitsValue(u[..k]);
    if k == 0 then None else if neg then Some(-v) else Some(v)
  }

  lemma ParseIntDigits(d: string)
    requires |d| >= 1 && AllDigits(d)
    ensures ParseInt(d) == Some(DigitsValue(d) as int)
  {
    DigitRunAll(d);
    assert d[..|d|] == d;
    assert !IsJsWhitespace(d[0]) && d[0] != '-' && d[0] != '+';
    assert TrimStart(d) == d;
  }

  lemma ParseIntNegDigits(d: string)
    requires |d| >= 1 && AllDigits(d)
    ensures ParseInt("-" + d) == Some(-(DigitsValue(d) as int))
  {
    DigitRunAll(d);
    assert d[..|d|] == d;
    var s := "-" + d;
    assert !IsJsWhitespace(s[0]);
    assert TrimStart(s) == s;
    assert s[1..] == d;
  }

  lemma ParseIntPlusDigits(d: string)
    requires |d| >= 1 && AllDigits(d)
    ensures ParseInt("+" + d) == Some(DigitsValue(d) as int)
  {
    DigitRunAll(d);
    assert d[..|d|] == d;
    var s := "+" + d;
    assert !IsJsWhitespace(s[0]);
    assert TrimStart(s) == s;
    assert s[1..] == d;
  }

  /** `parseInt` reads back what `toString` wrote, for every integer. */
  lemma ParseIntOfDecimal(n: int)
    ensures ParseInt(IntToDecimal(n)) == Some(n)
  {
    var m: nat := if n < 0 then -n else n;
    NatToDecimalValue(m);
    if n < 0 {
      ParseIntNegDigits(NatToDecimal(m));
    } else {
      ParseIntDigits(NatToDecimal(m));
    }
  }

  // ---- searching and replacing -----------------------------------------

  predicate OccursAt(s: string, p: string, j: nat)
  {
    j + |p| <= |s| && s[j..j + |p|] == p
  }

  /** Whether `p` occurs at a position depends only on the text from there on. */
  lemma OccursAtShift(a: string, b: string, p: string, j: nat)
    ensures OccursAt(a + b, p, |a| + j) <==> OccursAt(b, p, j)
  {
    if |a| + j + |p| <= |a + b| {
      assert (a + b)[|a| + j..|a| + j + |p|] == b[j..j + |p|];
    }
  }

  /** `s.indexOf(p)`: the first position at which `p` occurs. */
  function IndexOf(s: string, p: string): (r: Option<nat>)
    ensures r.Some? ==> OccursAt(s, p, r.value)
    ensures r.Some? ==> forall j: nat :: j < r.value ==> !OccursAt(s, p, j)
    ensures r.None? ==> forall j: nat :: !OccursAt(s, p, j)
  {
    IndexFrom(s, p, 0)
  }

  function IndexFrom(s: string, p: string, from: nat): (r: Option<nat>)
    requires forall j: nat :: j < from ==> !OccursAt(s, p, j)
    ensures r.Some? ==> from <= r.value && OccursAt(s, p, r.value)
    ensures r.Some? ==> forall j: nat :: j < r.value ==> !OccursAt(s, p, j)
    ensures r.None? ==> forall j: nat :: !OccursAt(s, p, j)
    decreases |s| - from
  {
    if from + |p| > |s| then None
    else if OccursAt(s, p, from) then Some(from)
    else IndexFrom(s, p, from + 1)
  }

  /** Before the first occurrence of a one-character pattern, and
      everywhere when there is none, that character does not occur. */
  lemma IndexOfChar(s: string, c: char)
    ensures IndexOf(s, [c]).Some? ==> c !in s[..IndexOf(s, [c]).value]
    ensures IndexOf(s, [c]).None? ==> c !in s
  {
    var r := IndexOf(s, [c]);
    forall j | 0 <= j < |s| && (r.None? || j < r.value)
      ensures s[j] != c
    {
      assert !OccursAt(s, [c], j);
      assert s[j..j + 1] == [s[j]];
    }
  }

  /** `s.replace(/[...]/g, "")`: every character of the class removed. */
  function RemoveChars(s: string, cs: set<char>): (r: string)
    ensures |r| <= |s|
    ensures forall i :: 0 <= i < |r| ==> r[i] !in cs
    ensures (forall i :: 0 <= i < |s| ==> s[i] !in cs) ==> r == s
  {
    if s == [] then [] else (if s[0] in cs then [] else [s[0]]) + RemoveChars(s[1..], cs)
  }

  /** Every character outside the class stays, as often as it occurs. */
  lemma {:induction false} RemoveCharsKeeps(s: string, cs: set<char>)
    ensures forall c :: c !in cs ==> multiset(RemoveChars(s, cs))[c] == multiset(s)[c]
  {
    if s != [] {
      RemoveCharsKeeps(s[1..], cs);
      assert s == [s[0]] + s[1..];
    }
  }

  /** The characters that stay keep their order: removing from a
      concatenation removes from each part. */
  lemma {:induction false} RemoveCharsAppend(s: string, t: string, cs: set<char>)
    ensures RemoveChars(s + t, cs) == RemoveChars(s, cs) + RemoveChars(t, cs)
  {
    if s != [] {
      RemoveCharsCons(s[0], s[1..] + t, cs);
      RemoveCharsCons(s[0], s[1..], cs);
      assert [s[0]] + (s[1..] + t) == s + t;
      assert [s[0]] + s[1..] == s;
      RemoveCharsAppend(s[1..], t, cs);
    } else {
      assert s + t == t;
    }
  }

  lemma RemoveCharsCons(c: char, s: string, cs: set<char>)
    ensures RemoveChars([c] + s, cs) == (if c in cs then [] else [c]) + RemoveChars(s, cs)
  {
    assert ([c] + s)[1..] == s;
  }

  /** `s.split(c)` for a one-character separator. */
  function Split(s: string, c: char): (parts: seq<string>)
    ensures |parts| >= 1
    ensures forall p :: p in parts ==> c !in p
    decreases |s|
  {
    IndexOfChar(s, c);
    match IndexOf(s, [c])
    case None => [s]
    case Some(i) => [s[..i]] + Split(s[i + 1..], c)
  }

  /** Joining the pieces with the separator gives the text back. */
  lemma {:induction false} JoinSplit(s: string, c: char)
    ensures Join(Split(s, c), [c]) == s
    decreases |s|
  {
    match IndexOf(s, [c])
    case None =>
    case Some(i) =>
      var rest := Split(s[i + 1..], c);
      JoinSplit(s[i + 1..], c);
      assert Split(s, c) == [s[..i]] + rest;
      assert (Split(s, c))[1..] == rest;
      assert s == s[..i] + [c] + s[i + 1..];
  }

  /** Splitting pieces that do not contain the separator, once joined with
      it, gives the pieces back. */
  lemma {:induction false} SplitJoin(parts: seq<string>, c: char)
    requires |parts| >= 1
    requires forall p :: p in parts ==> c !in p
    ensures Split(Join(parts, [c]), c) == parts
    decreases |parts|
  {
    var s := Join(parts, [c]);
    if |parts| == 1 {
      assert s == parts[0];
      forall j: nat | j + 1 <= |s| ensures !OccursAt(s, [c], j) {
        assert s[j..j + 1] == [s[j]];
      }
    } else {
      var first := parts[0];
      var rest := Join(parts[1..], [c]);
      assert s == first + [c] + rest;
      assert forall p :: p in parts[1..] ==> p in parts;
      SplitJoin(parts[1..], c);
      FirstSeparator(first, c, rest);
      assert s[..|first|] == first && s[|first| + 1..] == rest;
      assert parts == [first] + parts[1..];
    }
  }

  lemma FirstSeparator(first: string, c: char, rest: string)
    requires c !in first
    ensures IndexOf(first + [c] + rest, [c]) == Some(|first|)
  {
    var s := first + [c] + rest;
    assert OccursAt(s, [c], |first|) by {
      assert s[|first|..|first| + 1] == [c];
    }
    forall j: nat | j < |first| ensures !OccursAt(s, [c], j) {
      assert s[j..j + 1] == [s[j]];
      assert s[j] == first[j];
    }
  }

  /** Text without the separator is one piece. */
  lemma SplitNone(s: string, c: char)
    requires c !in s
    ensures Split(s, c) == [s]
  {
    forall j: nat | j + 1 <= |s| ensures !OccursAt(s, [c], j) {
      assert s[j..j + 1] == [s[j]];
    }
  }

  /** Text before the first separator is the first piece. */
  lemma SplitAtFirst(x: string, c: char, y: string)
    requires c !in x
    ensures Split(x + [c] + y, c) == [x] + Split(y, c)
  {
    var s := x + [c] + y;
    FirstSeparator(x, c, y);
    assert s[..|x|] == x && s[|x| + 1..] == y;
  }

  /** Splitting at a separator splits the two sides apart. */
  lemma {:induction false} SplitAppend(a: string, c: char, b: string)
    ensures Split(a + [c] + b, c) == Split(a, c) + Split(b, c)
    decreases |a|
  {
    IndexOfChar(a, c);
    match IndexOf(a, [c])
    case None =>
      SplitAtFirst(a, c, b);
      SplitNone(a, c);
    case Some(i) =>
      var a1, a2 := a[..i], a[i + 1..];
      SeparatorRegroup(a, i, c, b);
      SplitAtFirst(a1, c, a2);
      SplitAtFirst(a1, c, a2 + [c] + b);
      SplitAppend(a2, c, b);
      var p1, p2 := Split(a2, c), Split(b, c);
      assert [a1] + (p1 + p2) == [a1] + p1 + p2;
  }

  lemma SeparatorRegroup(a: string, i: nat, c: char, b: string)
    requires i < |a| && a[i] == c
    ensures a == a[..i] + [c] + a[i + 1..]
    ensures a + [c] + b == a[..i] + [c] + (a[i + 1..] + [c] + b)
  {
    assert a == a[..i] + [c] + a[i + 1..];
  }

  /** GetSubstitution of ECMA-262 (section 22.1.3.19.1) for a string
      pattern, which has no capture groups: `$$`, `$&`, `` $` `` and `$'`
      are expanded, every other `$` stays literal. */
  function Substitution(rep: string, matched: string, before: string, after: string): string
  {
    if |rep| >= 2 && rep[0] == '$' && rep[1] == '$' then
      "$" + Substitution(rep[2..], matched, before, after)
    else if |rep| >= 2 && rep[0] == '$' && rep[1] == '&' then
      matched + Substitution(rep[2..], matched, before, after)
    else if |rep| >= 2 && rep[0] == '$' && rep[1] == '`' then
      before + Substitution(rep[2..], matched, before, after)
    else if |rep| >= 2 && rep[0] == '$' && rep[1] == '\'' then
      after + Substitution(rep[2..], matched, before, after)
    else if rep == [] then ""
    else [rep[0]] + Substitution(rep[1..], matched, before, after)
  }

  lemma {:induction false} SubstitutionPlain(rep: string, matched: string, before: string, after: string)
    requires '$' !in rep
    ensures Substitution(rep, matched, before, after) == rep
  {
    if rep != [] {
      assert rep[0] != '$';
      SubstitutionPlain(rep[1..], matched, before, after);
      assert rep == [rep[0]] + rep[1..];
    }
  }

  /** `s.replace(p, rep)` with a string pattern: only the first occurrence. */
  function ReplaceFirst(s: string, p: string, rep: string): (r: string)
  {
    match IndexOf(s, p)
    case None => s
    case Some(i) => s[..i] + Substitution(rep, p, s[..i], s[i + |p|..]) + s[i + |p|..]
  }

  /** Replacing the first occurrence leaves the text before it untouched,
      splices in the replacement and keeps everything after it. */
  lemma ReplaceFirstAt(s: string, p: string, rep: string, i: nat)
    requires '$' !in rep
    requires IndexOf(s, p) == Some(i)
    ensures ReplaceFirst(s, p, rep) == s[..i] + rep + s[i + |p|..]
  {
    SubstitutionPlain(rep, p, s[..i], s[i + |p|..]);
  }

  /** The first occurrence of a pattern is where it is placed when its
      first character does not occur before it. */
  lemma FirstOccurrence(before: string, p: string, after: string)
    requires |p| > 0 && p[0] !in before
    ensures IndexOf(before + p + after, p) == Some(|before|)
  {
    var s := before + p + after;
    assert s[|before|..|before| + |p|] == p;
    assert OccursAt(s, p, |before|);
    forall j: nat | j < |before| ensures !OccursAt(s, p, j) {
      assert s[j] == before[j];
    }
  }

  /** The parts of a text put together from three. */
  lemma PartsOfThree(a: string, p: string, b: string)
    ensures (a + p + b)[..|a|] == a && (a + p + b)[|a| + |p|..] == b
  {
  }

  /** A replacement at the only place a pattern can first occur splices
      the substituted text between what stood around the pattern. */
  lemma ReplaceBetween(a: string, p: string, b: string, rep: string)
    requires IndexOf(a + p + b, p) == Some(|a|)
    ensures ReplaceFirst(a + p + b, p, rep) == a + Substitution(rep, p, a, b) + b
  {
    PartsOfThree(a, p, b);
  }
}
