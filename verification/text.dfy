/** Python string operations that the plan parser and the pipe-syntax generator rely on,
    over strings as sequences of characters: `in`, `find`/`index`, `split`, `join`,
    `strip`, `upper`, `lower`, `replace(c, "")`, `startswith`, `float` on decimals and
    `str` of a list of strings. */
module Text {

  datatype Option<T> = None | Some(value: T)

  function GetOr<T>(o: Option<T>, default: T): T {
    match o
    case Some(v) => v
    case None => default
  }

  /** `sub` occurs in `s` starting at index `k`. */
  predicate OccursAt(s: string, k: int, sub: string) {
    0 <= k && k + |sub| <= |s| && s[k..k + |sub|] == sub
  }

  /** The first occurrence of `sub` in `s` at or after index `k`. */
  function FindFrom(s: string, sub: string, k: nat): (r: Option<nat>)
    requires k <= |s|
    decreases |s| - k
    ensures r.Some? ==> k <= r.value && OccursAt(s, r.value, sub)
    ensures r.Some? ==> forall j :: k <= j < r.value ==> !OccursAt(s, j, sub)
    ensures r.None? ==> forall j :: k <= j ==> !OccursAt(s, j, sub)
  {
    if OccursAt(s, k, sub) then Some(k)
    else if k + |sub| >= |s| then None
    else FindFrom(s, sub, k + 1)
  }

  /** Python's `s.find(sub)` (`None` for -1), and so `s.index(sub)` when it does not raise. */
  function Find(s: string, sub: string): Option<nat> {
    FindFrom(s, sub, 0)
  }

  /** Python's `sub in s`. */
  predicate Contains(s: string, sub: string) {
    Find(s, sub).Some?
  }

  lemma {:induction false} FindIsFirst(s: string, sub: string, k: nat)
    requires OccursAt(s, k, sub)
    requires forall j :: j < k ==> !OccursAt(s, j, sub)
    ensures Find(s, sub) == Some(k)
  {
  }

  lemma {:induction false} FindAbsent(s: string, sub: string)
    requires forall j :: !OccursAt(s, j, sub)
    ensures Find(s, sub) == None
  {
  }

  /** `sub` does not occur at `j` when one of its characters differs from the text. */
  lemma {:induction false} MismatchAt(s: string, j: int, sub: string, i: nat)
    requires i < |sub| && 0 <= j && j + i < |s| && s[j + i] != sub[i]
    ensures !OccursAt(s, j, sub)
  {
    if j + |sub| <= |s| {
      assert s[j..j + |sub|][i] == s[j + i];
    }
  }

  lemma {:induction false} ContainsAt(s: string, sub: string, k: nat)
    requires OccursAt(s, k, sub)
    ensures Contains(s, sub)
  {
  }

  /** A one-character needle occurs exactly where its character does. */
  lemma {:induction false} ContainsChar(s: string, c: char)
    ensures Contains(s, [c]) <==> c in s
  {
    if c in s {
      var k :| 0 <= k < |s| && s[k] == c;
      assert OccursAt(s, k, [c]);
    } else {
      forall j ensures !OccursAt(s, j, [c]) {
        if 0 <= j < |s| { assert s[j..j + 1] == [s[j]]; }
      }
    }
  }

  /** Python's `s.startswith(prefix)`. */
  predicate StartsWith(s: string, prefix: string): (r: bool)
    ensures r <==> |prefix| <= |s| && s == prefix + s[|prefix|..]
  {
    assert |prefix| <= |s| ==> s == s[..|prefix|] + s[|prefix|..];
    |prefix| <= |s| && s[..|prefix|] == prefix
  }

  /** Python's `s.endswith(suffix)`. */
  predicate EndsWith(s: string, suffix: string) {
    |suffix| <= |s| && s[|s| - |suffix|..] == suffix
  }

  /** Python's `s.split(sep)` for a non-empty separator: cut at every occurrence, scanning
      left to right without overlap. */
  function Split(s: string, sep: string): (r: seq<string>)
    requires |sep| > 0
    decreases |s|
    ensures |r| >= 1
  {
    match Find(s, sep)
    case None => [s]
    case Some(k) => [s[..k]] + Split(s[k + |sep|..], sep)
  }

  /** The first piece is the text before the first separator, or the whole text. */
  lemma {:induction false} SplitFirst(s: string, sep: string)
    requires |sep| > 0
    ensures Find(s, sep).None? ==> Split(s, sep) == [s]
    ensures Find(s, sep).Some? ==> Split(s, sep)[0] == s[..Find(s, sep).value]
  {
  }

  /** The last piece holds no separator ... */
  lemma {:induction false} SplitLastClean(s: string, sep: string)
    requires |sep| > 0
    ensures !Contains(Last(Split(s, sep)), sep)
    decreases |s|
  {
    match Find(s, sep)
    case None =>
    case Some(k) =>
      var rest := s[k + |sep|..];
      SplitLastClean(rest, sep);
      var r, t := Split(s, sep), Split(rest, sep);
      assert r == [s[..k]] + t;
      assert Last(r) == Last(t);
  }

  /** ... and, when the separator occurs at all, it comes right after an occurrence. */
  lemma {:induction false} SplitLastAfter(s: string, sep: string)
    requires |sep| > 0
    ensures Find(s, sep).None? ==> Last(Split(s, sep)) == s
    ensures Find(s, sep).Some? ==> EndsWith(s, sep + Last(Split(s, sep)))
    decreases |s|
  {
    match Find(s, sep)
    case None =>
    case Some(k0) =>
      var rest := s[k0 + |sep|..];
      SplitLastAfter(rest, sep);
      var r, t := Split(s, sep), Split(rest, sep);
      assert r == [s[..k0]] + t;
      var piece := Last(t);
      assert Last(r) == piece;
      if Find(rest, sep).None? {
        assert s[k0..] == sep + rest;
        SuffixOfSuffix(s, k0, sep + piece);
      } else {
        SuffixOfSuffix(s, k0 + |sep|, sep + piece);
      }
  }

  /** A suffix of a suffix is a suffix. */
  lemma {:induction false} SuffixOfSuffix(s: string, d: nat, x: string)
    requires d <= |s| && EndsWith(s[d..], x)
    ensures EndsWith(s, x)
  {
    assert s[|s| - |x|..] == s[d..][|s[d..]| - |x|..];
  }

  lemma {:induction false} AppendAssoc<T>(a: seq<T>, b: seq<T>, c: seq<T>)
    ensures a + (b + c) == (a + b) + c
  {
  }

  /** Python's `sep.join(parts)`. */
  function Join(parts: seq<string>, sep: string): (r: string)
    ensures |parts| == 0 ==> r == ""
    ensures |parts| > 0 ==> |r| >= |parts[0]|
  {
    if |parts| == 0 then ""
    else if |parts| == 1 then parts[0]
    else parts[0] + sep + Join(parts[1..], sep)
  }

  /** A join starts with the first part and ends with the last. */
  lemma {:induction false} JoinEnds(parts: seq<string>, sep: string)
    requires |parts| > 0
    ensures StartsWith(Join(parts, sep), parts[0]) && EndsWith(Join(parts, sep), Last(parts))
    decreases |parts|
  {
    if |parts| > 1 {
      var rest := Join(parts[1..], sep);
      JoinEnds(parts[1..], sep);
      var r := parts[0] + sep + rest;
      assert r[..|parts[0]|] == parts[0];
      assert r[|r| - |rest|..] == rest;
      assert Last(parts[1..]) == Last(parts);
    }
  }

  function Last<T>(s: seq<T>): T
    requires |s| > 0
  {
    s[|s| - 1]
  }

  /** Joining what `Split` cut gives the string back. */
  lemma {:induction false} SplitThenJoin(s: string, sep: string)
    requires |sep| > 0
    ensures Join(Split(s, sep), sep) == s
    decreases |s|
  {
    match Find(s, sep)
    case None =>
    case Some(k) =>
      var rest := s[k + |sep|..];
      SplitThenJoin(rest, sep);
      JoinCons(s[..k], Split(rest, sep), sep);
      AroundOccurrence(s, k, sep);
  }

  lemma {:induction false} JoinCons(head: string, parts: seq<string>, sep: string)
    requires |parts| >= 1
    ensures Join([head] + parts, sep) == head + sep + Join(parts, sep)
  {
    assert ([head] + parts)[1..] == parts;
  }

  lemma {:induction false} AroundOccurrence(s: string, k: int, sub: string)
    requires OccursAt(s, k, sub)
    ensures s == s[..k] + sub + s[k + |sub|..]
  {
    assert s == s[..k] + s[k..k + |sub|] + s[k + |sub|..];
  }

  lemma {:induction false} SplitWithoutSeparator(s: string, sep: string)
    requires |sep| > 0 && !Contains(s, sep)
    ensures Split(s, sep) == [s]
  {
  }

  /** Cutting `a + sep + b` where `sep` does not start inside `a`. */
  lemma {:induction false} SplitAfterFirst(a: string, sep: string, b: string)
    requires |sep| > 0
    requires forall j :: j < |a| ==> !OccursAt(a + sep + b, j, sep)
    ensures Split(a + sep + b, sep) == [a] + Split(b, sep)
  {
    var s := a + sep + b;
    assert s[|a|..|a| + |sep|] == sep;
    FindIsFirst(s, sep, |a|);
    assert s[..|a|] == a;
    assert s[|a| + |sep|..] == b;
  }

  /** A two-character needle cannot start where the next two characters differ from it. */
  lemma {:induction false} NoPairAt(s: string, j: int, sub: string)
    requires |sub| == 2 && 0 <= j && j + 1 < |s|
    requires s[j] != sub[0] || s[j + 1] != sub[1]
    ensures !OccursAt(s, j, sub)
  {
    if j + 2 <= |s| {
      assert s[j..j + 2][0] == s[j] && s[j..j + 2][1] == s[j + 1];
    }
  }

  /** With a one-character separator that no part contains, `Split` undoes `Join`. */
  lemma {:induction false} JoinThenSplit(parts: seq<string>, sep: string)
    requires |sep| == 1 && |parts| >= 1
    requires forall i :: 0 <= i < |parts| ==> sep[0] !in parts[i]
    ensures Split(Join(parts, sep), sep) == parts
    decreases |parts|
  {
    if |parts| == 1 {
      ContainsChar(parts[0], sep[0]);
      assert sep == [sep[0]];
      SplitWithoutSeparator(parts[0], sep);
    } else {
      var a, rest := parts[0], parts[1..];
      var s := a + sep + Join(rest, sep);
      forall j | j < |a| ensures !OccursAt(s, j, sep) {
        if 0 <= j { assert s[j..j + 1] == [a[j]]; }
      }
      SplitAfterFirst(a, sep, Join(rest, sep));
      JoinThenSplit(rest, sep);
    }
  }

  /** Python's `str.isspace` on one character. */
  predicate IsSpace(c: char) {
    var n := c as int;
    (9 <= n <= 13) || (28 <= n <= 32) || n == 0x85 || n == 0xA0 || n == 0x1680
    || (0x2000 <= n <= 0x200A) || n == 0x2028 || n == 0x2029 || n == 0x202F
    || n == 0x205F || n == 0x3000
  }

  /** Python's `s.lstrip()`. */
  function TrimStart(s: string): (r: string)
    ensures |r| <= |s| && r == s[|s| - |r|..]
    ensures forall k :: 0 <= k < |s| - |r| ==> IsSpace(s[k])
    ensures r != [] ==> !IsSpace(r[0])
  {
    if s != [] && IsSpace(s[0]) then TrimStart(s[1..]) else s
  }

  /** Python's `s.rstrip()`. */
  function TrimEnd(s: string): (r: string)
    ensures |r| <= |s| && r == s[..|r|]
    ensures forall k :: |r| <= k < |s| ==> IsSpace(s[k])
    ensures r != [] ==> !IsSpace(r[|r| - 1])
  {
    if s != [] && IsSpace(s[|s| - 1]) then TrimEnd(s[..|s| - 1]) else s
  }

  /** Python's `s.strip()`: the infix left after dropping leading and trailing white space. */
  function Strip(s: string): (r: string)
    ensures exists i, j :: 0 <= i <= j <= |s| && r == s[i..j]
                           && (forall k :: 0 <= k < i ==> IsSpace(s[k]))
                           && (forall k :: j <= k < |s| ==> IsSpace(s[k]))
    ensures r != [] ==> !IsSpace(r[0]) && !IsSpace(r[|r| - 1])
  {
    var t := TrimStart(s);
    var r := TrimEnd(t);
    var i := |s| - |t|;
    assert r == s[i..i + |r|];
    r
  }

  function UpperChar(c: char): char {
    if 'a' <= c <= 'z' then (c as int - 32) as char else c
  }

  function LowerChar(c: char): char {
    if 'A' <= c <= 'Z' then (c as int + 32) as char else c
  }

  /** Python's `s.upper()` on the ASCII letters. */
  function Upper(s: string): (r: string)
    ensures |r| == |s| && forall i :: 0 <= i < |s| ==> r[i] == UpperChar(s[i])
  {
    seq(|s|, i requires 0 <= i < |s| => UpperChar(s[i]))
  }

  /** Python's `s.lower()` on the ASCII letters. */
  function Lower(s: string): (r: string)
    ensures |r| == |s| && forall i :: 0 <= i < |s| ==> r[i] == LowerChar(s[i])
  {
    seq(|s|, i requires 0 <= i < |s| => LowerChar(s[i]))
  }

  /** Python's `s.replace(c, "")` for a one-character `c`. */
  function Remove(s: string, c: char): (r: string)
    ensures c !in r && |r| <= |s|
    decreases |s|
  {
    if s == [] then []
    else (if s[0] == c then [] else [s[0]]) + Remove(s[1..], c)
  }

  /** Every occurrence of `c` goes, and every other character stays as often. */
  lemma {:induction false} RemoveCounts(s: string, c: char)
    ensures multiset(Remove(s, c)) == multiset(s)[c := 0]
    decreases |s|
  {
    if s != [] {
      RemoveCounts(s[1..], c);
      assert s == [s[0]] + s[1..];
    }
  }

  lemma {:induction false} RemoveConcat(a: string, b: string, c: char)
    ensures Remove(a + b, c) == Remove(a, c) + Remove(b, c)
    decreases |a|
  {
    if a != [] {
      assert (a + b)[1..] == a[1..] + b;
      RemoveConcat(a[1..], b, c);
    } else {
      assert a + b == b;
    }
  }

  lemma {:induction false} RemoveAbsent(s: string, c: char)
    requires c !in s
    ensures Remove(s, c) == s
    decreases |s|
  {
    if s != [] {
      RemoveAbsent(s[1..], c);
      assert s == [s[0]] + s[1..];
    }
  }

  /** Python's `str(keys)` for a list of strings without quotes or escapes in them. */
  function ListRepr(keys: seq<string>): (r: string)
    ensures |r| >= 2 && r[0] == '[' && r[|r| - 1] == ']'
    ensures keys == [] ==> r == "[]"
    ensures |keys| == 1 ==> r == "[" + ("'" + keys[0] + "'") + "]"
  {
    "[" + Join(Quoted(keys), ", ") + "]"
  }

  function Quoted(keys: seq<string>): (r: seq<string>)
    ensures |r| == |keys|
  {
    if keys == [] then [] else ["'" + keys[0] + "'"] + Quoted(keys[1..])
  }

  // ---------------------------------------------------------------------------
  // Decimal numbers, as `float()` reads the numbers of a cost annotation
  // ---------------------------------------------------------------------------

  predicate IsDigit(c: char) {
    '0' <= c <= '9'
  }

  predicate IsDigits(s: string) {
    |s| > 0 && forall i :: 0 <= i < |s| ==> IsDigit(s[i])
  }

  function DigitsValue(s: string): nat
    requires forall i :: 0 <= i < |s| ==> IsDigit(s[i])
  {
    if s == [] then 0
    else
      var d := s[|s| - 1];
      assert IsDigit(d);
      10 * DigitsValue(s[..|s| - 1]) + (d as int - '0' as int)
  }

  function Pow10(n: nat): (r: nat)
    ensures r >= 1
  {
    if n == 0 then 1 else 10 * Pow10(n - 1)
  }

  /** `float(s)` for an unsigned decimal `digits` or `digits.digits`; `None` for anything else. */
  function ParseNumber(s: string): (r: Option<real>)
    ensures r.Some? ==> r.value >= 0.0
    ensures r.Some? ==> |s| > 0 && IsDigit(s[0]) && IsDigit(s[|s| - 1])
    ensures r.Some? ==> forall i :: 0 <= i < |s| ==> IsDigit(s[i]) || s[i] == '.'
  {
    match Find(s, ".")
    case None =>
      if IsDigits(s) then Some(DigitsValue(s) as real) else None
    case Some(k) =>
      var whole, frac := s[..k], s[k + 1..];
      if IsDigits(whole) && IsDigits(frac) then
        assert s == whole + "." + frac;
        Some(DigitsValue(whole) as real + DigitsValue(frac) as real / Pow10(|frac|) as real)
      else None
  }

  /** A number `ParseNumber` accepts never holds two dots in a row. */
  lemma {:induction false} NumberHasNoDoubleDot(s: string, i: nat)
    requires ParseNumber(s).Some? && i + 1 < |s|
    ensures s[i] == '.' ==> s[i + 1] != '.'
  {
    assert OccursAt(s, i, ".") <==> s[i] == '.' by {
      assert s[i..i + 1] == [s[i]];
    }
    match Find(s, ".")
    case None =>
    case Some(k) =>
      var frac := s[k + 1..];
      assert IsDigits(frac);
      if i == k {
        assert frac[0] == s[i + 1];
      } else if k < i {
        assert frac[i - k - 1] == s[i];
      }
  }
}
