/** Options and the string operations that the contracts and the planner rely on. */
module Text {

  datatype Option<+T> = None | Some(value: T)

  /** The code points that Python's str.strip() removes. */
  predicate IsSpace(c: char) {
    var k := c as int;
    || 9 <= k <= 13
    || 28 <= k <= 32
    || k == 0x85 || k == 0xA0 || k == 0x1680
    || 0x2000 <= k <= 0x200A
    || k == 0x2028 || k == 0x2029 || k == 0x202F || k == 0x205F || k == 0x3000
  }

  predicate IsAlnum(c: char) {
    'a' <= c <= 'z' || 'A' <= c <= 'Z' || '0' <= c <= '9'
  }

  predicate IsDash(c: char) { c == '-' }

  predicate IsQuote(c: char) { c == '"' }

  /** The first position from i on whose character is kept. */
  function Start(drop: char -> bool, s: string, i: nat): (k: nat)
    requires i <= |s|
    ensures i <= k <= |s| && (k < |s| ==> !drop(s[k]))
    ensures forall j :: i <= j < k ==> drop(s[j])
    decreases |s| - i
  {
    if i < |s| && drop(s[i]) then Start(drop, s, i + 1) else i
  }

  /** The end of the last character before n that is kept. */
  function End(drop: char -> bool, s: string, n: nat): (k: nat)
    requires n <= |s|
    ensures k <= n && (k > 0 ==> !drop(s[k - 1]))
    ensures forall j :: k <= j < n ==> drop(s[j])
  {
    if n > 0 && drop(s[n - 1]) then End(drop, s, n - 1) else n
  }

  function TrimLeft(drop: char -> bool, s: string): (r: string)
    ensures |r| <= |s|
    ensures r != [] ==> !drop(r[0])
  {
    s[Start(drop, s, 0)..]
  }

  function TrimRight(drop: char -> bool, s: string): (r: string)
    ensures |r| <= |s|
    ensures r != [] ==> !drop(r[|r| - 1])
  {
    s[..End(drop, s, |s|)]
  }

  function Trim(drop: char -> bool, s: string): (r: string)
    ensures r != [] ==> !drop(r[0]) && !drop(r[|r| - 1])
    ensures s == [] || (!drop(s[0]) && !drop(s[|s| - 1])) ==> r == s
  {
    TrimRight(drop, TrimLeft(drop, s))
  }

  function Strip(s: string): string { Trim(IsSpace, s) }

  predicate Trimmed(s: string) {
    s == [] || (!IsSpace(s[0]) && !IsSpace(s[|s| - 1]))
  }

  lemma StripIsTrimmed(s: string)
    ensures Trimmed(Strip(s))
    ensures Trimmed(s) <==> Strip(s) == s
  {
  }

  /** From a to b the text has lost what is dropped at its ends, and nothing else. */
  ghost predicate IsTrimmedTo(drop: char -> bool, s: string, a: nat, b: nat) {
    && a <= b <= |s| && (forall i :: 0 <= i < a ==> drop(s[i])) && (forall i :: b <= i < |s| ==> drop(s[i]))
    && (a < b ==> !drop(s[a]) && !drop(s[b - 1]))
  }

  lemma TrimIs(drop: char -> bool, s: string) returns (a: nat, b: nat)
    ensures IsTrimmedTo(drop, s, a, b) && Trim(drop, s) == s[a..b]
  {
    a := Start(drop, s, 0);
    var t := TrimLeft(drop, s);
    b := a + End(drop, t, |t|);
    assert forall i :: 0 <= i < |t| ==> t[i] == s[a + i];
    forall i | b <= i < |s| ensures drop(s[i]) {
      assert t[i - a] == s[i];
    }
    assert b > a ==> s[b - 1] == t[b - 1 - a];
  }

  /** Stripping takes off all the white space at both ends, and nothing else. */
  lemma StripIs(s: string) returns (a: nat, b: nat)
    ensures IsTrimmedTo(IsSpace, s, a, b) && Strip(s) == s[a..b]
  {
    a, b := TrimIs(IsSpace, s);
  }

  /** The code points that Python counts as white space. */
  const SPACES: set<int> := {
    0x09, 0x0A, 0x0B, 0x0C, 0x0D, 0x1C, 0x1D, 0x1E, 0x1F, 0x20, 0x85, 0xA0, 0x1680, 0x2000, 0x2001, 0x2002, 0x2003, 0x2004,
    0x2005, 0x2006, 0x2007, 0x2008, 0x2009, 0x200A, 0x2028, 0x2029, 0x202F, 0x205F, 0x3000}

  lemma SpaceIs(c: char)
    ensures IsSpace(c) <==> c as int in SPACES
  {
  }

  // ---------------------------------------------------------------- case folding

  function FoldChar(c: char): char {
    if 'A' <= c <= 'Z' then (c as int + 32) as char else c
  }

  /** Case folding, character by character. */
  function Fold(s: string): (r: string)
    ensures |r| == |s|
    ensures forall i :: 0 <= i < |s| ==> r[i] == FoldChar(s[i])
  {
    seq(|s|, i requires 0 <= i < |s| => FoldChar(s[i]))
  }

  /** Capitals become the small letters 32 places on; every other character stays. */
  lemma FoldIs(s: string, i: nat)
    requires i < |s|
    ensures |Fold(s)| == |s|
    ensures 65 <= s[i] as int <= 90 ==> Fold(s)[i] as int == s[i] as int + 32
    ensures !(65 <= s[i] as int <= 90) ==> Fold(s)[i] == s[i]
  {
  }

  lemma FoldIdempotent(s: string)
    ensures Fold(Fold(s)) == Fold(s)
  {
  }

  // ---------------------------------------------------------------- splitting

  /** str.split(sep, 1) when sep occurs: the text before and after its first occurrence. */
  function SplitFirst(s: string, sep: char): (r: Option<(string, string)>)
    ensures r.None? <==> sep !in s
    ensures r.Some? ==> s == r.value.0 + [sep] + r.value.1 && sep !in r.value.0
  {
    if s == [] then None
    else if s[0] == sep then Some(([], s[1..]))
    else
      match SplitFirst(s[1..], sep)
      case None => None
      case Some(parts) =>
        assert s == [s[0]] + s[1..];
        Some(([s[0]] + parts.0, parts.1))
  }

  lemma {:induction false} SplitFirstAt(key: string, sep: char, rest: string)
    requires sep !in key
    ensures SplitFirst(key + [sep] + rest, sep) == Some((key, rest))
  {
    if key == [] {
      assert ([sep] + rest)[1..] == rest;
      assert key + [sep] + rest == [sep] + rest;
    } else {
      assert (key + [sep] + rest)[1..] == key[1..] + [sep] + rest;
      SplitFirstAt(key[1..], sep, rest);
      assert [key[0]] + key[1..] == key;
    }
  }

  /** str.split(sep): every piece between two occurrences of sep. */
  function SplitAll(s: string, sep: char): (r: seq<string>)
    ensures |r| >= 1
    decreases |s|
  {
    match SplitFirst(s, sep)
    case None => [s]
    case Some(parts) => [parts.0] + SplitAll(parts.1, sep)
  }

  /** str.split(): the maximal runs of non-space characters. */
  function Words(s: string): (r: seq<string>)
    decreases |s|
  {
    var t := TrimLeft(IsSpace, s);
    if t == [] then []
    else
      var n := WordLength(t);
      [t[..n]] + Words(t[n..])
  }

  function WordLength(s: string): (n: nat)
    ensures n <= |s|
    ensures s != [] && !IsSpace(s[0]) ==> n > 0
  {
    if s == [] || IsSpace(s[0]) then 0 else 1 + WordLength(s[1..])
  }

  /** `part in s` for strings. */
  predicate Contains(s: string, part: string) {
    part <= s || (s != [] && Contains(s[1..], part))
  }

  ghost predicate StandsAt(s: string, part: string, i: nat) {
    i + |part| <= |s| && forall j :: 0 <= j < |part| ==> s[i + j] == part[j]
  }

  lemma PrefixStands(s: string, part: string)
    ensures StandsAt(s, part, 0) <==> part <= s
  {
    if StandsAt(s, part, 0) {
      assert part == s[..|part|];
    }
  }

  /** A text contains another that stands somewhere in it. */
  lemma {:induction false} ContainsIs(s: string, part: string)
    ensures Contains(s, part) <==> exists i: nat :: StandsAt(s, part, i)
  {
    PrefixStands(s, part);
    if !(part <= s) && s != [] {
      ContainsIs(s[1..], part);
      if i: nat :| StandsAt(s[1..], part, i) {
        assert StandsAt(s, part, i + 1);
      }
      if i: nat :| StandsAt(s, part, i) {
        assert StandsAt(s[1..], part, i - 1);
      }
    }
  }

  // ---------------------------------------------------------------- safe identifiers

  function SafeChar(c: char): char {
    if IsAlnum(c) || c == '-' || c == '_' then c else '-'
  }

  function SafeChars(s: string): (r: string)
    ensures |r| == |s|
    ensures forall i :: 0 <= i < |s| ==> r[i] == SafeChar(s[i])
  {
    seq(|s|, i requires 0 <= i < |s| => SafeChar(s[i]))
  }

  /** The identifier that the case builder derives from a claim id. */
  function SafeId(s: string): string {
    var t := Trim(IsDash, SafeChars(s));
    if t == [] then "value" else t
  }

  ghost predicate IsSafe(c: char) {
    || 48 <= c as int <= 57 || 65 <= c as int <= 90 || 97 <= c as int <= 122 || c == '-' || c == '_'
  }

  /** From a to b the text is kept, with a dash for every character that is not safe; around it there are only dashes. */
  ghost predicate IsSafeForm(s: string, a: nat, b: nat, r: string) {
    && a < b <= |s| && |r| == b - a && (forall i :: a <= i < b ==> r[i - a] == if IsSafe(s[i]) then s[i] else '-')
    && r[0] != '-' && r[|r| - 1] != '-'
    && forall i :: 0 <= i < |s| && (i < a || i >= b) ==> s[i] == '-' || !IsSafe(s[i])
  }

  lemma SafeCharsAre(s: string, i: nat)
    requires i < |s|
    ensures SafeChars(s)[i] == if IsSafe(s[i]) then s[i] else '-'
  {
  }

  /** The derived identifier: the text in safe characters without dashes at its ends, or a fixed word if nothing is left. */
  lemma SafeIdIs(s: string)
    ensures (exists a: nat, b: nat :: IsSafeForm(s, a, b, SafeId(s)))
      || (SafeId(s) == "value" && forall i :: 0 <= i < |s| ==> s[i] == '-' || !IsSafe(s[i]))
  {
    var safe := SafeChars(s);
    forall i | 0 <= i < |s| ensures safe[i] == if IsSafe(s[i]) then s[i] else '-' {
      SafeCharsAre(s, i);
    }
    var a, b := TrimIs(IsDash, safe);
    if a < b {
      SafeFormIs(s, safe, a, b, SafeId(s));
    }
  }

  lemma SafeFormIs(s: string, safe: string, a: nat, b: nat, r: string)
    requires |safe| == |s| && (forall i :: 0 <= i < |s| ==> safe[i] == if IsSafe(s[i]) then s[i] else '-')
    requires IsTrimmedTo(IsDash, safe, a, b) && a < b && r == safe[a..b]
    ensures IsSafeForm(s, a, b, r)
  {
    forall i | 0 <= i < |s| && (i < a || i >= b) ensures s[i] == '-' || !IsSafe(s[i]) {
      assert IsDash(safe[i]);
    }
  }

  /** A start that has been passed already can be cut off. */
  lemma StartOfRest(drop: char -> bool, s: string, a: nat)
    requires a <= |s| && forall j :: 0 <= j < a ==> drop(s[j])
    ensures TrimLeft(drop, s[a..]) == TrimLeft(drop, s)
  {
    var b, rest := Start(drop, s, 0), s[a..];
    assert a <= b;
    assert b < |s| ==> rest[b - a] == s[b];
    assert forall j :: 0 <= j < b - a ==> rest[j] == s[j + a];
    assert Start(drop, rest, 0) == b - a;
  }

  /** Leading characters that become dashes are trimmed either way. */
  lemma TrimLeftSpaces(s: string)
    ensures TrimLeft(IsDash, SafeChars(TrimLeft(IsSpace, s))) == TrimLeft(IsDash, SafeChars(s))
  {
    var a, safe := Start(IsSpace, s, 0), SafeChars(s);
    assert SafeChars(s[a..]) == safe[a..];
    forall j | 0 <= j < a ensures IsDash(safe[j]) {
      assert IsSpace(s[j]) && safe[j] == SafeChar(s[j]);
    }
    StartOfRest(IsDash, safe, a);
  }

  lemma EndOfPrefix(drop: char -> bool, s: string, n: nat)
    requires n <= |s| && forall j :: n <= j < |s| ==> drop(s[j])
    ensures End(drop, s, |s|) == End(drop, s[..n], n)
  {
    var k, l := End(drop, s, |s|), End(drop, s[..n], n);
    assert k <= n;
    assert k > 0 ==> s[..n][k - 1] == s[k - 1];
    assert forall j :: k <= j < n ==> s[..n][j] == s[j];
  }

  /** Trailing ones too, whether or not the leading ones are trimmed first. */
  lemma TrimRightSpaces(s: string)
    ensures Trim(IsDash, SafeChars(TrimRight(IsSpace, s))) == Trim(IsDash, SafeChars(s))
  {
    var e, safe := End(IsSpace, s, |s|), SafeChars(s);
    var cut := safe[..e];
    assert SafeChars(s[..e]) == cut;
    assert forall j :: e <= j < |s| ==> safe[j] == SafeChar(s[j]) && IsDash(safe[j]);
    TrimOfPrefix(IsDash, safe, e);
  }

  /** A tail of dropped characters does not move the start, unless nothing at all is kept. */
  lemma StartOfPrefix(drop: char -> bool, s: string, e: nat)
    requires e <= |s| && forall j :: e <= j < |s| ==> drop(s[j])
    ensures Start(drop, s[..e], 0) < e ==> Start(drop, s, 0) == Start(drop, s[..e], 0)
    ensures Start(drop, s[..e], 0) == e ==> Start(drop, s, 0) == |s|
  {
    var cut := s[..e];
    assert forall j :: 0 <= j < e ==> cut[j] == s[j];
  }

  lemma TrimRightOfPrefix(drop: char -> bool, s: string, n: nat)
    requires n <= |s| && forall j :: n <= j < |s| ==> drop(s[j])
    ensures TrimRight(drop, s[..n]) == TrimRight(drop, s)
  {
    EndOfPrefix(drop, s, n);
  }

  lemma TrimLeftOfPrefix(drop: char -> bool, s: string, e: nat)
    requires e <= |s| && (forall j :: e <= j < |s| ==> drop(s[j])) && Start(drop, s[..e], 0) < e
    ensures var t := TrimLeft(drop, s); var n := e - Start(drop, s[..e], 0);
      n <= |t| && TrimLeft(drop, s[..e]) == t[..n] && forall j :: n <= j < |t| ==> drop(t[j])
  {
    var a := Start(drop, s[..e], 0);
    StartOfPrefix(drop, s, e);
    assert s[a..][..e - a] == s[..e][a..];
  }

  lemma TrimOfPrefix(drop: char -> bool, s: string, e: nat)
    requires e <= |s| && forall j :: e <= j < |s| ==> drop(s[j])
    ensures Trim(drop, s[..e]) == Trim(drop, s)
  {
    if Start(drop, s[..e], 0) < e {
      TrimLeftOfPrefix(drop, s, e);
      TrimRightOfPrefix(drop, TrimLeft(drop, s), e - Start(drop, s[..e], 0));
    } else {
      StartOfPrefix(drop, s, e);
    }
  }

  /** Surrounding white space never changes the derived identifier. */
  lemma SafeIdIgnoresPadding(s: string)
    ensures SafeId(Strip(s)) == SafeId(s)
  {
    TrimLeftSpaces(s);
    TrimRightSpaces(TrimLeft(IsSpace, s));
  }

  // ---------------------------------------------------------------- white space around a separator

  lemma StripTrimmedLeft(s: string)
    ensures Strip(TrimLeft(IsSpace, s)) == Strip(s)
  {
    var t := TrimLeft(IsSpace, s);
    assert Start(IsSpace, t, 0) == 0 && t[0..] == t;
  }

  lemma StripTrimmedRight(s: string)
    ensures Strip(TrimRight(IsSpace, s)) == Strip(s)
  {
    TrimOfPrefix(IsSpace, s, End(IsSpace, s, |s|));
  }

  lemma TrimLeftAround(a: string, sep: char, b: string)
    requires !IsSpace(sep)
    ensures TrimLeft(IsSpace, a + [sep] + b) == TrimLeft(IsSpace, a) + [sep] + b
  {
    var s, k := a + [sep] + b, Start(IsSpace, a, 0);
    assert s[|a|] == sep;
    assert forall j :: 0 <= j < |a| ==> s[j] == a[j];
    assert Start(IsSpace, s, 0) == k;
    assert s[k..] == a[k..] + [sep] + b;
  }

  lemma TrimRightAround(a: string, sep: char, b: string)
    requires !IsSpace(sep)
    ensures TrimRight(IsSpace, a + [sep] + b) == a + [sep] + TrimRight(IsSpace, b)
  {
    var head := a + [sep];
    EndAround(head + b, |head|, b);
    PrefixOfConcat(head, b, End(IsSpace, b, |b|));
  }

  lemma PrefixOfConcat(s: string, t: string, k: nat)
    requires k <= |t|
    ensures (s + t)[..|s| + k] == s + t[..k]
  {
  }

  lemma EndAround(s: string, n: nat, b: string)
    requires 0 < n && |s| == n + |b| && !IsSpace(s[n - 1]) && forall j :: 0 <= j < |b| ==> s[n + j] == b[j]
    ensures End(IsSpace, s, |s|) == n + End(IsSpace, b, |b|)
  {
    var k, e := End(IsSpace, b, |b|), End(IsSpace, s, |s|);
    assert k > 0 ==> s[n + (k - 1)] == b[k - 1];
    assert forall j :: n + k <= j < |s| ==> s[j] == b[j - n];
    assert e >= n;
    assert e > n ==> s[e - 1] == b[e - 1 - n];
  }

  /** Stripping a text around a separator strips its left part on the left and its right part on the right. */
  lemma StripAround(a: string, sep: char, b: string)
    requires !IsSpace(sep)
    ensures Strip(a + [sep] + b) == TrimLeft(IsSpace, a) + [sep] + TrimRight(IsSpace, b)
  {
    TrimLeftAround(a, sep, b);
    TrimRightAround(TrimLeft(IsSpace, a), sep, b);
  }

  // ---------------------------------------------------------------- string order

  /** Python's order on strings: lexicographic by code point. */
  predicate StrLe(a: string, b: string) {
    a == [] || (b != [] && (a[0] < b[0] || (a[0] == b[0] && StrLe(a[1..], b[1..]))))
  }

  /** The texts differ first at i, where a has the smaller character. */
  ghost predicate IsSmallerAt(a: string, b: string, i: nat) {
    i < |a| && i < |b| && a[i] < b[i] && forall j :: 0 <= j < i ==> a[j] == b[j]
  }

  /** Prefixes come first; otherwise the first difference decides. */
  lemma {:induction false} StrLeIs(a: string, b: string)
    ensures StrLe(a, b) <==> a <= b || exists i: nat :: IsSmallerAt(a, b, i)
  {
    if a != [] && b != [] {
      assert a == [a[0]] + a[1..] && b == [b[0]] + b[1..];
      if a[0] == b[0] {
        StrLeIs(a[1..], b[1..]);
        if i: nat :| IsSmallerAt(a[1..], b[1..], i) {
          assert IsSmallerAt(a, b, i + 1);
        }
        if i: nat :| IsSmallerAt(a, b, i) {
          assert IsSmallerAt(a[1..], b[1..], i - 1);
        }
      } else if a[0] < b[0] {
        assert IsSmallerAt(a, b, 0);
      }
    }
  }

  predicate StrLess(a: string, b: string) { StrLe(a, b) && a != b }

  lemma StrLeTotal(a: string, b: string)
    ensures StrLe(a, b) || StrLe(b, a)
    ensures StrLe(a, a)
  {
  }

  lemma {:induction false} StrLeAntisymmetric(a: string, b: string)
    requires StrLe(a, b) && StrLe(b, a)
    ensures a == b
  {
    if a != [] && b != [] {
      StrLeAntisymmetric(a[1..], b[1..]);
      assert a == [a[0]] + a[1..] && b == [b[0]] + b[1..];
    }
  }

  lemma {:induction false} StrLeTransitive(a: string, b: string, c: string)
    requires StrLe(a, b) && StrLe(b, c)
    ensures StrLe(a, c)
  {
    if a != [] && a[0] == b[0] && b[0] == c[0] {
      StrLeTransitive(a[1..], b[1..], c[1..]);
    }
  }

  // ------------------------------------------------------------ slices

  /** The slice up to n: a negative n leaves off the last -n items. */
  function Take<T>(s: seq<T>, n: int): (r: seq<T>)
    ensures r <= s && (n >= 0 ==> |r| <= n) && (n >= |s| ==> r == s)
    ensures 0 <= n <= |s| ==> |r| == n
    ensures n < 0 ==> |r| == if |s| + n >= 0 then |s| + n else 0
  {
    if n >= |s| then s else if n >= 0 then s[..n] else if -n >= |s| then [] else s[..|s| + n]
  }
}
