/** Which texts a discovery asks for, in terms of the anchors and the search terms of the hunt. */
module SearchTerms {
  import opened Text
  import opened Relaxation

  // ------------------------------------------------------------ pieces of a path

  predicate IsSlash(c: char) { c == '\\' || c == '/' }

  predicate IsDoubleQuote(c: char) { c == '"' }

  function Separator(sep: char): char -> bool { c => c == sep }

  /** From a to b the text is a longest part without separators. */
  ghost predicate IsPieceAt(s: string, sep: char -> bool, a: nat, b: nat, piece: string) {
    && a <= b <= |s| && piece == s[a..b] && (forall i :: a <= i < b ==> !sep(s[i]))
    && (a > 0 ==> sep(s[a - 1])) && (b < |s| ==> sep(s[b]))
  }

  /** A longest part of s without separators; the part may be empty. */
  ghost predicate IsPiece(s: string, sep: char -> bool, piece: string) {
    exists a: nat, b: nat :: IsPieceAt(s, sep, a, b, piece)
  }

  lemma PieceOfTail(s: string, sep: char -> bool, n: nat, piece: string)
    requires n < |s| && sep(s[n]) && forall i :: 0 <= i < n ==> !sep(s[i])
    ensures IsPiece(s, sep, piece) <==> piece == s[..n] || IsPiece(s[n + 1..], sep, piece)
  {
    var rest := s[n + 1..];
    assert IsPieceAt(s, sep, 0, n, s[..n]);
    if a: nat, b: nat :| IsPieceAt(rest, sep, a, b, piece) {
      assert rest[a..b] == s[n + 1 + a..n + 1 + b];
      assert IsPieceAt(s, sep, n + 1 + a, n + 1 + b, piece);
    }
    if a: nat, b: nat :| IsPieceAt(s, sep, a, b, piece) {
      if a <= n {
        assert a == 0;
        assert b == n;
      } else {
        assert rest[a - n - 1..b - n - 1] == s[a..b];
        assert IsPieceAt(rest, sep, a - n - 1, b - n - 1, piece);
      }
    }
  }

  lemma PieceOfWhole(s: string, sep: char -> bool, piece: string)
    requires forall i :: 0 <= i < |s| ==> !sep(s[i])
    ensures IsPiece(s, sep, piece) <==> piece == s
  {
    assert IsPieceAt(s, sep, 0, |s|, s);
  }

  /** str.split(sep) gives exactly the pieces between separators. */
  lemma {:induction false} SplitAllGivesPieces(s: string, sep: char, piece: string)
    ensures piece in SplitAll(s, sep) <==> IsPiece(s, Separator(sep), piece)
    decreases |s|
  {
    match SplitFirst(s, sep)
    case None => PieceOfWhole(s, Separator(sep), piece);
    case Some(parts) =>
      var n := |parts.0|;
      assert s[..n] == parts.0 && s[n + 1..] == parts.1 && s[n] == sep;
      forall i | 0 <= i < n ensures s[i] != sep {
        assert s[i] == parts.0[i];
      }
      PieceOfTail(s, c => c == sep, n, piece);
      SplitAllGivesPieces(parts.1, sep, piece);
  }

  lemma SlashesAreSeparators(term: string, piece: string)
    ensures IsPiece(BackSlashed(term), Separator('\\'), piece) <==> IsPiece(term, IsSlash, piece)
  {
    var s := BackSlashed(term);
    if a: nat, b: nat :| IsPieceAt(s, Separator('\\'), a, b, piece) {
      assert forall i :: a <= i < b ==> s[i] == term[i];
      assert s[a..b] == term[a..b];
      assert IsPieceAt(term, IsSlash, a, b, piece);
    }
    if a: nat, b: nat :| IsPieceAt(term, IsSlash, a, b, piece) {
      assert forall i :: a <= i < b ==> s[i] == term[i];
      assert s[a..b] == term[a..b];
      assert IsPieceAt(s, Separator('\\'), a, b, piece);
    }
  }

  lemma {:induction false} NonEmptyAre(pieces: seq<string>, x: string)
    ensures x in NonEmpty(pieces) <==> x in pieces && x != ""
  {
    if pieces != [] {
      NonEmptyAre(pieces[1..], x);
    }
  }

  // ------------------------------------------------------------ the evidence texts

  /** The term itself, or a component of it if it is a path. */
  ghost predicate IsChunk(term: string, chunk: string) {
    chunk == term || (chunk != "" && (exists i :: 0 <= i < |term| && IsSlash(term[i])) && IsPiece(term, IsSlash, chunk))
  }

  lemma ChunksAre(term: string, chunk: string)
    ensures chunk in Chunks(term) <==> IsChunk(term, chunk)
  {
    assert HasSlash(term) <==> exists i :: 0 <= i < |term| && IsSlash(term[i]);
    if HasSlash(term) {
      NonEmptyAre(SplitAll(BackSlashed(term), '\\'), chunk);
      SplitAllGivesPieces(BackSlashed(term), '\\', chunk);
      SlashesAreSeparators(term, chunk);
    }
  }

  /** Some anchor that is not blank is the term, up to case. */
  ghost predicate RepeatsAnchor(spec: HuntSpec, term: string) {
    exists i :: 0 <= i < |spec.anchors| && Strip(spec.anchors[i]) != "" && Fold(spec.anchors[i]) == Fold(term)
  }

  /** The stripped, unquoted text of a term that repeats no anchor, or of one of its components. */
  ghost predicate IsAskedText(spec: HuntSpec, text: string) {
    exists term, chunk :: IsSource(spec, term, chunk) && text == Trim(IsDoubleQuote, Strip(chunk))
  }

  ghost predicate IsSource(spec: HuntSpec, term: string, chunk: string) {
    term in spec.terms && !RepeatsAnchor(spec, term) && IsChunk(term, chunk)
  }

  lemma {:induction false} NonBlankAre(values: seq<string>, x: string)
    ensures x in NonBlank(values) <==> x in values && Strip(x) != ""
  {
    if values != [] {
      NonBlankAre(values[1..], x);
    }
  }

  lemma AnchorIs(spec: HuntSpec, term: string)
    ensures IsAnchor(NonBlank(spec.anchors), term) <==> RepeatsAnchor(spec, term)
  {
    if v :| v in NonBlank(spec.anchors) && Fold(v) == Fold(term) {
      NonBlankAre(spec.anchors, v);
      var i :| 0 <= i < |spec.anchors| && spec.anchors[i] == v;
    }
    if i :| 0 <= i < |spec.anchors| && Strip(spec.anchors[i]) != "" && Fold(spec.anchors[i]) == Fold(term) {
      NonBlankAre(spec.anchors, spec.anchors[i]);
    }
  }

  lemma CleanIs(chunk: string)
    ensures Clean(chunk) == Trim(IsDoubleQuote, Strip(chunk))
  {
    SameTrim(IsQuote, IsDoubleQuote, Strip(chunk));
  }

  lemma SameTrim(p: char -> bool, q: char -> bool, s: string)
    requires forall c :: p(c) <==> q(c)
    ensures Trim(p, s) == Trim(q, s)
  {
    SameStart(p, q, s, 0);
    SameEnd(p, q, TrimLeft(p, s), |TrimLeft(p, s)|);
  }

  lemma {:induction false} SameStart(p: char -> bool, q: char -> bool, s: string, i: nat)
    requires i <= |s| && forall c :: p(c) <==> q(c)
    ensures Start(p, s, i) == Start(q, s, i)
    decreases |s| - i
  {
    if i < |s| && p(s[i]) {
      SameStart(p, q, s, i + 1);
    }
  }

  lemma {:induction false} SameEnd(p: char -> bool, q: char -> bool, s: string, n: nat)
    requires n <= |s| && forall c :: p(c) <==> q(c)
    ensures End(p, s, n) == End(q, s, n)
  {
    if n > 0 && p(s[n - 1]) {
      SameEnd(p, q, s, n - 1);
    }
  }

  lemma CleanAllAre(chunks: seq<string>, text: string)
    ensures text in CleanAll(chunks) <==> exists chunk :: chunk in chunks && text == Clean(chunk)
  {
    var all := CleanAll(chunks);
    if text in all {
      var i :| 0 <= i < |all| && all[i] == text;
      assert chunks[i] in chunks;
    }
    if chunk :| chunk in chunks && text == Clean(chunk) {
      var i :| 0 <= i < |chunks| && chunks[i] == chunk;
      assert all[i] == text;
    }
  }

  /** A text comes from this term. */
  ghost predicate ComesFrom(values: seq<string>, term: string, text: string) {
    !IsAnchor(values, term) && exists chunk :: chunk in Chunks(term) && text == Clean(chunk)
  }

  lemma LastTerm(values: seq<string>, rest: seq<string>, term: string, text: string)
    ensures (exists t :: t in rest + [term] && ComesFrom(values, t, text))
            <==> (exists t :: t in rest && ComesFrom(values, t, text)) || ComesFrom(values, term, text)
  {
    if t :| t in rest + [term] && ComesFrom(values, t, text) {
      assert t in rest || t == term;
    }
    if t :| t in rest && ComesFrom(values, t, text) {
      assert t in rest + [term];
    }
    assert term in rest + [term];
  }

  lemma TextsStep(values: seq<string>, rest: seq<string>, term: string, text: string)
    ensures text in Texts(values, rest + [term]) <==> text in Texts(values, rest) || ComesFrom(values, term, text)
  {
    assert (rest + [term])[..|rest|] == rest;
    CleanAllAre(Chunks(term), text);
  }

  lemma {:induction false} TextsAreFrom(values: seq<string>, terms: seq<string>, text: string)
    ensures text in Texts(values, terms) <==> exists term :: term in terms && ComesFrom(values, term, text)
  {
    if terms != [] {
      var rest, term := terms[..|terms| - 1], terms[|terms| - 1];
      assert terms == rest + [term];
      TextsAreFrom(values, rest, text);
      TextsStep(values, rest, term, text);
      LastTerm(values, rest, term, text);
    }
  }

  lemma ComesFromIs(spec: HuntSpec, term: string, text: string)
    requires term in spec.terms
    ensures ComesFrom(NonBlank(spec.anchors), term, text)
            <==> exists chunk :: IsSource(spec, term, chunk) && text == Trim(IsDoubleQuote, Strip(chunk))
  {
    AnchorIs(spec, term);
    forall chunk ensures (IsSource(spec, term, chunk) <==> !IsAnchor(NonBlank(spec.anchors), term) && chunk in Chunks(term)) {
      ChunksAre(term, chunk);
    }
    forall chunk ensures Clean(chunk) == Trim(IsDoubleQuote, Strip(chunk)) {
      CleanIs(chunk);
    }
  }

  lemma TextsAre(spec: HuntSpec, text: string)
    ensures text in Texts(NonBlank(spec.anchors), spec.terms) <==> IsAskedText(spec, text)
  {
    var values := NonBlank(spec.anchors);
    TextsAreFrom(values, spec.terms, text);
    if term :| term in spec.terms && ComesFrom(values, term, text) {
      ComesFromIs(spec, term, text);
    }
    if term, chunk :| IsSource(spec, term, chunk) && text == Trim(IsDoubleQuote, Strip(chunk)) {
      ComesFromIs(spec, term, text);
    }
  }

  /** Long enough to search for and, at level 3, neither a path nor longer than thirty characters. */
  ghost predicate IsSearchable(text: string, level: int) {
    |text| >= 3 && (level >= 3 ==> |text| <= 30 && forall i :: 0 <= i < |text| ==> !IsSlash(text[i]))
  }

  lemma SearchableIs(text: string, level: int)
    ensures IsUsable(text, level) <==> IsSearchable(text, level)
  {
    if HasSlash(text) {
      var i :| 0 <= i < |text| && (text[i] == '\\' || text[i] == '/');
    }
  }

  /**
   * Before truncation the aliases of a level are the asked texts that can be searched for, one of each up to case.
   */
  ghost predicate AsksExactly(spec: HuntSpec, level: int, aliases: seq<string>) {
    && (forall a :: a in aliases ==> IsAskedText(spec, a) && IsSearchable(a, level))
    && (forall text :: IsAskedText(spec, text) && IsSearchable(text, level) ==> exists i :: 0 <= i < |aliases| && Fold(aliases[i]) == Fold(text))
    && forall i, j :: 0 <= i < j < |aliases| ==> Fold(aliases[i]) != Fold(aliases[j])
  }

  lemma AliasesAre(spec: HuntSpec, level: int)
    ensures AsksExactly(spec, level, EvidenceAliases(spec, level))
  {
    var texts := Texts(NonBlank(spec.anchors), spec.terms);
    var aliases := EvidenceAliases(spec, level);
    AliasesCover(texts, level);
    forall a | a in aliases ensures IsAskedText(spec, a) && IsSearchable(a, level) {
      TextsAre(spec, a);
      SearchableIs(a, level);
    }
    forall text | IsAskedText(spec, text) && IsSearchable(text, level) ensures exists i :: 0 <= i < |aliases| && Fold(aliases[i]) == Fold(text) {
      TextsAre(spec, text);
      SearchableIs(text, level);
      var v :| v in aliases && Fold(v) == Fold(text);
      var i :| 0 <= i < |aliases| && aliases[i] == v;
    }
  }

  // ------------------------------------------------------------ the subject group

  /** Word n of the list is its first long one, and another long one follows. */
  ghost predicate IsFirstLong(words: seq<string>, n: nat) {
    && n < |words| && |words[n]| >= 3 && (forall i :: 0 <= i < n ==> |words[i]| < 3)
    && exists j :: n < j < |words| && |words[j]| >= 3
  }

  /** Word n is the first long one. */
  ghost predicate IsFirst(words: seq<string>, n: nat) {
    n < |words| && |words[n]| >= 3 && forall i :: 0 <= i < n ==> |words[i]| < 3
  }

  lemma {:induction false} LongWordsAre(words: seq<string>)
    ensures forall w :: w in LongWords(words) <==> w in words && |w| >= 3
    ensures |LongWords(words)| > 0 ==> exists n: nat :: IsFirst(words, n) && words[n] == LongWords(words)[0]
  {
    if words != [] {
      var rest := words[1..];
      LongWordsAre(rest);
      if |words[0]| >= 3 {
        assert IsFirst(words, 0);
      } else if |LongWords(rest)| > 0 {
        var n: nat :| IsFirst(rest, n) && rest[n] == LongWords(rest)[0];
        forall i | 0 <= i < n + 1 ensures |words[i]| < 3 {
          assert i > 0 ==> words[i] == rest[i - 1];
        }
        assert words[n + 1] == rest[n] && IsFirst(words, n + 1);
      }
    }
  }

  lemma {:induction false} SeveralLong(words: seq<string>)
    ensures |LongWords(words)| > 1 <==> exists n :: 0 <= n < |words| && IsFirstLong(words, n)
  {
    if words != [] {
      var rest := words[1..];
      LongWordsAre(rest);
      SeveralLong(rest);
      if |words[0]| >= 3 {
        if |LongWords(rest)| > 0 {
          assert LongWords(rest)[0] in rest;
          var j :| 0 <= j < |rest| && rest[j] == LongWords(rest)[0];
          assert words[j + 1] == rest[j];
          assert IsFirstLong(words, 0);
        }
        if n :| 0 <= n < |words| && IsFirstLong(words, n) {
          assert n == 0;
          var j :| 0 < j < |words| && |words[j]| >= 3;
          assert rest[j - 1] == words[j] && words[j] in LongWords(rest);
        }
      } else {
        if n :| 0 <= n < |rest| && IsFirstLong(rest, n) {
          var j :| n < j < |rest| && |rest[j]| >= 3;
          forall i | 0 <= i < n + 1 ensures |words[i]| < 3 {
            assert i > 0 ==> words[i] == rest[i - 1];
          }
          assert words[j + 1] == rest[j] && words[n + 1] == rest[n];
          assert IsFirstLong(words, n + 1);
        }
        if n :| 0 <= n < |words| && IsFirstLong(words, n) {
          var j :| n < j < |words| && |words[j]| >= 3;
          assert n > 0 && rest[j - 1] == words[j] && rest[n - 1] == words[n];
          forall i | 0 <= i < n - 1 ensures |rest[i]| < 3 {
            assert rest[i] == words[i + 1];
          }
          assert IsFirstLong(rest, n - 1);
        }
      }
    }
  }

  /** A name of an anchor: itself, or its first long word if another long one follows. */
  ghost predicate IsNameOf(value: string, name: string) {
    name == value || exists n :: 0 <= n < |Words(value)| && IsFirstLong(Words(value), n) && name == Words(value)[n]
  }

  lemma SubjectNamesAre(value: string, name: string)
    ensures name in SubjectNames(value) <==> IsNameOf(value, name)
  {
    var words := Words(value);
    LongWordsAre(words);
    SeveralLong(words);
    if |LongWords(words)| > 1 {
      var m: nat :| IsFirst(words, m) && words[m] == LongWords(words)[0];
      var n :| 0 <= n < |words| && IsFirstLong(words, n);
      assert m == n;
    }
    if n :| 0 <= n < |words| && IsFirstLong(words, n) && name == words[n] {
      var m: nat :| IsFirst(words, m) && words[m] == LongWords(words)[0];
      assert m == n;
    }
  }

  lemma {:induction false} AllSubjectNamesAre(values: seq<string>, name: string)
    ensures name in AllSubjectNames(values) <==> exists v :: v in values && IsNameOf(v, name)
  {
    if values != [] {
      var rest, v := values[..|values| - 1], values[|values| - 1];
      assert values == rest + [v];
      AllSubjectNamesAre(rest, name);
      SubjectNamesAre(v, name);
    }
  }

  lemma {:induction false} UniqueAre(names: seq<string>)
    ensures forall x :: x in Unique(names) <==> x in names
    ensures forall i, j :: 0 <= i < j < |Unique(names)| ==> Unique(names)[i] != Unique(names)[j]
  {
    if names != [] {
      UniqueAre(names[..|names| - 1]);
      assert names == names[..|names| - 1] + [names[|names| - 1]];
    }
  }

  /** The names of the anchors that are not blank, each once. */
  ghost predicate NamesSubject(spec: HuntSpec, group: seq<string>) {
    && (forall name :: name in group <==> exists v :: v in spec.anchors && Strip(v) != "" && IsNameOf(v, name))
    && forall i, j :: 0 <= i < j < |group| ==> group[i] != group[j]
  }

  lemma SubjectIs(spec: HuntSpec)
    ensures NamesSubject(spec, Unique(AllSubjectNames(NonBlank(spec.anchors))))
  {
    var values := NonBlank(spec.anchors);
    UniqueAre(AllSubjectNames(values));
    forall v ensures v in values <==> v in spec.anchors && Strip(v) != "" {
      NonBlankAre(spec.anchors, v);
    }
    forall name ensures name in AllSubjectNames(values) <==> exists v :: v in spec.anchors && Strip(v) != "" && IsNameOf(v, name) {
      AllSubjectNamesAre(values, name);
    }
  }

  // ------------------------------------------------------------ the groups

  ghost predicate HasAnchor(spec: HuntSpec) {
    exists v :: v in spec.anchors && Strip(v) != ""
  }

  /** The first 24 aliases, if there are any. */
  ghost predicate IsEvidence(spec: HuntSpec, level: int, group: seq<seq<string>>) {
    exists aliases :: AsksExactly(spec, level, aliases) && IsTruncated(aliases, group)
  }

  ghost predicate IsTruncated(aliases: seq<string>, group: seq<seq<string>>) {
    group == if |aliases| == 0 then [] else if |aliases| <= 24 then [aliases] else [aliases[..24]]
  }

  /** At level 1 the subject's names, if it has any. */
  ghost predicate IsSubject(spec: HuntSpec, level: int, group: seq<seq<string>>) {
    if level == 1 && HasAnchor(spec) then |group| == 1 && NamesSubject(spec, group[0]) else group == []
  }

  lemma SubjectGroupIs(spec: HuntSpec, level: int)
    ensures IsSubject(spec, level, SubjectGroup(spec, level))
  {
    var values := NonBlank(spec.anchors);
    SubjectIs(spec);
    if values != [] {
      NonBlankAre(spec.anchors, values[0]);
      assert values[0] in values;
    }
    if v :| v in spec.anchors && Strip(v) != "" {
      NonBlankAre(spec.anchors, v);
    }
  }

  lemma EvidenceGroupIs(spec: HuntSpec, level: int)
    ensures IsEvidence(spec, level, EvidenceGroup(spec, level))
  {
    AliasesAre(spec, level);
    assert IsTruncated(EvidenceAliases(spec, level), EvidenceGroup(spec, level));
  }

  /** What is asked at a level: the subject group and the evidence group. */
  lemma GroupsAre(spec: HuntSpec, level: int) returns (subject: seq<seq<string>>, evidence: seq<seq<string>>)
    ensures Groups(spec, level) == subject + evidence
    ensures IsSubject(spec, level, subject) && IsEvidence(spec, level, evidence)
  {
    subject, evidence := SubjectGroup(spec, level), EvidenceGroup(spec, level);
    SubjectGroupIs(spec, level);
    EvidenceGroupIs(spec, level);
  }

  // ------------------------------------------------------------ words

  ghost predicate IsWordAt(s: string, sep: char -> bool, a: nat, word: string) {
    word != "" && IsPieceAt(s, sep, a, a + |word|, word)
  }

  ghost predicate IsInWord(starts: seq<nat>, words: seq<string>, i: int)
    requires |starts| == |words|
  {
    exists k :: 0 <= k < |words| && starts[k] <= i < starts[k] + |words[k]|
  }

  /** The words of a text are its longest parts without separators, in order. */
  ghost predicate AreWords(s: string, sep: char -> bool, starts: seq<nat>, words: seq<string>) {
    && |starts| == |words|
    && (forall k :: 0 <= k < |words| ==> IsWordAt(s, sep, starts[k], words[k]))
    && (forall k :: 0 < k < |words| ==> starts[k - 1] < starts[k])
    && forall i :: 0 <= i < |s| && !sep(s[i]) ==> IsInWord(starts, words, i)
  }

  function Shift(starts: seq<nat>, n: nat): (r: seq<nat>)
    ensures |r| == |starts| && forall i :: 0 <= i < |starts| ==> r[i] == starts[i] + n
  {
    seq(|starts|, i requires 0 <= i < |starts| => starts[i] + n)
  }

  /** These are one word at a and then the given ones, m characters further on. */
  ghost predicate Continues(all: seq<nat>, longer: seq<string>, a: nat, first: string, m: nat, starts: seq<nat>, words: seq<string>) {
    && |all| == |longer| == |words| + 1 && |starts| == |words|
    && all[0] == a && longer[0] == first
    && forall k :: 0 <= k < |words| ==> all[k + 1] == starts[k] + m && longer[k + 1] == words[k]
  }

  lemma WordOfRest(s: string, sep: char -> bool, m: nat, b: nat, word: string)
    requires m <= |s| && IsWordAt(s[m..], sep, b, word) && (m < |s| ==> sep(s[m]))
    ensures IsWordAt(s, sep, m + b, word)
  {
    var rest := s[m..];
    assert s[m + b..m + b + |word|] == rest[b..b + |word|];
    assert forall i :: 0 <= i < |rest| ==> rest[i] == s[m + i];
    assert word[0] == rest[b];
  }

  lemma WordsOfRestAre(s: string, sep: char -> bool, m: nat, starts: seq<nat>, words: seq<string>, k: nat)
    requires m <= |s| && AreWords(s[m..], sep, starts, words) && (m < |s| ==> sep(s[m])) && k < |words|
    ensures IsWordAt(s, sep, starts[k] + m, words[k])
  {
    WordOfRest(s, sep, m, starts[k], words[k]);
  }

  lemma EveryCharacter(all: seq<nat>, longer: seq<string>, s: string, sep: char -> bool, a: nat, m: nat,
                       starts: seq<nat>, words: seq<string>, i: nat)
    requires a <= m <= |s| && Continues(all, longer, a, s[a..m], m, starts, words)
    requires a <= i < |s| && (m <= i ==> IsInWord(starts, words, i - m))
    ensures IsInWord(all, longer, i)
  {
    if i < m {
      assert all[0] <= i < all[0] + |longer[0]|;
    } else {
      var k :| 0 <= k < |words| && starts[k] <= i - m < starts[k] + |words[k]|;
      assert all[k + 1] <= i < all[k + 1] + |longer[k + 1]|;
    }
  }

  lemma EveryWord(all: seq<nat>, longer: seq<string>, s: string, sep: char -> bool, a: nat, m: nat,
                  starts: seq<nat>, words: seq<string>, k: nat)
    requires a <= m <= |s| && Continues(all, longer, a, s[a..m], m, starts, words) && IsWordAt(s, sep, a, s[a..m])
    requires AreWords(s[m..], sep, starts, words) && (m < |s| ==> sep(s[m])) && k < |longer|
    ensures IsWordAt(s, sep, all[k], longer[k])
  {
    if k > 0 {
      WordsOfRestAre(s, sep, m, starts, words, k - 1);
    }
  }

  lemma InOrder(all: seq<nat>, longer: seq<string>, a: nat, first: string, m: nat, starts: seq<nat>, words: seq<string>, k: nat)
    requires a < m && Continues(all, longer, a, first, m, starts, words) && 0 < k < |longer|
    requires forall j :: 0 < j < |words| ==> starts[j - 1] < starts[j]
    ensures all[k - 1] < all[k]
  {
    assert all[k] == starts[k - 1] + m;
    assert k > 1 ==> all[k - 1] == starts[k - 2] + m;
  }

  lemma WordsOfRest(all: seq<nat>, longer: seq<string>, s: string, sep: char -> bool, a: nat, m: nat,
                    starts: seq<nat>, words: seq<string>)
    requires a < m <= |s| && IsWordAt(s, sep, a, s[a..m]) && (forall i :: 0 <= i < a ==> sep(s[i]))
    requires (m < |s| ==> sep(s[m])) && AreWords(s[m..], sep, starts, words)
    requires Continues(all, longer, a, s[a..m], m, starts, words)
    ensures AreWords(s, sep, all, longer)
  {
    forall k | 0 <= k < |longer| ensures IsWordAt(s, sep, all[k], longer[k]) {
      EveryWord(all, longer, s, sep, a, m, starts, words, k);
    }
    forall k | 0 < k < |longer| ensures all[k - 1] < all[k] {
      InOrder(all, longer, a, s[a..m], m, starts, words, k);
    }
    forall i | 0 <= i < |s| && !sep(s[i]) ensures IsInWord(all, longer, i) {
      RestCovers(s, sep, m, starts, words, i);
      EveryCharacter(all, longer, s, sep, a, m, starts, words, i);
    }
  }

  lemma RestCovers(s: string, sep: char -> bool, m: nat, starts: seq<nat>, words: seq<string>, i: nat)
    requires m <= |s| && AreWords(s[m..], sep, starts, words) && i < |s| && !sep(s[i])
    ensures m <= i ==> IsInWord(starts, words, i - m)
  {
    assert m <= i ==> s[m..][i - m] == s[i];
  }

  /** From a to m the text is its first word. */
  ghost predicate IsFirstWord(s: string, sep: char -> bool, a: nat, m: nat) {
    a < m <= |s| && (forall i :: 0 <= i < a ==> sep(s[i])) && (forall i :: a <= i < m ==> !sep(s[i])) && (m < |s| ==> sep(s[m]))
  }

  lemma FirstWordIs(s: string) returns (a: nat, m: nat)
    requires TrimLeft(IsSpace, s) != []
    ensures IsFirstWord(s, IsSpace, a, m) && Words(s) == [s[a..m]] + Words(s[m..])
  {
    var t := TrimLeft(IsSpace, s);
    a := Start(IsSpace, s, 0);
    m := a + WordLength(t);
    WordLengthIs(t);
    WordFrom(s, t, a, m - a);
  }

  lemma WordFrom(s: string, t: string, a: nat, n: nat)
    requires a <= |s| && t == s[a..] && n <= |t| && (forall i :: 0 <= i < n ==> !IsSpace(t[i])) && (n < |t| ==> IsSpace(t[n]))
    ensures t[..n] == s[a..a + n] && t[n..] == s[a + n..]
    ensures (forall i :: a <= i < a + n ==> !IsSpace(s[i])) && (a + n < |s| ==> IsSpace(s[a + n]))
  {
    forall i | a <= i < a + n ensures !IsSpace(s[i]) {
      assert t[i - a] == s[i];
    }
  }

  lemma {:induction false} WordLengthIs(s: string)
    ensures var n := WordLength(s); (forall i :: 0 <= i < n ==> !IsSpace(s[i])) && (n < |s| ==> IsSpace(s[n]))
  {
    if s != [] && !IsSpace(s[0]) {
      WordLengthIs(s[1..]);
      assert forall i :: 0 < i < |s| ==> s[i] == s[1..][i - 1];
    }
  }

  lemma FirstWordAt(s: string, sep: char -> bool, a: nat, m: nat)
    requires IsFirstWord(s, sep, a, m)
    ensures IsWordAt(s, sep, a, s[a..m])
  {
  }

  lemma AddFirst(s: string, sep: char -> bool, a: nat, m: nat, rest: seq<nat>, words: seq<string>) returns (starts: seq<nat>)
    requires IsFirstWord(s, sep, a, m) && AreWords(s[m..], sep, rest, words)
    ensures AreWords(s, sep, starts, [s[a..m]] + words)
  {
    FirstWordAt(s, sep, a, m);
    starts := [a] + Shift(rest, m);
    WordsOfRest(starts, [s[a..m]] + words, s, sep, a, m, rest, words);
  }

  lemma BlankHasNoWords(s: string)
    requires TrimLeft(IsSpace, s) == []
    ensures Words(s) == [] && AreWords(s, IsSpace, [], [])
  {
    assert Start(IsSpace, s, 0) == |s|;
  }

  /** str.split() finds them. */
  lemma {:induction false} WordsAre(s: string) returns (starts: seq<nat>)
    ensures AreWords(s, IsSpace, starts, Words(s))
    decreases |s|
  {
    if TrimLeft(IsSpace, s) == [] {
      BlankHasNoWords(s);
      starts := [];
    } else {
      var a, m := FirstWordIs(s);
      var rest := WordsAre(s[m..]);
      starts := AddFirst(s, IsSpace, a, m, rest, Words(s[m..]));
    }
  }

  // ------------------------------------------------------------ the levels

  /** How many of the levels from a up to b ask anything. */
  ghost function AskedBetween(plan: Plan, a: int, b: int): nat
    decreases b - a
  {
    if a >= b then 0 else (if plan(a) != [] then 1 else 0) + AskedBetween(plan, a + 1, b)
  }

  /** The level asks, and the provider returns rows. */
  ghost predicate Finds(plan: Plan, provider: Provider, level: int) {
    plan(level) != [] && exists x :: x in provider(plan(level))
  }

  /** Level l is the first of levels 1 to 3 that finds rows, or 4 if none does. */
  ghost predicate IsLastLevel(plan: Plan, provider: Provider, from: int, l: int) {
    from <= l <= 4 && (l <= 3 ==> Finds(plan, provider, l)) && forall m :: from <= m < l ==> !Finds(plan, provider, m)
  }

  /** The levels are asked in turn up to the first that finds rows, whose rows are returned; each one asked is counted. */
  lemma {:induction false} AskIs(plan: Plan, provider: Provider, level: int, queries: nat) returns (l: int)
    requires level <= 4
    ensures IsLastLevel(plan, provider, level, l)
    ensures Ask(plan, provider, level, queries).rows == if l <= 3 then provider(plan(l)) else {}
    ensures Ask(plan, provider, level, queries).queries == queries + AskedBetween(plan, level, if l <= 3 then l + 1 else 4)
    decreases 4 - level
  {
    if level > 3 {
      l := level;
    } else if Finds(plan, provider, level) {
      l := level;
      assert AskedBetween(plan, level + 1, level + 1) == 0;
    } else {
      assert plan(level) == [] || provider(plan(level)) == {};
      l := AskIs(plan, provider, level + 1, if plan(level) == [] then queries else queries + 1);
    }
  }
}
