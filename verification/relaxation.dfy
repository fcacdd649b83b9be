/** Lexical discovery groups and what relaxing them does to the events they match. */
module Relaxation {
  import opened Text

  datatype HuntSpec = HuntSpec(anchors: seq<string>, terms: seq<string>)

  const MAX_ALIASES: nat := 24

  // ------------------------------------------------------------ the groups

  function NonBlank(values: seq<string>): seq<string> {
    if values == [] then []
    else (if Strip(values[0]) != "" then [values[0]] else []) + NonBlank(values[1..])
  }

  function LongWords(words: seq<string>): seq<string> {
    if words == [] then [] else (if |words[0]| >= 3 then [words[0]] else []) + LongWords(words[1..])
  }

  /** An anchor, and its first long word if it has several. */
  function SubjectNames(value: string): (r: seq<string>)
    ensures r != []
  {
    var parts := LongWords(Words(value));
    [value] + if |parts| > 1 then [parts[0]] else []
  }

  /** Each name once, where it first occurs. */
  function Unique(names: seq<string>): (r: seq<string>)
    ensures names != [] ==> r != []
  {
    if names == [] then []
    else
      var r := Unique(names[..|names| - 1]);
      var x := names[|names| - 1];
      if x in r then r else r + [x]
  }

  function AllSubjectNames(values: seq<string>): (r: seq<string>)
    ensures values != [] ==> r != []
  {
    if values == [] then [] else AllSubjectNames(values[..|values| - 1]) + SubjectNames(values[|values| - 1])
  }

  predicate HasSlash(text: string) { '\\' in text || '/' in text }

  function BackSlashed(text: string): (r: string)
    ensures |r| == |text|
  {
    seq(|text|, i requires 0 <= i < |text| => if text[i] == '/' then '\\' else text[i])
  }

  function NonEmpty(pieces: seq<string>): seq<string> {
    if pieces == [] then [] else (if pieces[0] != "" then [pieces[0]] else []) + NonEmpty(pieces[1..])
  }

  /** A term and, if it is a path, its components. */
  function Chunks(term: string): seq<string> {
    [term] + if HasSlash(term) then NonEmpty(SplitAll(BackSlashed(term), '\\')) else []
  }

  function Clean(chunk: string): string { Trim(IsQuote, Strip(chunk)) }

  function CleanAll(chunks: seq<string>): (r: seq<string>)
    ensures |r| == |chunks| && forall i :: 0 <= i < |chunks| ==> r[i] == Clean(chunks[i])
  {
    seq(|chunks|, i requires 0 <= i < |chunks| => Clean(chunks[i]))
  }

  predicate IsAnchor(values: seq<string>, term: string) {
    exists v :: v in values && Fold(v) == Fold(term)
  }

  /** Every candidate text of the terms that are not anchors themselves, in order. */
  function Texts(values: seq<string>, terms: seq<string>): seq<string> {
    if terms == [] then []
    else
      var r := Texts(values, terms[..|terms| - 1]);
      var term := terms[|terms| - 1];
      if IsAnchor(values, term) then r else r + CleanAll(Chunks(term))
  }

  /** Paths and long texts, which level 3 drops. */
  predicate IsNarrow(text: string) { HasSlash(text) || |text| > 30 }

  predicate IsTaken(aliases: seq<string>, text: string) {
    exists v :: v in aliases && Fold(v) == Fold(text)
  }

  function AddAlias(aliases: seq<string>, text: string, level: int): seq<string> {
    if |text| >= 3 && !IsTaken(aliases, text) && !(level >= 3 && IsNarrow(text)) then aliases + [text] else aliases
  }

  function Aliases(texts: seq<string>, level: int): seq<string> {
    if texts == [] then [] else AddAlias(Aliases(texts[..|texts| - 1], level), texts[|texts| - 1], level)
  }

  function SubjectGroup(spec: HuntSpec, level: int): seq<seq<string>> {
    var values := NonBlank(spec.anchors);
    if values != [] && level == 1 then [Unique(AllSubjectNames(values))] else []
  }

  function EvidenceAliases(spec: HuntSpec, level: int): seq<string> {
    Aliases(Texts(NonBlank(spec.anchors), spec.terms), level)
  }

  function EvidenceGroup(spec: HuntSpec, level: int): seq<seq<string>> {
    var aliases := EvidenceAliases(spec, level);
    if aliases != [] then [Take(aliases, MAX_ALIASES)] else []
  }

  function Groups(spec: HuntSpec, level: int): seq<seq<string>> {
    SubjectGroup(spec, level) + EvidenceGroup(spec, level)
  }

  // ------------------------------------------------------------ the loops that build them

  lemma Prefix<T>(s: seq<T>, i: nat)
    requires i < |s|
    ensures s[..i + 1] != [] && s[..i + 1][..|s[..i + 1]| - 1] == s[..i] && s[..i + 1][|s[..i + 1]| - 1] == s[i]
  {
  }

  lemma OneMoreText(texts: seq<string>, text: string, level: int)
    ensures Aliases(texts + [text], level) == AddAlias(Aliases(texts, level), text, level)
  {
    assert (texts + [text])[..|texts + [text]| - 1] == texts;
  }

  lemma OneMoreOf(texts: seq<string>, more: seq<string>, j: nat, level: int)
    requires j < |more|
    ensures Aliases(texts + more[..j + 1], level) == AddAlias(Aliases(texts + more[..j], level), more[j], level)
  {
    assert texts + more[..j + 1] == texts + more[..j] + [more[j]];
    OneMoreText(texts + more[..j], more[j], level);
  }

  /** The loop's body. */
  method AddText(aliases: seq<string>, text: string, level: int) returns (r: seq<string>)
    ensures r == AddAlias(aliases, text, level)
  {
    r := aliases;
    if text != "" && |text| >= 3 && !IsTaken(aliases, text) {
      if level >= 3 && (HasSlash(text) || |text| > 30) {
        return;
      }
      r := aliases + [text];
    }
  }

  method AddTexts(more: seq<string>, ghost texts: seq<string>, before: seq<string>, level: int) returns (aliases: seq<string>)
    requires before == Aliases(texts, level)
    ensures aliases == Aliases(texts + more, level)
  {
    aliases := before;
    assert texts + more[..0] == texts;
    for j := 0 to |more|
      invariant aliases == Aliases(texts + more[..j], level)
    {
      OneMoreOf(texts, more, j, level);
      aliases := AddText(aliases, more[j], level);
    }
    assert more[..|more|] == more;
  }

  lemma OneMoreTerm(values: seq<string>, terms: seq<string>, term: string)
    ensures Texts(values, terms + [term])
      == Texts(values, terms) + if IsAnchor(values, term) then [] else CleanAll(Chunks(term))
  {
    assert (terms + [term])[..|terms + [term]| - 1] == terms;
  }

  method AddTerm(values: seq<string>, ghost terms: seq<string>, term: string, before: seq<string>, level: int)
    returns (aliases: seq<string>)
    requires before == Aliases(Texts(values, terms), level)
    ensures aliases == Aliases(Texts(values, terms + [term]), level)
  {
    OneMoreTerm(values, terms, term);
    aliases := before;
    if !IsAnchor(values, term) {
      aliases := AddTexts(CleanAll(Chunks(term)), Texts(values, terms), aliases, level);
    }
  }

  method NameSubject(values: seq<string>) returns (names: seq<string>)
    ensures names == Unique(AllSubjectNames(values))
  {
    names := [];
    for i := 0 to |values|
      invariant names == AllSubjectNames(values[..i])
    {
      Prefix(values, i);
      names := names + SubjectNames(values[i]);
    }
    assert values[..|values|] == values;
    names := Unique(names);
  }

  method CollectAliases(values: seq<string>, terms: seq<string>, level: int) returns (aliases: seq<string>)
    ensures aliases == Aliases(Texts(values, terms), level)
  {
    aliases := [];
    for i := 0 to |terms|
      invariant aliases == Aliases(Texts(values, terms[..i]), level)
    {
      assert terms[..i + 1] == terms[..i] + [terms[i]];
      aliases := AddTerm(values, terms[..i], terms[i], aliases, level);
    }
    assert terms[..|terms|] == terms;
  }

  method DiscoveryGroups(spec: HuntSpec, level: int) returns (groups: seq<seq<string>>)
    ensures groups == Groups(spec, level)
  {
    groups := [];
    var values := NonBlank(spec.anchors);
    if values != [] && level == 1 {
      var names := NameSubject(values);
      groups := [names];
    }
    var aliases := CollectAliases(values, spec.terms, level);
    if aliases != [] {
      groups := groups + [Take(aliases, MAX_ALIASES)];
    }
  }

  // ------------------------------------------------------------ the alias lists

  /** The texts that level 3 keeps. */
  function Cores(aliases: seq<string>): (r: seq<string>)
    ensures |r| <= |aliases| && forall a :: a in r <==> a in aliases && !IsNarrow(a)
  {
    if aliases == [] then []
    else
      var r := Cores(aliases[..|aliases| - 1]);
      if IsNarrow(aliases[|aliases| - 1]) then r else r + [aliases[|aliases| - 1]]
  }

  lemma FoldKeepsSlash(a: string, b: string)
    requires Fold(a) == Fold(b) && HasSlash(a)
    ensures HasSlash(b)
  {
    var i :| 0 <= i < |a| && (a[i] == '\\' || a[i] == '/');
    assert |Fold(a)| == |Fold(b)| && Fold(a)[i] == a[i];
    assert FoldChar(b[i]) == a[i];
    assert b[i] in b;
  }

  /** Texts equal up to case are both narrow or neither. */
  lemma FoldKeepsNarrow(a: string, b: string)
    requires Fold(a) == Fold(b)
    ensures IsNarrow(a) <==> IsNarrow(b)
  {
    if HasSlash(a) {
      FoldKeepsSlash(a, b);
    } else if HasSlash(b) {
      FoldKeepsSlash(b, a);
    }
    assert |Fold(a)| == |a| && |Fold(b)| == |b|;
  }

  lemma TakenByCore(aliases: seq<string>, text: string)
    requires !IsNarrow(text)
    ensures IsTaken(aliases, text) <==> IsTaken(Cores(aliases), text)
  {
    if v :| v in aliases && Fold(v) == Fold(text) {
      FoldKeepsNarrow(v, text);
      assert v in Cores(aliases);
    }
  }

  lemma FilterStep(aliases: seq<string>, text: string, level: int, low: int)
    requires low < 3 <= level
    ensures AddAlias(Cores(aliases), text, level) == Cores(AddAlias(aliases, text, low))
  {
    if !IsNarrow(text) {
      TakenByCore(aliases, text);
    }
    assert (aliases + [text])[..|aliases + [text]| - 1] == aliases;
  }

  /** Before truncation the level-3 list is the level-2 list without its narrow texts, in the same order. */
  lemma {:induction false} LevelThreeIsFilter(texts: seq<string>, level: int, low: int)
    requires low < 3 <= level
    ensures Aliases(texts, level) == Cores(Aliases(texts, low))
  {
    if texts != [] {
      LevelThreeIsFilter(texts[..|texts| - 1], level, low);
      FilterStep(Aliases(texts[..|texts| - 1], low), texts[|texts| - 1], level, low);
    }
  }

  ghost predicate NoCaseDuplicates(aliases: seq<string>) {
    forall i, j :: 0 <= i < j < |aliases| ==> Fold(aliases[i]) != Fold(aliases[j])
  }

  predicate IsUsable(text: string, level: int) {
    |text| >= 3 && !(level >= 3 && IsNarrow(text))
  }

  /** No alias twice up to case, only usable texts, and no usable text without its alias. */
  ghost predicate Covers(texts: seq<string>, aliases: seq<string>, level: int) {
    && NoCaseDuplicates(aliases)
    && (forall a :: a in aliases ==> a in texts && IsUsable(a, level))
    && forall t :: t in texts && IsUsable(t, level) ==> IsTaken(aliases, t)
  }

  lemma CoverStep(texts: seq<string>, aliases: seq<string>, text: string, level: int)
    requires Covers(texts, aliases, level)
    ensures Covers(texts + [text], AddAlias(aliases, text, level), level)
  {
    var r := AddAlias(aliases, text, level);
    assert IsUsable(text, level) && !IsTaken(aliases, text) ==> text in r;
    forall t | t in texts + [text] && IsUsable(t, level) ensures IsTaken(r, t) {
      if t in texts {
        var v :| v in aliases && Fold(v) == Fold(t);
        assert v in r;
      }
    }
  }

  lemma {:induction false} AliasesCover(texts: seq<string>, level: int)
    ensures Covers(texts, Aliases(texts, level), level)
  {
    if texts != [] {
      AliasesCover(texts[..|texts| - 1], level);
      CoverStep(texts[..|texts| - 1], Aliases(texts[..|texts| - 1], level), texts[|texts| - 1], level);
      assert texts[..|texts| - 1] + [texts[|texts| - 1]] == texts;
    }
  }

  // ------------------------------------------------------------ what the groups match

  /** The event's text has the alias in it, up to case. */
  predicate Hits(event: string, alias: string) { Contains(Fold(event), Fold(alias)) }

  /** One alias of every group. */
  predicate Matches(groups: seq<seq<string>>, event: string) {
    forall g :: g in groups ==> exists a :: a in g && Hits(event, a)
  }

  lemma {:induction false} PrefixOfContains(s: string, part: string, tail: string)
    requires Contains(s, part) && tail <= part
    ensures Contains(s, tail)
  {
    if !(part <= s) {
      PrefixOfContains(s[1..], part, tail);
    }
  }

  lemma {:induction false} ContainsIsTransitive(s: string, t: string, u: string)
    requires Contains(s, t) && Contains(t, u)
    ensures Contains(s, u)
    decreases |s| + |t|
  {
    if u <= t {
      PrefixOfContains(s, t, u);
    } else if t <= s {
      assert t[1..] <= s[1..];
      ContainsIsTransitive(s[1..], t[1..], u);
    } else {
      ContainsIsTransitive(s[1..], t, u);
    }
  }

  lemma HitsIsTransitive(event: string, a: string, b: string)
    requires Hits(event, a) && Hits(a, b)
    ensures Hits(event, b)
  {
    ContainsIsTransitive(Fold(event), Fold(a), Fold(b));
  }

  /** One alternative list matches all that another matches exactly when each of the other's aliases contains one of it. */
  lemma ListIsWider(a: seq<string>, b: seq<string>)
    ensures (forall event :: Matches([a], event) ==> Matches([b], event)) <==>
      forall x :: x in a ==> exists y :: y in b && Hits(x, y)
  {
    if forall event :: Matches([a], event) ==> Matches([b], event) {
      forall x | x in a ensures exists y :: y in b && Hits(x, y) {
        assert Hits(x, x);
        assert Matches([a], x);
        assert Matches([b], x) && b in [b];
      }
    }
    if forall x :: x in a ==> exists y :: y in b && Hits(x, y) {
      forall event | Matches([a], event) ensures Matches([b], event) {
        assert a in [a];
        var x :| x in a && Hits(event, x);
        var y :| y in b && Hits(x, y);
        HitsIsTransitive(event, x, y);
      }
    }
  }

  /** Leaving out the subject only widens the search: what level 1 matches, level 2 matches. */
  lemma LevelTwoRelaxes(spec: HuntSpec, event: string)
    requires Matches(Groups(spec, 1), event)
    ensures Matches(Groups(spec, 2), event)
  {
    SameBelowThree(Texts(NonBlank(spec.anchors), spec.terms), 1, 2);
    assert Groups(spec, 2) == EvidenceGroup(spec, 1);
    assert forall g :: g in EvidenceGroup(spec, 1) ==> g in Groups(spec, 1);
  }

  lemma {:induction false} SameBelowThree(texts: seq<string>, a: int, b: int)
    requires a < 3 && b < 3
    ensures Aliases(texts, a) == Aliases(texts, b)
  {
    if texts != [] {
      SameBelowThree(texts[..|texts| - 1], a, b);
    }
  }

  lemma {:induction false} CoresOfPrefix(aliases: seq<string>, n: nat)
    requires n <= |aliases|
    ensures Cores(aliases[..n]) <= Cores(aliases)
    decreases |aliases|
  {
    if n == |aliases| {
      assert aliases[..n] == aliases;
    } else {
      assert aliases[..|aliases| - 1][..n] == aliases[..n];
      CoresOfPrefix(aliases[..|aliases| - 1], n);
    }
  }

  lemma CoresSurviveTruncation(aliases: seq<string>)
    ensures forall a :: a in Take(aliases, MAX_ALIASES) && !IsNarrow(a) ==> a in Take(Cores(aliases), MAX_ALIASES)
  {
    var kept := Take(aliases, MAX_ALIASES);
    assert kept == aliases[..|kept|];
    CoresOfPrefix(aliases, |kept|);
    assert Cores(kept) <= Take(Cores(aliases), MAX_ALIASES);
  }

  /**
   * Level 3 is a relaxation of level 2 exactly when each path or long text that it drops contains one of
   * the aliases that it keeps.
   */
  lemma LevelThreeRelaxes(spec: HuntSpec)
    requires EvidenceAliases(spec, 3) != []
    ensures (forall event :: Matches(Groups(spec, 2), event) ==> Matches(Groups(spec, 3), event)) <==>
      forall a :: a in Take(EvidenceAliases(spec, 2), MAX_ALIASES) && IsNarrow(a) ==>
        exists b :: b in Take(EvidenceAliases(spec, 3), MAX_ALIASES) && Hits(a, b)
  {
    var two, three := EvidenceAliases(spec, 2), EvidenceAliases(spec, 3);
    LevelThreeIsFilter(Texts(NonBlank(spec.anchors), spec.terms), 3, 2);
    assert two != [];
    assert Groups(spec, 2) == [Take(two, MAX_ALIASES)] && Groups(spec, 3) == [Take(three, MAX_ALIASES)];
    ListIsWider(Take(two, MAX_ALIASES), Take(three, MAX_ALIASES));
    CoresSurviveTruncation(two);
    forall a | a in Take(two, MAX_ALIASES) && !IsNarrow(a) ensures exists b :: b in Take(three, MAX_ALIASES) && Hits(a, b) {
      assert a in Take(three, MAX_ALIASES) && Hits(a, a);
    }
  }

  /** Unless truncation makes room, level 3 matches nothing that level 2 does not. */
  lemma LevelThreeNarrows(spec: HuntSpec)
    requires EvidenceAliases(spec, 3) != []
    ensures (forall event :: Matches(Groups(spec, 3), event) ==> Matches(Groups(spec, 2), event)) <==>
      forall b :: b in Take(EvidenceAliases(spec, 3), MAX_ALIASES) ==>
        exists a :: a in Take(EvidenceAliases(spec, 2), MAX_ALIASES) && Hits(b, a)
    ensures |EvidenceAliases(spec, 2)| <= MAX_ALIASES ==>
      forall event :: Matches(Groups(spec, 3), event) ==> Matches(Groups(spec, 2), event)
  {
    var two, three := EvidenceAliases(spec, 2), EvidenceAliases(spec, 3);
    LevelThreeIsFilter(Texts(NonBlank(spec.anchors), spec.terms), 3, 2);
    assert two != [];
    assert Groups(spec, 2) == [Take(two, MAX_ALIASES)] && Groups(spec, 3) == [Take(three, MAX_ALIASES)];
    ListIsWider(Take(three, MAX_ALIASES), Take(two, MAX_ALIASES));
    if |two| <= MAX_ALIASES {
      forall b | b in Take(three, MAX_ALIASES) ensures exists a :: a in Take(two, MAX_ALIASES) && Hits(b, a) {
        assert b in three && b in two && Hits(b, b);
      }
    }
  }

  /** A single text of more than thirty characters is lost at level 3, and with it every event that has only it. */
  lemma LongTextIsLost(spec: HuntSpec, long: string, core: string)
    requires EvidenceAliases(spec, 2) == [long, core] && IsNarrow(long) && !IsNarrow(core) && !Hits(long, core)
    ensures Groups(spec, 3) == [[core]] && Matches(Groups(spec, 2), long) && !Matches(Groups(spec, 3), long)
  {
    LevelThreeIsFilter(Texts(NonBlank(spec.anchors), spec.terms), 3, 2);
    assert [long, core][..1] == [long] && [long][..0] == [];
    assert Cores([long]) == [];
    assert Cores([long, core]) == [core];
    assert Groups(spec, 2) == [[long, core]];
    assert long in [long, core] && Hits(long, long);
    assert [core] in Groups(spec, 3);
  }

  /** No group is empty, so the structured form of the groups drops none of them. */
  lemma NoGroupIsEmpty(spec: HuntSpec, level: int, g: seq<string>)
    requires g in Groups(spec, level)
    ensures g != []
  {
    var values := NonBlank(spec.anchors);
    if g in SubjectGroup(spec, level) {
      assert Unique(AllSubjectNames(values)) != [];
    }
  }

  // ------------------------------------------------------------ the relaxation loop

  /** The events of a scope that match. */
  function Found(groups: seq<seq<string>>, events: set<string>): set<string> {
    set e | e in events && Matches(groups, e)
  }

  type Provider = seq<seq<string>> -> set<string>

  /** Only matching events are returned, possibly not all, but some if there are any. */
  ghost predicate IsHonest(provider: Provider, events: set<string>) {
    forall groups :: provider(groups) <= Found(groups, events) && (Found(groups, events) != {} ==> provider(groups) != {})
  }

  /** The level whose result the loop ends with, and how many queries it recorded. */
  datatype Discovery = Discovery(rows: set<string>, queries: nat)

  type Plan = int -> seq<seq<string>>

  /** The groups of each level. */
  function PlanOf(spec: HuntSpec): Plan {
    level => Groups(spec, level)
  }

  /** Asks the remaining levels in turn, after `queries` queries that found nothing; a level without groups is not asked. */
  function Ask(plan: Plan, provider: Provider, level: int, queries: nat): Discovery
    decreases 4 - level
  {
    if level > 3 then Discovery({}, queries)
    else if plan(level) == [] then Ask(plan, provider, level + 1, queries)
    else
      var rows := provider(plan(level));
      if rows != {} then Discovery(rows, queries + 1) else Ask(plan, provider, level + 1, queries + 1)
  }

  method AskLevels(plan: Plan, provider: Provider) returns (d: Discovery)
    ensures d == Ask(plan, provider, 1, 0) && d.queries <= 3
  {
    d := Discovery({}, 0);
    var level := 1;
    while level <= 3
      invariant 1 <= level <= 4 && d.rows == {} && d.queries < level
      invariant Ask(plan, provider, 1, 0) == Ask(plan, provider, level, d.queries)
      decreases 4 - level
    {
      var groups := plan(level);
      if groups != [] {
        d := Discovery(provider(groups), d.queries + 1);
        if d.rows != {} {
          return;
        }
      }
      level := level + 1;
    }
  }

  /** `offered`: the provider has the content search. Nothing is asked without it, or without a search term. */
  method RunDiscovery(spec: HuntSpec, provider: Provider, offered: bool) returns (d: Discovery)
    ensures d == (if spec.terms != [] && offered then Ask(PlanOf(spec), provider, 1, 0) else Discovery({}, 0))
    ensures d.queries <= 3
  {
    d := Discovery({}, 0);
    if spec.terms != [] && offered {
      d := AskLevels(PlanOf(spec), provider);
    }
  }

  /** Some level that asks anything finds something. */
  ghost predicate LevelFinds(plan: Plan, events: set<string>, level: int) {
    plan(level) != [] && Found(plan(level), events) != {}
  }

  /** The loop comes back empty exactly when no level finds anything. */
  lemma {:induction false} AskIsComplete(plan: Plan, provider: Provider, events: set<string>, level: int, queries: nat)
    requires IsHonest(provider, events)
    ensures Ask(plan, provider, level, queries).rows != {} <==> exists l :: level <= l <= 3 && LevelFinds(plan, events, l)
    decreases 4 - level
  {
    if level <= 3 {
      AskIsComplete(plan, provider, events, level + 1, queries);
      AskIsComplete(plan, provider, events, level + 1, queries + 1);
      assert LevelFinds(plan, events, level) <==> plan(level) != [] && provider(plan(level)) != {};
    }
  }

  /**
   * With at most 24 aliases the third query never finds what the second missed: the discovery finds something
   * exactly when level 2 does, or level 1 if there is no evidence alias to ask for.
   */
  lemma LevelThreeIsFutile(spec: HuntSpec, provider: Provider, events: set<string>)
    requires |EvidenceAliases(spec, 2)| <= MAX_ALIASES && IsHonest(provider, events)
    ensures Ask(PlanOf(spec), provider, 1, 0).rows != {} <==>
      if Groups(spec, 2) != [] then Found(Groups(spec, 2), events) != {}
      else Groups(spec, 1) != [] && Found(Groups(spec, 1), events) != {}
  {
    AskIsComplete(PlanOf(spec), provider, events, 1, 0);
    LevelsDecide(spec);
    FoundGrows(spec, events);
    FoundShrinks(spec, events);
    PlanFinds(spec, events, 1);
    PlanFinds(spec, events, 2);
    PlanFinds(spec, events, 3);
    if l :| 1 <= l <= 3 && LevelFinds(PlanOf(spec), events, l) {
      assert l == 1 || l == 2 || l == 3;
    }
  }

  lemma PlanFinds(spec: HuntSpec, events: set<string>, level: int)
    ensures LevelFinds(PlanOf(spec), events, level) <==> Groups(spec, level) != [] && Found(Groups(spec, level), events) != {}
  {
    assert PlanOf(spec)(level) == Groups(spec, level);
  }

  lemma FoundGrows(spec: HuntSpec, events: set<string>)
    ensures Found(Groups(spec, 1), events) <= Found(Groups(spec, 2), events)
  {
    forall e | e in events && Matches(Groups(spec, 1), e) ensures Matches(Groups(spec, 2), e) {
      LevelTwoRelaxes(spec, e);
    }
  }

  lemma FoundShrinks(spec: HuntSpec, events: set<string>)
    requires |EvidenceAliases(spec, 2)| <= MAX_ALIASES
    ensures Groups(spec, 3) != [] ==> Found(Groups(spec, 3), events) <= Found(Groups(spec, 2), events)
  {
    LevelsDecide(spec);
    if Groups(spec, 3) != [] {
      LevelThreeNarrows(spec);
    }
  }

  /** Which levels ask anything: level 2 with an evidence alias, level 3 only if level 2 does, level 1 if either group is there. */
  lemma LevelsDecide(spec: HuntSpec)
    ensures Groups(spec, 2) != [] <==> EvidenceAliases(spec, 2) != []
    ensures Groups(spec, 3) != [] <==> EvidenceAliases(spec, 3) != []
    ensures Groups(spec, 3) != [] ==> Groups(spec, 2) != []
    ensures Groups(spec, 2) != [] ==> Groups(spec, 1) != []
  {
    var texts := Texts(NonBlank(spec.anchors), spec.terms);
    LevelThreeIsFilter(texts, 3, 2);
    SameBelowThree(texts, 1, 2);
  }
}
