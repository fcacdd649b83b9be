/** Ordering, splitting and packing of source profiles: nothing is lost, every bound is exact. */
module Batching {
  import opened Text

  // ------------------------------------------------------------ sequences of sequences

  ghost function Flatten<T>(ss: seq<seq<T>>): seq<T> {
    if ss == [] then [] else ss[0] + Flatten(ss[1..])
  }

  lemma {:induction false} FlattenAppend<T>(ss: seq<seq<T>>, s: seq<T>)
    ensures Flatten(ss + [s]) == Flatten(ss) + s
  {
    if ss == [] {
      assert ss + [s] == [s];
      assert Flatten([s]) == s + Flatten([s][1..]);
    } else {
      assert (ss + [s])[1..] == ss[1..] + [s];
      FlattenAppend(ss[1..], s);
    }
  }

  lemma {:induction false} FlattenConcat<T>(ss: seq<seq<T>>, ts: seq<seq<T>>)
    ensures Flatten(ss + ts) == Flatten(ss) + Flatten(ts)
  {
    if ss == [] {
      assert ss + ts == ts;
    } else {
      assert (ss + ts)[1..] == ss[1..] + ts;
      FlattenConcat(ss[1..], ts);
    }
  }

  lemma {:induction false} InFlatten<T>(ss: seq<seq<T>>, x: T)
    ensures x in Flatten(ss) <==> exists s :: s in ss && x in s
  {
    if ss != [] {
      InFlatten(ss[1..], x);
      assert ss == [ss[0]] + ss[1..];
    }
  }

  // ------------------------------------------------------------ packing

  /** Consecutive batches of exactly `size` items, the last one possibly shorter but never empty. */
  ghost predicate IsPacking<T>(items: seq<T>, size: nat, batches: seq<seq<T>>) {
    && Flatten(batches) == items
    && (forall i :: 0 <= i < |batches| ==> 0 < |batches[i]| <= size)
    && forall i :: 0 <= i < |batches| - 1 ==> |batches[i]| == size
  }

  /** n / d rounded up. */
  function CeilDiv(n: nat, d: nat): nat
    requires d > 0
  {
    if n == 0 then 0 else if n <= d then 1 else 1 + CeilDiv(n - d, d)
  }

  lemma OneMore(q: int, d: int)
    ensures (1 + q) * d == d + q * d
  {
  }

  /** It is the least number of groups of d that hold n. */
  lemma {:induction false} CeilDivIsLeast(n: nat, d: nat)
    requires d > 0 && n > 0
    ensures n <= CeilDiv(n, d) * d && (CeilDiv(n, d) - 1) * d < n
  {
    if n > d {
      var q := CeilDiv(n - d, d);
      CeilDivIsLeast(n - d, d);
      OneMore(q, d);
      OneMore(q - 1, d);
    }
  }

  /** The number of batches is the number of items divided by the size, rounded up. */
  lemma {:induction false} PackingCount<T>(items: seq<T>, size: nat, batches: seq<seq<T>>)
    requires size > 0 && IsPacking(items, size, batches)
    ensures |batches| == CeilDiv(|items|, size)
    decreases |batches|
  {
    if batches != [] {
      var rest := batches[1..];
      assert items == batches[0] + Flatten(rest);
      if rest != [] {
        assert IsPacking(Flatten(rest), size, rest);
        PackingCount(Flatten(rest), size, rest);
        assert Flatten(rest) == rest[0] + Flatten(rest[1..]);
      }
    }
  }

  /** A packing is determined by its items and its size. */
  lemma {:induction false} PackingIsUnique<T>(items: seq<T>, size: nat, a: seq<seq<T>>, b: seq<seq<T>>)
    requires size > 0 && IsPacking(items, size, a) && IsPacking(items, size, b)
    ensures a == b
    decreases |a|
  {
    PackingCount(items, size, a);
    PackingCount(items, size, b);
    if a != [] {
      assert items == a[0] + Flatten(a[1..]) && items == b[0] + Flatten(b[1..]);
      if |a| == 1 {
        assert a[1..] == [] && b[1..] == [];
        assert a == [a[0]] && b == [b[0]];
      } else {
        assert a[0] == items[..size] && b[0] == items[..size];
        assert Flatten(a[1..]) == items[size..] && Flatten(b[1..]) == items[size..];
        PackingIsUnique(items[size..], size, a[1..], b[1..]);
        assert a == [a[0]] + a[1..] && b == [b[0]] + b[1..];
      }
    }
  }

  /** Full batches, and a current batch that is empty only before the first item. */
  ghost predicate IsPartial<T>(items: seq<T>, size: nat, batches: seq<seq<T>>, current: seq<T>) {
    && Flatten(batches) + current == items
    && (forall i :: 0 <= i < |batches| ==> |batches[i]| == size)
    && |current| <= size && (current == [] ==> batches == [])
  }

  method PackOne<T>(ghost items: seq<T>, size: nat, batches: seq<seq<T>>, current: seq<T>, item: T)
    returns (fuller: seq<seq<T>>, open: seq<T>)
    requires size > 0 && IsPartial(items, size, batches, current)
    ensures IsPartial(items + [item], size, fuller, open)
  {
    fuller, open := batches, current;
    if |open| >= size {
      FlattenAppend(fuller, open);
      fuller, open := fuller + [open], [];
    }
    open := open + [item];
  }

  lemma ClosePacking<T>(items: seq<T>, size: nat, batches: seq<seq<T>>, current: seq<T>)
    requires size > 0 && IsPartial(items, size, batches, current)
    ensures IsPacking(items, size, if current == [] then batches else batches + [current])
  {
    FlattenAppend(batches, current);
  }

  // ------------------------------------------------------------ sorting

  ghost predicate IsTotalPreorder<T(!new)>(le: (T, T) -> bool) {
    && (forall a, b :: le(a, b) || le(b, a))
    && forall a, b, c :: le(a, b) && le(b, c) ==> le(a, c)
  }

  ghost predicate IsSorted<T>(le: (T, T) -> bool, s: seq<T>) {
    forall i, j :: 0 <= i < j < |s| ==> le(s[i], s[j])
  }

  lemma InsertedIsSorted<T(!new)>(le: (T, T) -> bool, low: seq<T>, x: T, high: seq<T>)
    requires IsSorted(le, low) && IsSorted(le, high)
    requires forall a :: a in low ==> le(a, x)
    requires forall b :: b in high ==> le(x, b)
    requires forall a, b :: a in low && b in high ==> le(a, b)
    ensures IsSorted(le, low + [x] + high)
  {
    var r := low + [x] + high;
    forall i, j | 0 <= i < j < |r| ensures le(r[i], r[j]) {
      if j < |low| {
        assert r[i] == low[i] && r[j] == low[j];
      } else if i > |low| {
        assert r[i] == high[i - |low| - 1] && r[j] == high[j - |low| - 1];
      } else if i == |low| {
        assert r[j] in high;
      } else {
        assert r[i] in low;
        assert j == |low| || r[j] in high;
      }
    }
  }

  /** Splits a sorted sequence at the place of x. */
  method SplitAt<T(!new)>(le: (T, T) -> bool, s: seq<T>, x: T) returns (i: nat)
    requires IsTotalPreorder(le) && IsSorted(le, s)
    ensures i <= |s|
    ensures forall k :: 0 <= k < i ==> le(s[k], x)
    ensures forall k :: i <= k < |s| ==> le(x, s[k])
  {
    i := |s|;
    while i > 0 && !le(s[i - 1], x)
      invariant i <= |s|
      invariant forall k :: i <= k < |s| ==> le(x, s[k])
    {
      i := i - 1;
    }
    forall k | 0 <= k < i ensures le(s[k], x) {
      if k < i - 1 {
        assert le(s[k], s[i - 1]) && le(s[i - 1], x);
      }
    }
  }

  method InsertSorted<T(!new)>(le: (T, T) -> bool, s: seq<T>, x: T) returns (r: seq<T>)
    requires IsTotalPreorder(le) && IsSorted(le, s)
    ensures IsSorted(le, r) && multiset(r) == multiset(s) + multiset{x}
  {
    var i := SplitAt(le, s, x);
    assert s == s[..i] + s[i..];
    forall a, b | a in s[..i] && b in s[i..] ensures le(a, b) {
      assert le(a, x) && le(x, b);
    }
    InsertedIsSorted(le, s[..i], x, s[i..]);
    r := s[..i] + [x] + s[i..];
  }

  method Sort<T(!new)>(le: (T, T) -> bool, s: seq<T>) returns (r: seq<T>)
    requires IsTotalPreorder(le)
    ensures IsSorted(le, r) && multiset(r) == multiset(s)
  {
    r := [];
    for i := 0 to |s|
      invariant IsSorted(le, r) && multiset(r) == multiset(s[..i])
    {
      assert s[..i + 1] == s[..i] + [s[i]];
      r := InsertSorted(le, r, s[i]);
    }
    assert s[..|s|] == s;
  }

  ghost predicate NoDuplicates<T(!new)>(s: seq<T>) {
    forall i, j :: 0 <= i < j < |s| ==> s[i] != s[j]
  }

  lemma NoDuplicatesCons<T(!new)>(x: T, t: seq<T>)
    ensures NoDuplicates([x] + t) <==> x !in t && NoDuplicates(t)
  {
    var s := [x] + t;
    assert s[0] == x && forall i :: 0 <= i < |t| ==> s[i + 1] == t[i];
    if NoDuplicates(s) {
      forall i | 0 <= i < |t| ensures t[i] != x {
        assert s[i + 1] != s[0];
      }
      forall i, j | 0 <= i < j < |t| ensures t[i] != t[j] {
        assert s[i + 1] != s[j + 1];
      }
    }
  }

  lemma {:induction false} BagHasNoDuplicates<T(!new)>(s: seq<T>)
    ensures NoDuplicates(s) <==> forall x :: multiset(s)[x] <= 1
  {
    if s != [] {
      var x, t := s[0], s[1..];
      assert s == [x] + t;
      NoDuplicatesCons(x, t);
      BagHasNoDuplicates(t);
      var all, rest := multiset(s), multiset(t);
      assert all == multiset{x} + rest;
      assert x in t <==> rest[x] > 0;
      if x in t {
        assert all[x] > 1;
      } else if !NoDuplicates(t) {
        var y :| rest[y] > 1;
        assert all[y] > 1;
      }
    }
  }

  // ------------------------------------------------------------ profiles

  datatype Field = Field(id: string, name: string)

  datatype Profile = Profile(sourceId: string, fields: seq<Field>)

  /** The opaque relevance of a profile for one requirement, and the ids of its matching fields. */
  datatype Requirement = Requirement(relation: string, score: Profile -> real, matching: Profile -> set<string>)

  predicate ProfileLe(q: Requirement, a: Profile, b: Profile) {
    q.score(a) > q.score(b) || (q.score(a) == q.score(b) && StrLe(a.sourceId, b.sourceId))
  }

  predicate FieldLe(matching: set<string>, a: Field, b: Field) {
    || (a.id in matching && b.id !in matching)
    || ((a.id in matching <==> b.id in matching)
        && (StrLess(Fold(a.name), Fold(b.name)) || (Fold(a.name) == Fold(b.name) && StrLe(a.id, b.id))))
  }

  lemma ProfileOrder(q: Requirement)
    ensures IsTotalPreorder((a, b) => ProfileLe(q, a, b))
  {
    forall a: Profile, b: Profile ensures ProfileLe(q, a, b) || ProfileLe(q, b, a) {
      StrLeTotal(a.sourceId, b.sourceId);
    }
    forall a: Profile, b: Profile, c: Profile | ProfileLe(q, a, b) && ProfileLe(q, b, c) ensures ProfileLe(q, a, c) {
      if q.score(a) == q.score(c) {
        StrLeTransitive(a.sourceId, b.sourceId, c.sourceId);
      }
    }
  }

  lemma StrLessTransitive(a: string, b: string, c: string)
    requires StrLe(a, b) && StrLe(b, c) && (a != b || b != c)
    ensures StrLess(a, c)
  {
    StrLeTransitive(a, b, c);
    if a == c {
      StrLeAntisymmetric(a, b);
    }
  }

  lemma FieldOrder(matching: set<string>)
    ensures IsTotalPreorder((a, b) => FieldLe(matching, a, b))
  {
    forall a: Field, b: Field ensures FieldLe(matching, a, b) || FieldLe(matching, b, a) {
      StrLeTotal(Fold(a.name), Fold(b.name));
      StrLeTotal(a.id, b.id);
    }
    forall a: Field, b: Field, c: Field | FieldLe(matching, a, b) && FieldLe(matching, b, c) ensures FieldLe(matching, a, c) {
      if (a.id in matching <==> b.id in matching) && (b.id in matching <==> c.id in matching) {
        StrLeTotal(Fold(a.name), Fold(b.name));
        StrLeTotal(Fold(b.name), Fold(c.name));
        if Fold(a.name) == Fold(b.name) == Fold(c.name) {
          StrLeTransitive(a.id, b.id, c.id);
        } else {
          StrLessTransitive(Fold(a.name), Fold(b.name), Fold(c.name));
        }
      }
    }
  }

  // ------------------------------------------------------------ splitting and ordering

  function FieldLists(frags: seq<Profile>): (r: seq<seq<Field>>)
    ensures |r| == |frags| && forall i :: 0 <= i < |frags| ==> r[i] == frags[i].fields
  {
    seq(|frags|, i requires 0 <= i < |frags| => frags[i].fields)
  }

  /** The fragments of one profile: its fields in order, `size` at a time; one empty fragment if it has none. */
  ghost predicate IsSplit(p: Profile, size: nat, frags: seq<Profile>) {
    && (forall f :: f in frags ==> f.sourceId == p.sourceId)
    && if p.fields == [] then frags == [p] else IsPacking(p.fields, size, FieldLists(frags))
  }

  method SplitFields(p: Profile, size: nat) returns (frags: seq<Profile>)
    requires size > 0
    ensures IsSplit(p, size, frags)
  {
    if p.fields == [] {
      return [p];
    }
    frags := [];
    var start := 0;
    ghost var lists: seq<seq<Field>> := [];
    while start < |p.fields|
      invariant 0 <= start && lists == FieldLists(frags)
      invariant forall f :: f in frags ==> f.sourceId == p.sourceId
      invariant Flatten(lists) == p.fields[..if start < |p.fields| then start else |p.fields|]
      invariant forall i :: 0 <= i < |lists| ==> 0 < |lists[i]| <= size
      invariant forall i :: 0 <= i < |lists| - 1 ==> |lists[i]| == size
      invariant start < |p.fields| ==> forall i :: 0 <= i < |lists| ==> |lists[i]| == size
    {
      var stop := if start + size < |p.fields| then start + size else |p.fields|;
      var chunk := p.fields[start..stop];
      FlattenAppend(lists, chunk);
      assert p.fields[..start] + chunk == p.fields[..stop];
      frags := frags + [p.(fields := chunk)];
      lists := lists + [chunk];
      start := start + size;
    }
  }

  /** The profiles in processing order, each with its fields reordered. */
  ghost predicate IsOrdering(profiles: seq<Profile>, q: Requirement, sorted: seq<Profile>, ordered: seq<Profile>) {
    && multiset(sorted) == multiset(profiles) && IsSorted((a, b) => ProfileLe(q, a, b), sorted)
    && |ordered| == |sorted|
    && forall i :: 0 <= i < |sorted| ==>
         && ordered[i].sourceId == sorted[i].sourceId
         && multiset(ordered[i].fields) == multiset(sorted[i].fields)
         && IsSorted((f, g) => FieldLe(q.matching(sorted[i]), f, g), ordered[i].fields)
  }

  method Order(profiles: seq<Profile>, q: Requirement) returns (ordered: seq<Profile>, ghost sorted: seq<Profile>)
    ensures IsOrdering(profiles, q, sorted, ordered)
    ensures exists s :: IsOrdering(profiles, q, s, ordered)
  {
    ProfileOrder(q);
    var ranked := Sort((a, b) => ProfileLe(q, a, b), profiles);
    sorted := ranked;
    ordered := [];
    for i := 0 to |ranked|
      invariant |ordered| == i
      invariant forall k :: 0 <= k < i ==>
        && ordered[k].sourceId == ranked[k].sourceId
        && multiset(ordered[k].fields) == multiset(ranked[k].fields)
        && IsSorted((f, g) => FieldLe(q.matching(ranked[k]), f, g), ordered[k].fields)
    {
      FieldOrder(q.matching(ranked[i]));
      var fields := Sort((f, g) => FieldLe(q.matching(ranked[i]), f, g), ranked[i].fields);
      ordered := ordered + [ranked[i].(fields := fields)];
    }
  }

  /** Higher scores come first, and among equal ones the smaller id. */
  lemma SourcesAreOrdered(profiles: seq<Profile>, q: Requirement, sorted: seq<Profile>, ordered: seq<Profile>, i: nat, j: nat)
    requires IsOrdering(profiles, q, sorted, ordered) && i < j < |sorted|
    ensures q.score(sorted[i]) >= q.score(sorted[j])
    ensures q.score(sorted[i]) == q.score(sorted[j]) ==> StrLe(sorted[i].sourceId, sorted[j].sourceId)
  {
  }

  /** Within a source matching fields come first, then the order is that of the folded names, then that of the ids. */
  lemma FieldsAreOrdered(profiles: seq<Profile>, q: Requirement, sorted: seq<Profile>, ordered: seq<Profile>, n: nat, i: nat, j: nat)
    requires IsOrdering(profiles, q, sorted, ordered) && n < |sorted| && i < j < |ordered[n].fields|
    ensures var f, g, matching := ordered[n].fields[i], ordered[n].fields[j], q.matching(sorted[n]);
      && (g.id in matching ==> f.id in matching)
      && ((f.id in matching <==> g.id in matching) ==>
            StrLe(Fold(f.name), Fold(g.name)) && (Fold(f.name) == Fold(g.name) ==> StrLe(f.id, g.id)))
  {
    StrLeTotal(Fold(ordered[n].fields[i].name), Fold(ordered[n].fields[j].name));
  }

  // ------------------------------------------------------------ batches for one relation

  ghost predicate AreSplits(ordered: seq<Profile>, size: nat, splits: seq<seq<Profile>>) {
    |splits| == |ordered| && forall i :: 0 <= i < |ordered| ==> IsSplit(ordered[i], size, splits[i])
  }

  /** The limits of a batcher: profiles per batch and fields per fragment. */
  datatype Limits = Limits(profiles: nat, fields: nat)

  method PackFragments(ghost before: seq<Profile>, size: nat, frags: seq<Profile>, batches: seq<seq<Profile>>, current: seq<Profile>)
    returns (fuller: seq<seq<Profile>>, open: seq<Profile>)
    requires size > 0 && IsPartial(before, size, batches, current)
    ensures IsPartial(before + frags, size, fuller, open)
  {
    fuller, open := batches, current;
    assert before + frags[..0] == before;
    for j := 0 to |frags|
      invariant IsPartial(before + frags[..j], size, fuller, open)
    {
      assert before + frags[..j] + [frags[j]] == before + frags[..j + 1];
      fuller, open := PackOne(before + frags[..j], size, fuller, open, frags[j]);
    }
    assert frags[..|frags|] == frags;
  }

  method PackProfiles(ordered: seq<Profile>, limits: Limits) returns (batches: seq<seq<Profile>>, ghost splits: seq<seq<Profile>>)
    requires limits.profiles > 0 && limits.fields > 0
    ensures AreSplits(ordered, limits.fields, splits)
    ensures IsPacking(Flatten(splits), limits.profiles, batches)
    ensures exists s :: AreSplits(ordered, limits.fields, s) && IsPacking(Flatten(s), limits.profiles, batches)
  {
    batches, splits := [], [];
    var current: seq<Profile> := [];
    for i := 0 to |ordered|
      invariant AreSplits(ordered[..i], limits.fields, splits)
      invariant IsPartial(Flatten(splits), limits.profiles, batches, current)
    {
      var frags := SplitFields(ordered[i], limits.fields);
      batches, current := PackFragments(Flatten(splits), limits.profiles, frags, batches, current);
      FlattenAppend(splits, frags);
      splits := splits + [frags];
    }
    assert ordered[..|ordered|] == ordered;
    ClosePacking(Flatten(splits), limits.profiles, batches, current);
    if current != [] {
      batches := batches + [current];
    }
  }

  // ------------------------------------------------------------ conservation

  /** Every field with the source it comes from, in order. */
  ghost function Tags(ps: seq<Profile>): seq<(string, Field)> {
    if ps == [] then [] else Tag(ps[0].sourceId, ps[0].fields) + Tags(ps[1..])
  }

  function Tag(id: string, fields: seq<Field>): (r: seq<(string, Field)>)
    ensures |r| == |fields|
  {
    seq(|fields|, i requires 0 <= i < |fields| => (id, fields[i]))
  }

  lemma {:induction false} TagsConcat(a: seq<Profile>, b: seq<Profile>)
    ensures Tags(a + b) == Tags(a) + Tags(b)
  {
    if a == [] {
      assert a + b == b;
    } else {
      assert (a + b)[1..] == a[1..] + b;
      TagsConcat(a[1..], b);
    }
  }

  lemma {:induction false} TagsOfFragments(id: string, frags: seq<Profile>)
    requires forall f :: f in frags ==> f.sourceId == id
    ensures Tags(frags) == Tag(id, Flatten(FieldLists(frags)))
  {
    if frags != [] {
      TagsOfFragments(id, frags[1..]);
      assert FieldLists(frags)[1..] == FieldLists(frags[1..]);
    }
  }

  /** The fragments of a profile carry exactly its fields, in its order. */
  lemma SplitKeepsTags(p: Profile, size: nat, frags: seq<Profile>)
    requires IsSplit(p, size, frags)
    ensures Tags(frags) == Tag(p.sourceId, p.fields)
  {
    TagsOfFragments(p.sourceId, frags);
    if p.fields == [] {
      assert FieldLists(frags) == [p.fields];
      assert Flatten(FieldLists(frags)) == p.fields + Flatten(FieldLists(frags)[1..]);
    }
  }

  lemma {:induction false} SplitsKeepTags(ordered: seq<Profile>, size: nat, splits: seq<seq<Profile>>)
    requires AreSplits(ordered, size, splits)
    ensures Tags(Flatten(splits)) == Tags(ordered)
  {
    if ordered != [] {
      SplitKeepsTags(ordered[0], size, splits[0]);
      SplitsKeepTags(ordered[1..], size, splits[1..]);
      TagsConcat(splits[0], Flatten(splits[1..]));
    }
  }

  /** Batching keeps every field of every source, in the processing order. */
  lemma BatchesKeepTags(ordered: seq<Profile>, limits: Limits, splits: seq<seq<Profile>>, batches: seq<seq<Profile>>)
    requires AreSplits(ordered, limits.fields, splits) && IsPacking(Flatten(splits), limits.profiles, batches)
    ensures Tags(Flatten(batches)) == Tags(ordered)
  {
    SplitsKeepTags(ordered, limits.fields, splits);
  }

  ghost function TagBag(ps: seq<Profile>): multiset<(string, Field)> {
    multiset(Tags(ps))
  }

  lemma {:induction false} TagCount(id: string, fields: seq<Field>, x: (string, Field))
    ensures multiset(Tag(id, fields))[x] == if x.0 == id then multiset(fields)[x.1] else 0
  {
    if fields != [] {
      TagCount(id, fields[1..], x);
      assert Tag(id, fields) == [(id, fields[0])] + Tag(id, fields[1..]);
      assert fields == [fields[0]] + fields[1..];
    }
  }

  lemma SameFieldsSameTags(id: string, a: seq<Field>, b: seq<Field>)
    requires multiset(a) == multiset(b)
    ensures multiset(Tag(id, a)) == multiset(Tag(id, b))
  {
    forall x ensures multiset(Tag(id, a))[x] == multiset(Tag(id, b))[x] {
      TagCount(id, a, x);
      TagCount(id, b, x);
    }
  }

  lemma {:induction false} ReorderedFieldsKeepBag(sorted: seq<Profile>, ordered: seq<Profile>)
    requires |ordered| == |sorted|
    requires forall i :: 0 <= i < |sorted| ==>
      ordered[i].sourceId == sorted[i].sourceId && multiset(ordered[i].fields) == multiset(sorted[i].fields)
    ensures TagBag(ordered) == TagBag(sorted)
  {
    if sorted != [] {
      SameFieldsSameTags(sorted[0].sourceId, ordered[0].fields, sorted[0].fields);
      ReorderedFieldsKeepBag(sorted[1..], ordered[1..]);
    }
  }

  /** The bag of tagged fields depends on the bag of profiles only. */
  lemma {:induction false} PermutedProfilesKeepBag(a: seq<Profile>, b: seq<Profile>)
    requires multiset(a) == multiset(b)
    ensures TagBag(a) == TagBag(b)
    decreases |a|
  {
    if a == [] {
      assert |multiset(a)| == |a| && |multiset(b)| == |b|;
    } else {
      assert a[0] in multiset(b);
      var i :| 0 <= i < |b| && b[i] == a[0];
      WithoutOne(a, b, i);
      PermutedProfilesKeepBag(a[1..], b[..i] + b[i + 1..]);
      BagOfRest(b, i);
      BagOfRest(a, 0);
      assert a[..0] + a[1..] == a[1..];
    }
  }

  lemma WithoutOne(a: seq<Profile>, b: seq<Profile>, i: nat)
    requires multiset(a) == multiset(b) && a != [] && i < |b| && b[i] == a[0]
    ensures multiset(a[1..]) == multiset(b[..i] + b[i + 1..])
  {
    assert a == [a[0]] + a[1..];
    assert b == b[..i] + [b[i]] + b[i + 1..];
    assert multiset(a[1..]) == multiset(a) - multiset{a[0]};
    assert multiset(b[..i] + b[i + 1..]) == multiset(b) - multiset{b[i]};
  }

  lemma BagOfRest(b: seq<Profile>, i: nat)
    requires i < |b|
    ensures TagBag(b) == TagBag(b[..i] + b[i + 1..]) + multiset(Tag(b[i].sourceId, b[i].fields))
  {
    assert b == b[..i] + b[i..];
    TagsConcat(b[..i], b[i..]);
    TagsConcat(b[..i], b[i + 1..]);
    assert b[i..][1..] == b[i + 1..];
  }

  /** What the batches of one relation owe to the profiles they were made from. */
  ghost predicate IsBatchingOf(profiles: seq<Profile>, q: Requirement, limits: Limits,
                               sorted: seq<Profile>, ordered: seq<Profile>, splits: seq<seq<Profile>>, batches: seq<seq<Profile>>) {
    && IsOrdering(profiles, q, sorted, ordered)
    && AreSplits(ordered, limits.fields, splits)
    && IsPacking(Flatten(splits), limits.profiles, batches)
  }

  /** Whatever the scores, the batches carry every field of every source as often as the census does. */
  lemma BatchingConserves(profiles: seq<Profile>, q: Requirement, limits: Limits,
                          sorted: seq<Profile>, ordered: seq<Profile>, splits: seq<seq<Profile>>, batches: seq<seq<Profile>>)
    requires IsBatchingOf(profiles, q, limits, sorted, ordered, splits, batches)
    ensures TagBag(Flatten(batches)) == TagBag(profiles)
  {
    BatchesKeepTags(ordered, limits, splits, batches);
    ReorderedFieldsKeepBag(sorted, ordered);
    PermutedProfilesKeepBag(sorted, profiles);
  }

  function FieldsFrom(tags: seq<(string, Field)>, id: string): seq<Field> {
    if tags == [] then []
    else (if tags[0].0 == id then [tags[0].1] else []) + FieldsFrom(tags[1..], id)
  }

  lemma {:induction false} FieldsFromConcat(a: seq<(string, Field)>, b: seq<(string, Field)>, id: string)
    ensures FieldsFrom(a + b, id) == FieldsFrom(a, id) + FieldsFrom(b, id)
  {
    if a == [] {
      assert a + b == b;
    } else {
      assert (a + b)[1..] == a[1..] + b;
      FieldsFromConcat(a[1..], b, id);
      assert FieldsFrom(a, id) == (if a[0].0 == id then [a[0].1] else []) + FieldsFrom(a[1..], id);
    }
  }

  lemma {:induction false} FieldsFromTag(id: string, fields: seq<Field>, wanted: string)
    ensures FieldsFrom(Tag(id, fields), wanted) == if id == wanted then fields else []
  {
    if fields != [] {
      assert Tag(id, fields)[1..] == Tag(id, fields[1..]);
      FieldsFromTag(id, fields[1..], wanted);
    }
  }

  /** The fields of every profile with this id, in processing order. */
  function FieldsOf(ordered: seq<Profile>, id: string): seq<Field> {
    if ordered == [] then [] else (if ordered[0].sourceId == id then ordered[0].fields else []) + FieldsOf(ordered[1..], id)
  }

  lemma {:induction false} TaggedFields(ordered: seq<Profile>, id: string)
    ensures FieldsFrom(Tags(ordered), id) == FieldsOf(ordered, id)
  {
    if ordered != [] {
      FirstOrRest(ordered, id);
      TaggedFields(ordered[1..], id);
    }
  }

  lemma FirstOrRest(ordered: seq<Profile>, id: string)
    requires ordered != []
    ensures FieldsFrom(Tags(ordered), id) ==
      (if ordered[0].sourceId == id then ordered[0].fields else []) + FieldsFrom(Tags(ordered[1..]), id)
  {
    FieldsFromTag(ordered[0].sourceId, ordered[0].fields, id);
    FieldsFromConcat(Tag(ordered[0].sourceId, ordered[0].fields), Tags(ordered[1..]), id);
  }

  lemma {:induction false} SourceAlone(ordered: seq<Profile>, id: string)
    requires forall p :: p in ordered ==> p.sourceId != id
    ensures FieldsOf(ordered, id) == []
  {
    if ordered != [] {
      SourceAlone(ordered[1..], id);
    }
  }

  lemma {:induction false} SourceInOrder(ordered: seq<Profile>, i: nat)
    requires i < |ordered| && forall j, k :: 0 <= j < k < |ordered| ==> ordered[j].sourceId != ordered[k].sourceId
    ensures FieldsOf(ordered, ordered[i].sourceId) == ordered[i].fields
  {
    if i == 0 {
      SourceAlone(ordered[1..], ordered[0].sourceId);
    } else {
      SourceInOrder(ordered[1..], i - 1);
    }
  }

  /**
   * Reading the fragments with some id in batch order gives back exactly the ordered fields of the sources with
   * that id, one source after the other; with distinct ids, the fields of the one source.
   */
  lemma SourceIsRestored(ordered: seq<Profile>, limits: Limits, splits: seq<seq<Profile>>, batches: seq<seq<Profile>>, id: string)
    requires AreSplits(ordered, limits.fields, splits) && IsPacking(Flatten(splits), limits.profiles, batches)
    ensures FieldsFrom(Tags(Flatten(batches)), id) == FieldsOf(ordered, id)
    ensures (forall j, k :: 0 <= j < k < |ordered| ==> ordered[j].sourceId != ordered[k].sourceId) ==>
      forall i :: 0 <= i < |ordered| && ordered[i].sourceId == id ==> FieldsOf(ordered, id) == ordered[i].fields
  {
    BatchesKeepTags(ordered, limits, splits, batches);
    TaggedFields(ordered, id);
    if forall j, k :: 0 <= j < k < |ordered| ==> ordered[j].sourceId != ordered[k].sourceId {
      forall i | 0 <= i < |ordered| && ordered[i].sourceId == id ensures FieldsOf(ordered, id) == ordered[i].fields {
        SourceInOrder(ordered, i);
      }
    }
  }

  lemma SplitIsNotEmpty(p: Profile, size: nat, frags: seq<Profile>)
    requires IsSplit(p, size, frags)
    ensures frags != []
  {
    assert frags == [] ==> FieldLists(frags) == [];
  }

  lemma SplitIsPacked(ordered: seq<Profile>, limits: Limits, splits: seq<seq<Profile>>, batches: seq<seq<Profile>>, i: nat)
    requires AreSplits(ordered, limits.fields, splits) && IsPacking(Flatten(splits), limits.profiles, batches) && i < |ordered|
    ensures exists b, f :: b in batches && f in b && f.sourceId == ordered[i].sourceId
  {
    SplitIsNotEmpty(ordered[i], limits.fields, splits[i]);
    var f := splits[i][0];
    assert f in splits[i] && splits[i] in splits;
    InFlatten(splits, f);
    InFlatten(batches, f);
    assert f in Flatten(batches);
  }

  /** A source with no fields is scheduled too. */
  lemma EverySourceIsScheduled(profiles: seq<Profile>, q: Requirement, limits: Limits,
                               sorted: seq<Profile>, ordered: seq<Profile>, splits: seq<seq<Profile>>, batches: seq<seq<Profile>>, p: Profile)
    requires IsBatchingOf(profiles, q, limits, sorted, ordered, splits, batches) && p in profiles
    ensures exists b, f :: b in batches && f in b && f.sourceId == p.sourceId
  {
    assert p in multiset(sorted);
    var i :| 0 <= i < |sorted| && sorted[i] == p;
    SplitIsPacked(ordered, limits, splits, batches, i);
  }

  // ------------------------------------------------------------ exact counts

  function FragmentCount(ordered: seq<Profile>, size: nat): nat
    requires size > 0
  {
    if ordered == [] then 0
    else (if ordered[0].fields == [] then 1 else CeilDiv(|ordered[0].fields|, size)) + FragmentCount(ordered[1..], size)
  }

  lemma {:induction false} SplitCount(ordered: seq<Profile>, size: nat, splits: seq<seq<Profile>>)
    requires size > 0 && AreSplits(ordered, size, splits)
    ensures |Flatten(splits)| == FragmentCount(ordered, size)
  {
    if ordered != [] {
      if ordered[0].fields != [] {
        PackingCount(ordered[0].fields, size, FieldLists(splits[0]));
      }
      SplitCount(ordered[1..], size, splits[1..]);
    }
  }

  /** The number of batches, and the size of every fragment and batch. */
  lemma ExactBounds(ordered: seq<Profile>, limits: Limits, splits: seq<seq<Profile>>, batches: seq<seq<Profile>>)
    requires limits.profiles > 0 && limits.fields > 0
    requires AreSplits(ordered, limits.fields, splits) && IsPacking(Flatten(splits), limits.profiles, batches)
    ensures |batches| == CeilDiv(FragmentCount(ordered, limits.fields), limits.profiles)
    ensures var n := FragmentCount(ordered, limits.fields);
      n > 0 ==> (|batches| - 1) * limits.profiles < n <= |batches| * limits.profiles
    ensures forall b, f :: b in batches && f in b ==> |f.fields| <= limits.fields
  {
    SplitCount(ordered, limits.fields, splits);
    PackingCount(Flatten(splits), limits.profiles, batches);
    if FragmentCount(ordered, limits.fields) > 0 {
      CeilDivIsLeast(FragmentCount(ordered, limits.fields), limits.profiles);
    }
    forall b, f | b in batches && f in b ensures |f.fields| <= limits.fields {
      InFlatten(batches, f);
      InFlatten(splits, f);
      var split :| split in splits && f in split;
      var i :| 0 <= i < |splits| && splits[i] == split;
      if ordered[i].fields != [] {
        var j :| 0 <= j < |split| && split[j] == f;
        assert FieldLists(split)[j] == f.fields;
      }
    }
  }

  // ------------------------------------------------------------ all relations

  function RelationOf(q: Requirement): string { Fold(Strip(q.relation)) }

  /** The normalised relation name of each requirement. */
  function Relations(requirements: seq<Requirement>): (names: seq<string>)
    ensures |names| == |requirements| && forall i :: 0 <= i < |names| ==> names[i] == RelationOf(requirements[i])
  {
    seq(|requirements|, i requires 0 <= i < |requirements| => RelationOf(requirements[i]))
  }

  /** Relations are told apart by their stripped, folded names. */
  lemma RelationsAre(requirements: seq<Requirement>, i: nat)
    requires i < |requirements|
    ensures Relations(requirements)[i] == Fold(Strip(requirements[i].relation))
  {
  }

  ghost predicate IsProducedBy(profiles: seq<Profile>, q: Requirement, limits: Limits, batches: seq<seq<Profile>>) {
    exists sorted, ordered, splits :: IsBatchingOf(profiles, q, limits, sorted, ordered, splits, batches)
  }

  /** Among the first n names, i is the last place of this one. */
  ghost predicate IsLastAt(names: seq<string>, n: nat, name: string, i: nat)
    requires n <= |names|
  {
    i < n && names[i] == name && forall k :: i < k < n ==> names[k] != name
  }

  method BatchOne(profiles: seq<Profile>, q: Requirement, limits: Limits) returns (batches: seq<seq<Profile>>)
    requires limits.profiles > 0 && limits.fields > 0
    ensures IsProducedBy(profiles, q, limits, batches)
  {
    ghost var sorted, splits;
    var ordered;
    ordered, sorted := Order(profiles, q);
    batches, splits := PackProfiles(ordered, limits);
    assert IsBatchingOf(profiles, q, limits, sorted, ordered, splits, batches);
  }

  type Batches = seq<seq<Profile>>

  /** `source` gives, for every relation in the result, its last requirement, and `made` relates that to its batches. */
  ghost predicate AreBatched(made: (nat, Batches) -> bool, names: seq<string>, n: nat,
                             batches: map<string, Batches>, source: map<string, nat>)
    requires n <= |names|
  {
    && (forall k :: 0 <= k < n && names[k] != "" ==> names[k] in batches)
    && (forall r :: r in batches ==> r in source && r != "" && IsLastAt(names, n, r, source[r]) && made(source[r], batches[r]))
  }

  lemma BatchesGrow(made: (nat, Batches) -> bool, names: seq<string>, n: nat,
                    batches: map<string, Batches>, source: map<string, nat>, packed: Batches)
    requires n < |names| && AreBatched(made, names, n, batches, source)
    requires names[n] != "" ==> made(n, packed)
    ensures
      if names[n] == "" then AreBatched(made, names, n + 1, batches, source)
      else AreBatched(made, names, n + 1, batches[names[n] := packed], source[names[n] := n])
  {
  }

  /** Batches made from the requirement at a place. */
  ghost function MadeFrom(profiles: seq<Profile>, requirements: seq<Requirement>, limits: Limits): (nat, Batches) -> bool {
    (i: nat, b: Batches) => i < |requirements| && IsProducedBy(profiles, requirements[i], limits, b)
  }

  /** Every named relation gets batches of every profile; the last requirement for it decides. */
  method Batch(profiles: seq<Profile>, requirements: seq<Requirement>, limits: Limits)
    returns (batches: map<string, Batches>, ghost source: map<string, nat>)
    requires limits.profiles > 0 && limits.fields > 0
    ensures AreBatched(MadeFrom(profiles, requirements, limits), Relations(requirements), |requirements|, batches, source)
    ensures exists s :: AreBatched(MadeFrom(profiles, requirements, limits), Relations(requirements), |requirements|, batches, s)
  {
    batches, source := map[], map[];
    var names := Relations(requirements);
    ghost var made := MadeFrom(profiles, requirements, limits);
    for i := 0 to |requirements|
      invariant AreBatched(made, names, i, batches, source)
    {
      ghost var empty: Batches := [];
      if names[i] != "" {
        var packed := BatchOne(profiles, requirements[i], limits);
        BatchesGrow(made, names, i, batches, source, packed);
        batches := batches[names[i] := packed];
        source := source[names[i] := i];
      } else {
        BatchesGrow(made, names, i, batches, source, empty);
      }
    }
  }
}
