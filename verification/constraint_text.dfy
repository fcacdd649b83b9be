/** Constraints printed as text and read back: what the round trips keep, and what they lose. */
module ConstraintText {
  import opened Text

  datatype Operator = Equals | MustContain | Exists

  /** `value`: the printed value, if there is one. */
  datatype Constraint = Constraint(key: string, value: Option<string>, operator: Operator)

  /** What the constructor guarantees of a key: trimmed, folded, not empty. */
  predicate IsKey(key: string) { key != "" && Trimmed(key) && Fold(key) == key }

  function Print(value: Option<string>): string {
    if value.Some? then value.value else "None"
  }

  function ToText(c: Constraint): string {
    if c.operator == Exists then c.key + ":" + "exists" else c.key + "=" + Print(c.value)
  }

  // ------------------------------------------------------------ reading

  /** The text at its first '=', or else at its first ':'. */
  datatype Parts = Equal(key: string, value: string) | Colon(key: string, value: string) | Bare

  function Split(text: string): Parts {
    match SplitFirst(text, '=')
    case Some(p) => Equal(p.0, p.1)
    case None =>
      match SplitFirst(text, ':')
      case Some(p) => Colon(p.0, p.1)
      case None => Bare
  }

  /** The constructor: the key is trimmed and folded, and must not be empty. */
  function MakeConstraint(key: string, value: Option<string>, operator: Operator): Option<Constraint> {
    if Strip(key) == "" then None else Some(Constraint(Fold(Strip(key)), value, operator))
  }

  function KeyPart(text: string): string {
    var p := Split(text);
    if p.Bare? then text else p.key
  }

  function ValuePart(text: string): Option<string> {
    var p := Split(text);
    if p.Bare? then None else Some(Strip(p.value))
  }

  /** An equality at the first separator; a text without one is a key without a value. */
  function FromText(raw: string): Option<Constraint> {
    MakeConstraint(KeyPart(Strip(raw)), ValuePart(Strip(raw)), Equals)
  }

  /** What a plan step makes of a constraint that comes as text. */
  function Normalise(raw: string): Option<string> {
    match FromText(raw)
    case None => None
    case Some(c) => Some(ToText(c))
  }

  /** How a query reads a constraint's text: the value is not trimmed, and a bare key asks for existence. */
  function ToPredicate(text: string): Option<Constraint> {
    match Split(text)
    case Equal(key, value) => MakeConstraint(key, Some(value), Equals)
    case Colon(key, value) => if value == "exists" then MakeConstraint(key, None, Exists) else MakeConstraint(key, Some(value), Equals)
    case Bare => MakeConstraint(text, None, Exists)
  }

  // ------------------------------------------------------------ string facts

  lemma FoldKeepsChar(s: string, c: char)
    requires c == '=' || c == ':'
    ensures c in Fold(s) <==> c in s
  {
    var f := Fold(s);
    if c in s {
      var i :| 0 <= i < |s| && s[i] == c;
      assert f[i] == c;
    }
    if c in f {
      var i :| 0 <= i < |f| && f[i] == c;
      assert FoldChar(s[i]) == c;
    }
  }

  lemma FoldKeepsSpace(s: string)
    ensures Trimmed(Fold(s)) <==> Trimmed(s)
  {
    assert |Fold(s)| == |s|;
    if s != [] {
      assert IsSpace(FoldChar(s[0])) <==> IsSpace(s[0]);
      assert IsSpace(FoldChar(s[|s| - 1])) <==> IsSpace(s[|s| - 1]);
    }
  }

  /** A key made by the constructor is one, and has a separator only if the text it came from has. */
  lemma MadeKey(key: string)
    requires Strip(key) != ""
    ensures IsKey(Fold(Strip(key)))
    ensures '=' !in key ==> '=' !in Fold(Strip(key))
    ensures ':' !in key ==> ':' !in Fold(Strip(key))
  {
    StripIsTrimmed(key);
    FoldKeepsSpace(Strip(key));
    FoldIdempotent(Strip(key));
    FoldKeepsChar(Strip(key), '=');
    FoldKeepsChar(Strip(key), ':');
  }

  lemma KeyIsMade(key: string)
    requires IsKey(key)
    ensures Strip(key) == key && Fold(Strip(key)) == key
  {
    StripIsTrimmed(key);
  }

  // ------------------------------------------------------------ printing and reading back

  lemma SplitEqual(key: string, value: string)
    requires '=' !in key
    ensures Split(key + "=" + value) == Equal(key, value)
  {
    SplitFirstAt(key, '=', value);
    assert "=" == ['='];
  }

  lemma SplitColon(key: string, value: string)
    requires '=' !in key && ':' !in key && '=' !in value
    ensures Split(key + ":" + value) == Colon(key, value)
  {
    SplitFirstAt(key, ':', value);
    assert ":" == [':'];
    assert '=' !in key + ":" + value;
  }

  lemma PredicateKey(text: string)
    requires ToPredicate(text) != None
    ensures Strip(KeyPart(text)) != "" && ToPredicate(text).value.key == Fold(Strip(KeyPart(text)))
  {
  }

  lemma KeyWithout(key: string, other: string, sep: char)
    requires (sep == '=' || sep == ':') && sep !in key && sep in other && Strip(key) != ""
    ensures Fold(Strip(key)) != other
  {
    MadeKey(key);
  }

  /** Reading at a separator inside the key gives another key. */
  lemma KeyIsCut(text: string, key: string, sep: char)
    requires sep in key && sep in text
    requires sep == '=' || (sep == ':' && '=' !in text)
    ensures ToPredicate(text) != None ==> ToPredicate(text).value.key != key
  {
    if ToPredicate(text) != None {
      PredicateKey(text);
      KeyWithout(KeyPart(text), key, sep);
    }
  }

  /** The predicate that says what the constraint says. */
  function Meant(c: Constraint): Constraint {
    if c.operator == Exists then c.(value := None) else c.(value := Some(Print(c.value)))
  }

  /**
   * A query recovers key, operator and printed value from a constraint's text exactly when the operator is
   * equals and the key has no '=', or the operator is exists and the key has neither separator.
   */
  lemma RoundTrip(c: Constraint)
    requires IsKey(c.key)
    ensures ToPredicate(ToText(c)) == Some(Meant(c)) <==>
      || (c.operator == Equals && '=' !in c.key)
      || (c.operator == Exists && '=' !in c.key && ':' !in c.key)
  {
    KeyIsMade(c.key);
    if '=' in c.key {
      KeyIsCut(ToText(c), c.key, '=');
    } else if c.operator != Exists {
      SplitEqual(c.key, Print(c.value));
    } else if ':' in c.key {
      KeyIsCut(ToText(c), c.key, ':');
    } else {
      SplitColon(c.key, "exists");
    }
  }

  /** An equality without a value is read as one that asks for the word None. */
  lemma MissingValueIsRead(c: Constraint)
    requires IsKey(c.key) && '=' !in c.key && c.operator != Exists && c.value == None
    ensures ToPredicate(ToText(c)) == Some(Constraint(c.key, Some("None"), Equals))
  {
    KeyIsMade(c.key);
    SplitEqual(c.key, "None");
  }

  // ------------------------------------------------------------ normal forms

  /** A text that normalisation leaves as it is. */
  ghost predicate IsNormal(text: string) {
    Split(text).Equal? && IsKey(Split(text).key) && Trimmed(Split(text).value)
  }

  lemma NormalIsTrimmed(key: string, value: string)
    requires IsKey(key) && Trimmed(value)
    ensures Trimmed(key + "=" + value)
  {
    var text := key + "=" + value;
    assert text[0] == key[0];
    assert text[|text| - 1] == if value == "" then '=' else value[|value| - 1];
  }

  /** Reading a trimmed text whose parts are a key and a trimmed value. */
  lemma ReadsParts(text: string, key: string, value: string)
    requires Trimmed(text) && IsKey(key) && Trimmed(value)
    requires Split(text) == Equal(key, value) || Split(text) == Colon(key, value)
    ensures Normalise(text) == Some(key + "=" + value)
  {
    StripIsTrimmed(text);
    StripIsTrimmed(value);
    KeyIsMade(key);
    assert FromText(text) == Some(Constraint(key, Some(value), Equals));
  }

  lemma NormalFormStays(key: string, value: string)
    requires IsKey(key) && '=' !in key && Trimmed(value)
    ensures Normalise(key + "=" + value) == Some(key + "=" + value) && IsNormal(key + "=" + value)
  {
    SplitEqual(key, value);
    NormalIsTrimmed(key, value);
    ReadsParts(key + "=" + value, key, value);
  }

  lemma IsMade(key: string, value: Option<string>, c: Constraint)
    requires MakeConstraint(key, value, Equals) == Some(c) && '=' !in key && Trimmed(Print(value))
    ensures IsKey(c.key) && '=' !in c.key && c.operator == Equals && Trimmed(Print(c.value))
  {
    MadeKey(key);
  }

  /** What reading a text makes: an equality whose key has no '=' and whose value is trimmed. */
  lemma ConstraintIsMade(raw: string)
    requires FromText(raw) != None
    ensures var c := FromText(raw).value;
      IsKey(c.key) && '=' !in c.key && c.operator == Equals && Trimmed(Print(c.value))
  {
    var text := Strip(raw);
    PartsAre(text);
    IsMade(KeyPart(text), ValuePart(text), FromText(raw).value);
  }

  lemma PartsAre(text: string)
    ensures '=' !in KeyPart(text) && Trimmed(Print(ValuePart(text)))
  {
    var p := Split(text);
    if !p.Bare? {
      StripIsTrimmed(p.value);
    }
  }

  /** What normalisation returns is its own normal form. */
  lemma NormaliseIsNormal(raw: string)
    requires Normalise(raw) != None
    ensures IsNormal(Normalise(raw).value) && Normalise(Normalise(raw).value) == Normalise(raw)
  {
    var c := FromText(raw).value;
    ConstraintIsMade(raw);
    NormalFormStays(c.key, Print(c.value));
  }

  /** Normalisation is idempotent on every text, and its fixed points are exactly the normal forms. */
  lemma NormalForms(text: string)
    ensures Normalise(text) == Some(text) <==> IsNormal(text)
  {
    if IsNormal(text) {
      var p := Split(text);
      assert text == p.key + "=" + p.value;
      NormalFormStays(p.key, p.value);
    }
    if Normalise(text) == Some(text) {
      NormaliseIsNormal(text);
    }
  }

  /** What the text of a constraint adds to its key. */
  function Tail(c: Constraint): string {
    if c.operator == Exists then ":" + "exists" else "=" + Print(c.value)
  }

  lemma TextIsKeyAndTail(c: Constraint)
    ensures ToText(c) == c.key + Tail(c)
  {
  }

  /**
   * When a constraint's own text survives being normalised again. With no '=' in the key: exactly when the operator
   * is not exists and the printed value is trimmed. With one: exactly when the part before it is a key by itself
   * and the rest of the text is trimmed.
   */
  lemma PrintedFormStays(c: Constraint)
    requires IsKey(c.key)
    ensures '=' !in c.key ==> (Normalise(ToText(c)) == Some(ToText(c)) <==> c.operator != Exists && Trimmed(Print(c.value)))
    ensures '=' in c.key ==>
      (Normalise(ToText(c)) == Some(ToText(c)) <==> IsKey(Split(c.key).key) && Trimmed(Split(c.key).value + Tail(c)))
  {
    if '=' in c.key {
      TextIsKeyAndTail(c);
      CutKeyIsNormal(c.key, Tail(c));
    } else if c.operator == Exists {
      NoEqualIsNotNormal(c.key + ":" + "exists");
    } else {
      EqualIsNormal(c.key, Print(c.value));
    }
  }

  lemma CutKeyIsNormal(key: string, tail: string)
    requires '=' in key
    ensures Normalise(key + tail) == Some(key + tail) <==> IsKey(Split(key).key) && Trimmed(Split(key).value + tail)
  {
    var p := Split(key);
    assert key == p.key + "=" + p.value;
    assert key + tail == p.key + "=" + (p.value + tail);
    SplitEqual(p.key, p.value + tail);
    NormalForms(key + tail);
  }

  lemma NoEqualIsNotNormal(text: string)
    requires '=' !in text
    ensures Normalise(text) != Some(text)
  {
    NormalForms(text);
  }

  /** An existence constraint comes back asking for the value "exists". */
  lemma ExistsComesBackEqual(c: Constraint)
    requires IsKey(c.key) && '=' !in c.key && ':' !in c.key && c.operator == Exists
    ensures Normalise(ToText(c)) == Some(c.key + "=" + "exists")
  {
    ExistsIsNormalised(c.key);
  }

  lemma EqualIsNormal(key: string, value: string)
    requires IsKey(key) && '=' !in key
    ensures Normalise(key + "=" + value) == Some(key + "=" + value) <==> Trimmed(value)
  {
    NormalForms(key + "=" + value);
    SplitEqual(key, value);
  }

  lemma ExistsIsNormalised(key: string)
    requires IsKey(key) && '=' !in key && ':' !in key
    ensures Normalise(key + ":" + "exists") == Some(key + "=" + "exists")
    ensures key + ":" + "exists" != key + "=" + "exists"
  {
    SplitColon(key, "exists");
    ColonIsTrimmed(key);
    ExistsIsTrimmed();
    ReadsParts(key + ":" + "exists", key, "exists");
    assert (key + ":" + "exists")[|key|] == ':';
  }

  lemma ColonIsTrimmed(key: string)
    requires IsKey(key)
    ensures Trimmed(key + ":" + "exists")
  {
    var text := key + ":" + "exists";
    assert text[0] == key[0] && text[|text| - 1] == 's';
  }

  lemma ExistsIsTrimmed()
    ensures Trimmed("exists")
  {
  }

  // ------------------------------------------------------------ meaning

  lemma EqualIsRead(key: string, value: string)
    requires IsKey(key) && '=' !in key
    ensures ToPredicate(key + "=" + value) == Some(Constraint(key, Some(value), Equals))
  {
    SplitEqual(key, value);
    KeyIsMade(key);
  }

  /** A normalised text reads as an equality, whatever the constraint was. */
  lemma NormalisedReads(raw: string)
    requires Normalise(raw) != None
    ensures ToPredicate(Normalise(raw).value) == Some(Constraint(FromText(raw).value.key, Some(Print(FromText(raw).value.value)), Equals))
  {
    var c := FromText(raw).value;
    ConstraintIsMade(raw);
    EqualIsRead(c.key, Print(c.value));
  }

  /** A text and its stripped form split the same way, up to white space. */
  ghost predicate SameSplit(p: Parts, q: Parts) {
    && (p.Bare? <==> q.Bare?) && (p.Colon? <==> q.Colon?)
    && (!p.Bare? ==> Strip(p.key) == Strip(q.key) && Strip(p.value) == Strip(q.value))
  }

  lemma EqualPartsStripped(key: string, value: string)
    requires '=' !in key
    ensures SameSplit(Equal(key, value), Split(Strip(key + "=" + value)))
  {
    StripAround(key, '=', value);
    SplitEqual(TrimLeft(IsSpace, key), TrimRight(IsSpace, value));
    StripTrimmedLeft(key);
    StripTrimmedRight(value);
  }

  lemma ColonPartsStripped(key: string, value: string)
    requires '=' !in key && ':' !in key && '=' !in value
    ensures SameSplit(Colon(key, value), Split(Strip(key + ":" + value)))
  {
    StripAround(key, ':', value);
    SplitColon(TrimLeft(IsSpace, key), TrimRight(IsSpace, value));
    StripTrimmedLeft(key);
    StripTrimmedRight(value);
  }

  lemma BareStripped(text: string)
    requires '=' !in text && ':' !in text
    ensures Split(Strip(text)) == Bare
  {
    assert '=' !in Strip(text) && ':' !in Strip(text);
  }

  lemma SplitStripped(raw: string)
    ensures SameSplit(Split(raw), Split(Strip(raw)))
  {
    match Split(raw)
    case Equal(key, value) =>
      assert raw == key + "=" + value;
      EqualPartsStripped(key, value);
    case Colon(key, value) =>
      assert raw == key + ":" + value;
      ColonPartsStripped(key, value);
    case Bare => BareStripped(raw);
  }

  /** The two readings of a text, side by side. */
  lemma ReadingsOf(raw: string, p: Parts, q: Parts)
    requires p == Split(raw) && q == Split(Strip(raw)) && SameSplit(p, q) && Strip(Strip(raw)) == Strip(raw) && FromText(raw) != None
    ensures FromText(raw).value.value == if p.Bare? then None else Some(Strip(p.value))
    ensures ToPredicate(raw) == Some(
      if p.Bare? || (p.Colon? && p.value == "exists") then Constraint(FromText(raw).value.key, None, Exists)
      else Constraint(FromText(raw).value.key, Some(p.value), Equals))
  {
  }

  /**
   * Normalising a text before a query reads it keeps the predicate exactly when the text has a separator, its
   * value has no space around it, and it is not an existence constraint.
   */
  lemma MeaningKept(raw: string)
    requires Normalise(raw) != None
    ensures ToPredicate(Normalise(raw).value) == ToPredicate(raw) <==>
      !Split(raw).Bare? && Trimmed(Split(raw).value) && !(Split(raw).Colon? && Split(raw).value == "exists")
  {
    var p := Split(raw);
    SplitStripped(raw);
    StripIsTrimmed(raw);
    StripIsTrimmed(Strip(raw));
    ReadingsOf(raw, p, Split(Strip(raw)));
    NormalisedReads(raw);
    if !p.Bare? {
      StripIsTrimmed(p.value);
    }
  }
}
