/**
 * The field describer of the assertion generator: from a field's name and its
 * type it derives the type label, whether the type is a real number, whether
 * the field is a boolean predicate, the affirmative and negative boolean
 * accessor names ("isBad" / "isNotBad") and the phrases used in generated
 * Javadoc and failure messages ("is bad" / "is not bad", "is bad" / "is not").
 *
 * The name-derived accessors never look at the type: a description whose type
 * is null (None here) still has a predicate and its phrases.
 */
module FieldDescriptions {
  import opened CamelCase
  import opened JavaTypes

  /** A field: its name and its type, None standing for a null type reference. */
  datatype FieldDescription = FieldDescription(name: string, typ: Option<JavaType>)

  /**
   * A family of boolean accessor prefixes: the prefix token itself, the token
   * that replaces it in the negated accessor, and the negated clause that
   * completes a failure message.
   */
  datatype PrefixRule = PrefixRule(token: string, negation: string, errorPhrase: string)

  /** "isBad" is negated by inserting "Not": "isNotBad"; its failure clause is "is not". */
  const IsRule := PrefixRule("is", "isNot", "is not")
  /** "canBeGood" is negated as "cannotBeGood"; its failure clause is "cannot". */
  const CanRule := PrefixRule("can", "cannot", "cannot")

  /** The recognised prefix families, in the order they are tried. */
  const Rules: seq<PrefixRule> := [IsRule, CanRule]

  /** The name already reads as a boolean accessor: it opens with a recognised prefix word. */
  predicate Prefixed(name: string)
  {
    exists i :: 0 <= i < |Rules| && HasWordPrefix(name, Rules[i].token)
  }

  /** The index of the first rule of `rules` whose token is a word prefix of `name`. */
  function FirstRule(rules: seq<PrefixRule>, name: string): (r: Option<nat>)
    ensures r.Some? ==> r.value < |rules| && HasWordPrefix(name, rules[r.value].token)
    ensures r.Some? ==> forall j :: 0 <= j < r.value ==> !HasWordPrefix(name, rules[j].token)
    ensures r.None? ==> forall j :: 0 <= j < |rules| ==> !HasWordPrefix(name, rules[j].token)
  {
    if |rules| == 0 then None
    else if HasWordPrefix(name, rules[0].token) then Some(0)
    else match FirstRule(rules[1..], name)
      case None => None
      case Some(k) => Some(k + 1)
  }

  /** The prefix family of a name: the first one it opens with, and the "is" family by default. */
  function Family(name: string): (rule: PrefixRule)
    ensures rule in Rules
    ensures Prefixed(name) ==> HasWordPrefix(name, rule.token)
    ensures !Prefixed(name) ==> rule == IsRule
  {
    match FirstRule(Rules, name)
    case Some(i) => Rules[i]
    case None => IsRule
  }

  /**
   * What the predicate says of the object, as a capitalised camel-case tail:
   * the name without its prefix word, or the whole name capitalised.
   */
  function Subject(name: string): (r: string)
    ensures Prefixed(name) ==> name == Family(name).token + r && |r| > 0 && IsUpper(r[0])
    ensures !Prefixed(name) ==> r == Capitalize(name)
  {
    match FirstRule(Rules, name)
    case Some(i) =>
      var t := Rules[i].token;
      assert name == t + name[|t|..];
      name[|t|..]
    case None => Capitalize(name)
  }

  /** The field's name, as given. */
  function Name(d: FieldDescription): (r: string)
    ensures r == d.name
  {
    d.name
  }

  /** The simple name of the field's type ("Player", "boolean"). */
  function TypeName(d: FieldDescription): (r: string)
    requires d.typ.Some?
    ensures r == d.typ.value.simpleName
  {
    d.typ.value.simpleName
  }

  /**
   * The element type of a container type, named relative to `referencePackage`:
   * the simple name inside that package, the qualified name outside it; None
   * for a type that has no element type.
   */
  function ElementTypeName(d: FieldDescription, referencePackage: string): (r: Option<string>)
    requires d.typ.Some?
    ensures r.None? <==> d.typ.value.element.None?
    ensures r.Some? ==> var e := d.typ.value.element.value;
      |r.value| >= |e.simpleName| && r.value[|r.value| - |e.simpleName|..] == e.simpleName
    ensures r.Some? && d.typ.value.element.value.packageName != referencePackage ==>
      r.value == QualifiedName(d.typ.value.element.value)
    ensures r.Some? && d.typ.value.element.value.packageName == referencePackage ==>
      r.value == d.typ.value.element.value.simpleName
  {
    match d.typ.value.element
    case None => None
    case Some(e) => Some(if e.packageName == referencePackage then e.simpleName else QualifiedName(e))
  }

  /** The field holds a boolean. */
  function IsPredicate(d: FieldDescription): (r: bool)
    requires d.typ.Some?
    ensures r <==> d.typ.value.category == Boolean
  {
    d.typ.value.category.Boolean?
  }

  /** The field holds a floating-point number, primitive or boxed. */
  function IsRealNumberType(d: FieldDescription): (r: bool)
    requires d.typ.Some?
    ensures r <==> d.typ.value.category == Floating
    ensures r ==> !IsPredicate(d)
  {
    d.typ.value.category.Floating?
  }

  /**
   * The affirmative boolean accessor: a name that already opens with a prefix
   * word is kept as it is, any other name gets "is" in front, capitalised.
   */
  function Predicate(d: FieldDescription): (r: string)
    requires |d.name| > 0
    ensures Prefixed(d.name) ==> r == d.name
    ensures !Prefixed(d.name) ==> r == "is" + Capitalize(d.name)
  {
    Family(d.name).token + Subject(d.name)
  }

  /** The negated accessor: the predicate's prefix word replaced by its family's negation. */
  function NegativePredicate(d: FieldDescription): (r: string)
    requires |d.name| > 0
    ensures var rule := Family(d.name);
      rule.token <= Predicate(d) && r == rule.negation + Predicate(d)[|rule.token|..]
  {
    var rule := Family(d.name);
    assert Predicate(d)[|rule.token|..] == Subject(d.name);
    rule.negation + Subject(d.name)
  }

  /** The predicate as a phrase for generated Javadoc: "isBad" reads "is bad". */
  function PredicateForJavadoc(d: FieldDescription): (r: string)
    requires |d.name| > 0
    ensures forall i :: 0 <= i < |r| ==> !IsUpper(r[i])
  {
    HumaniseIsLowerCase(Predicate(d));
    Humanise(Predicate(d))
  }

  /**
   * The Javadoc phrase only splits the predicate into words and lower-cases
   * it: without its spaces it is the predicate in lower case.
   */
  lemma JavadocOnlySplitsAndLowers(d: FieldDescription)
    requires |d.name| > 0 && ' ' !in d.name
    ensures RemoveSpaces(PredicateForJavadoc(d)) == LowerAll(Predicate(d))
  {
    var p := Predicate(d);
    assert ' ' !in p by {
      if !Prefixed(d.name) {
        assert p == "is" + [ToUpper(d.name[0])] + d.name[1..];
        assert d.name[0] != ' ' by { assert d.name[0] in d.name; }
        assert forall c :: c in d.name[1..] ==> c in d.name;
      }
    }
    HumaniseOnlySplitsAndLowers(p);
  }

  /**
   * The Javadoc phrase of an unprefixed name that starts with a letter is
   * "is", a space, and the name in words: "bad" reads "is bad".
   */
  lemma JavadocOfDefault(d: FieldDescription)
    requires |d.name| > 0 && !Prefixed(d.name) && (IsLower(d.name[0]) || IsUpper(d.name[0]))
    ensures PredicateForJavadoc(d) == "is " + Humanise(d.name)
  {
    var c := Capitalize(d.name);
    assert c == [ToUpper(d.name[0])] + d.name[1..];
    assert IsUpper(c[0]);
    IsNotInWords();
    HumaniseAppend("is", c);
    assert SpaceWords(c) == [' ', ToLower(c[0])] + SpaceWords(c[1..]);
    assert ToLower(c[0]) == ToLower(d.name[0]);
  }

  /** A name already in predicate form is put into words as it stands: "canBeGood" reads "can be good". */
  lemma JavadocOfPrefixed(d: FieldDescription)
    requires |d.name| > 0 && Prefixed(d.name)
    ensures PredicateForJavadoc(d) == Humanise(d.name)
  {
  }

  /** The negated accessor as a phrase for generated Javadoc: "isNotBad" reads "is not bad". */
  function NegativePredicateForJavadoc(d: FieldDescription): (r: string)
    requires |d.name| > 0
    ensures forall i :: 0 <= i < |r| ==> !IsUpper(r[i])
  {
    HumaniseIsLowerCase(NegativePredicate(d));
    Humanise(NegativePredicate(d))
  }

  /**
   * The first half of a failure message: the prefix word, then the subject in
   * words. It reads exactly as the Javadoc phrase of the predicate.
   */
  function ErrorMessagePart1(d: FieldDescription): (r: string)
    requires |d.name| > 0
    ensures r == PredicateForJavadoc(d)
  {
    var rule := Family(d.name);
    HumaniseAppend(rule.token, Subject(d.name));
    Humanise(rule.token) + SpaceWords(Subject(d.name))
  }

  /**
   * The second half of a failure message, the negated clause of the family:
   * "is not" or "cannot". Followed by the subject in words it is the Javadoc
   * phrase of the negated accessor.
   */
  function ErrorMessagePart2(d: FieldDescription): (r: string)
    requires |d.name| > 0
    ensures Family(d.name) == IsRule ==> r == "is not"
    ensures Family(d.name) == CanRule ==> r == "cannot"
    ensures NegativePredicateForJavadoc(d) == r + SpaceWords(Subject(d.name))
  {
    var rule := Family(d.name);
    NegationReadsAsErrorPhrase(rule);
    HumaniseAppend(rule.negation, Subject(d.name));
    rule.errorPhrase
  }

  lemma NegationReadsAsErrorPhrase(rule: PrefixRule)
    requires rule in Rules
    ensures Humanise(rule.negation) == rule.errorPhrase
    ensures Humanise(rule.token) == rule.token
  {
    if rule == IsRule {
      IsNotInWords();
    } else {
      CannotInWords();
    }
  }

  lemma IsNotInWords()
    ensures Humanise("isNot") == "is not" && Humanise("is") == "is"
  {
  }

  lemma CannotInWords()
    ensures Humanise("cannot") == "cannot" && Humanise("can") == "can"
  {
  }

  /**
   * A diagnostic rendering of the description; it names the field and the
   * fully qualified name of its type ("null" when there is none).
   */
  function ToString(d: FieldDescription): (r: string)
    ensures Contains(r, d.name)
    ensures d.typ.Some? ==> Contains(r, QualifiedName(d.typ.value))
  {
    var typeText := match d.typ case Some(t) => QualifiedName(t) case None => "null";
    var head := "FieldDescription [name=";
    var middle := ", type=";
    var r := head + d.name + middle + typeText + "]";
    ContainsMiddle(head, d.name, middle + typeText + "]");
    assert r == head + d.name + (middle + typeText + "]");
    ContainsMiddle(head + d.name + middle, typeText, "]");
    r
  }

  /**
   * Turning a name into its predicate is stable: the predicate of a predicate
   * is itself, provided the name starts with a letter (so that, capitalised,
   * it opens a new word after "is").
   */
  lemma PredicateIsStable(d: FieldDescription)
    requires |d.name| > 0 && (IsLower(d.name[0]) || IsUpper(d.name[0]))
    ensures var p := Predicate(d); |p| > 0 && Predicate(FieldDescription(p, d.typ)) == p
  {
    var p := Predicate(d);
    if !Prefixed(d.name) {
      assert Rules[0].token == "is";
      assert HasWordPrefix(p, Rules[0].token);
    }
  }

  /** The negated accessor never coincides with the affirmative one. */
  lemma NegativeDiffersFromPredicate(d: FieldDescription)
    requires |d.name| > 0
    ensures NegativePredicate(d) != Predicate(d)
  {
    var rule := Family(d.name);
    assert |rule.negation| > |rule.token|;
    assert |NegativePredicate(d)| == |rule.negation| + |Predicate(d)| - |rule.token|;
  }

  /**
   * For the "is" family the negated accessor is the predicate with "Not"
   * inserted right after "is", and its phrase is the predicate's phrase with
   * "not" inserted after "is".
   */
  lemma IsFamilyInsertsNot(d: FieldDescription)
    requires |d.name| > 0 && Family(d.name) == IsRule
    ensures NegativePredicate(d) == Predicate(d)[..2] + "Not" + Predicate(d)[2..]
    ensures NegativePredicateForJavadoc(d) == "is not" + PredicateForJavadoc(d)[2..]
  {
    var p := Predicate(d);
    assert p[..2] == "is";
    var s := SpaceWords(Subject(d.name));
    NegationReadsAsErrorPhrase(IsRule);
    assert PredicateForJavadoc(d) == "is" + s by {
      HumaniseAppend("is", Subject(d.name));
    }
    assert NegativePredicate(d) == "isNot" + Subject(d.name);
    HumaniseAppend("isNot", Subject(d.name));
    assert (("is" + s)[2..]) == s;
  }

  /**
   * The two failure-message halves share their subject: the negated Javadoc
   * phrase is the second half followed by what the first half says after its
   * prefix word.
   */
  lemma ErrorMessagePartsShareSubject(d: FieldDescription)
    requires |d.name| > 0
    ensures var k := |Family(d.name).token|;
      k <= |ErrorMessagePart1(d)| &&
      NegativePredicateForJavadoc(d) == ErrorMessagePart2(d) + ErrorMessagePart1(d)[k..]
  {
    var rule := Family(d.name);
    var s := SpaceWords(Subject(d.name));
    NegationReadsAsErrorPhrase(rule);
    assert ErrorMessagePart1(d) == rule.token + s;
    assert (rule.token + s)[|rule.token|..] == s;
  }

  /** Which classification a description gets depends on its type only, never on its name. */
  lemma ClassificationIgnoresName(d1: FieldDescription, d2: FieldDescription)
    requires d1.typ.Some? && d1.typ == d2.typ
    ensures IsPredicate(d1) == IsPredicate(d2)
    ensures IsRealNumberType(d1) == IsRealNumberType(d2)
  {
  }

  /** Every name-derived accessor depends on the name only, never on the type. */
  lemma NameDerivedIgnoresType(d1: FieldDescription, d2: FieldDescription)
    requires |d1.name| > 0 && d1.name == d2.name
    ensures Predicate(d1) == Predicate(d2) && NegativePredicate(d1) == NegativePredicate(d2)
    ensures PredicateForJavadoc(d1) == PredicateForJavadoc(d2)
    ensures NegativePredicateForJavadoc(d1) == NegativePredicateForJavadoc(d2)
    ensures ErrorMessagePart1(d1) == ErrorMessagePart1(d2)
    ensures ErrorMessagePart2(d1) == ErrorMessagePart2(d2)
  {
  }
}
