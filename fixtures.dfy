/**
 * The field descriptions the describer's unit test builds, and one lemma per
 * test case stating the outcome the test expects of them.
 */
module FieldDescriptionFixtures {
  import opened CamelCase
  import opened JavaTypes
  import opened FieldDescriptions
  import opened FixturePhrases

  const PlayerType := TypeOf("org.assertj.assertions.generator.data.nba", "Player")

  const BestPlayer := FieldDescription("bestPlayer", Some(PlayerType))

  /** The names the predicate-detection test pairs with a boolean and with a float type. */
  const PredicateCandidates: seq<string> := ["anything", "isSomething", "somethingElse"]

  /**
   * The name is kept, the type name is the simple name of the class, and a
   * plain class has no element type.
   */
  lemma CreatesTypeNameFromClass()
    ensures Name(BestPlayer) == "bestPlayer"
    ensures TypeName(BestPlayer) == "Player"
    ensures ElementTypeName(BestPlayer, PlayerType.packageName) == None
  {
  }

  /** The rendering names the field and the fully qualified name of its class. */
  lemma ShowsInformationInToString()
    ensures Contains(ToString(BestPlayer), "bestPlayer")
    ensures Contains(ToString(BestPlayer), "org.assertj.assertions.generator.data.nba.Player")
  {
    PlayerClassName();
  }

  lemma PlayerClassName()
    ensures QualifiedName(PlayerType) == "org.assertj.assertions.generator.data.nba.Player"
  {
  }

  /** double, Double, float and Float are real number types; int, Integer and String are not. */
  lemma DetectsRealNumber()
    ensures IsRealNumberType(FieldDescription("double", Some(PrimitiveDouble)))
    ensures IsRealNumberType(FieldDescription("Double", Some(BoxedDouble)))
    ensures IsRealNumberType(FieldDescription("float", Some(PrimitiveFloat)))
    ensures IsRealNumberType(FieldDescription("Float", Some(BoxedFloat)))
    ensures !IsRealNumberType(FieldDescription("int", Some(PrimitiveInt)))
    ensures !IsRealNumberType(FieldDescription("Integer", Some(BoxedInteger)))
    ensures !IsRealNumberType(FieldDescription("String", Some(StringType)))
  {
  }

  /**
   * Every candidate name is a predicate with the boolean type and none is
   * with the float type, "isSomething" included.
   */
  lemma DetectsPredicate()
    ensures forall p :: p in PredicateCandidates ==> IsPredicate(FieldDescription(p, Some(PrimitiveBoolean)))
    ensures forall p :: p in PredicateCandidates ==> !IsPredicate(FieldDescription(p, Some(PrimitiveFloat)))
  {
  }

  /** "bad", with a null type, gets the accessors "isBad" and "isNotBad". */
  lemma DefaultPredicate()
    ensures NegativePredicate(FieldDescription("bad", None)) == "isNotBad"
    ensures Predicate(FieldDescription("bad", None)) == "isBad"
  {
    assert !Prefixed("bad");
  }

  /** "bad" reads "is bad" and "is not bad" in Javadoc. */
  lemma ReadablePredicateForJavadoc()
    ensures PredicateForJavadoc(FieldDescription("bad", None)) == "is bad"
    ensures NegativePredicateForJavadoc(FieldDescription("bad", None)) == "is not bad"
  {
    DefaultPredicate();
    IsBadInWords();
    IsNotBadInWords();
  }

  /**
   * The failure-message halves are "is bad" / "is not" for "bad", and "can be
   * good" / "cannot" for "canBeGood", whose "can" is kept.
   */
  lemma ReadablePredicateForErrorMessage()
    ensures ErrorMessagePart1(FieldDescription("bad", None)) == "is bad"
    ensures ErrorMessagePart2(FieldDescription("bad", None)) == "is not"
    ensures ErrorMessagePart1(FieldDescription("canBeGood", None)) == "can be good"
    ensures ErrorMessagePart2(FieldDescription("canBeGood", None)) == "cannot"
  {
    ReadablePredicateForJavadoc();
    CanBeGoodIsCanFamily();
    CannotInWords();
    CanBeGoodInWords();
  }

  lemma CanBeGoodIsCanFamily()
    ensures Family("canBeGood") == CanRule
    ensures Predicate(FieldDescription("canBeGood", None)) == "canBeGood"
  {
    assert HasWordPrefix("canBeGood", CanRule.token);
    assert Rules[1..] == [CanRule];
    assert FirstRule([CanRule], "canBeGood") == Some(0);
    assert FirstRule(Rules, "canBeGood") == Some(1);
  }
}

/**
 * The phrases of the unit test's identifiers, each evaluated from smaller
 * pieces with the concatenation lemma of `CamelCase`.
 */
module FixturePhrases {
  import opened CamelCase

  lemma IsBadInWords()
    ensures Humanise("isBad") == "is bad"
  {
  }

  lemma IsNotBadInWords()
    ensures Humanise("isNotBad") == "is not bad"
  {
    HumaniseAppend("isNot", "Bad");
    assert "isNot" + "Bad" == "isNotBad";
    assert Humanise("isNot") == "is not";
    assert SpaceWords("Bad") == " bad";
  }

  lemma CanBeGoodInWords()
    ensures Humanise("canBeGood") == "can be good"
  {
    HumaniseAppend("can", "BeGood");
    assert "can" + "BeGood" == "canBeGood";
    assert Humanise("can") == "can";
    BeGoodInWords();
  }

  lemma BeGoodInWords()
    ensures SpaceWords("BeGood") == " be good"
  {
    SpaceWordsAppend("Be", "Good");
    assert "Be" + "Good" == "BeGood";
    assert SpaceWords("Be") == " be";
    assert SpaceWords("Good") == " good";
  }
}
