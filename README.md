# Field describer of the AssertJ assertions generator

The assertions generator reads a class's fields and emits fluent assertion
methods for them. For each field, a `FieldDescription` derives these strings and flags from the
field's name and its type:

- the type label, and the element type of a container;
- whether the type is a real (floating-point) number;
- whether the field is a boolean predicate;
- the affirmative and negative boolean accessor names (`bad` gives `isBad` / `isNotBad`);
- the phrases used in generated Javadoc (`is bad` / `is not bad`);
- the two halves of a failure message (`is bad` / `is not`, `can be good` / `cannot`).

This project models that describer as pure Dafny functions and proves
properties of it.

- `camel_case.dfy` (module `CamelCase`) holds the string helpers:
  - ASCII case conversion and capitalising the first letter;
  - recognising a camel-case prefix word;
  - `Humanise`, which splits a camel-case identifier into lower-case words separated by spaces.
- `java_types.dfy` (module `JavaTypes`) replaces reflection. A type has an explicit category
  (`Boolean`, `Integral`, `Floating`, `Reference`), its package, its simple name and an
  optional element type. The qualified name is derived from the package and the simple name.
  The category is derived from the name: the primitive keywords and their boxed classes in
  `java.lang` are booleans or numbers, and every other type is a reference type.
- `field_description.dfy` (module `FieldDescriptions`) is the describer:
  - a two-entry prefix table. `is` is negated by inserting `Not`; its failure clause is `is not`.
    `can` is negated as `cannot`; its failure clause is `cannot`;
  - the accessors;
  - the lemmas relating them.
- `fixtures.dfy` (module `FieldDescriptionFixtures`) has one lemma per case of
  `FieldDescriptionTest`. Each lemma states the outcome that case expects.

The model fixes the behaviour `FieldDescriptionTest` checks. Where that test is silent, it
chooses a rule and lists it under "## Left out".

Design decisions:

- The type of a description is an `Option<JavaType>`. `None` stands for a null type. The tests
  for the predicate, the Javadoc phrases and the failure messages pass the field `boolDesc`.
  That field is only assigned inside another test method, and each test runs on a fresh
  instance. So in those tests the type is null. Every name-derived accessor therefore reads
  only the name (`NameDerivedIgnoresType`). The type-derived accessors require a type.
- A prefix word is recognised only at a camel-case boundary. The name must start with the token,
  and the next character must be upper-case. So `canBeGood` is in the `can` family, while
  `island` is not `is` + `land`. It gets the default predicate `isIsland`.
- A name without a recognised prefix falls into the `is` family.
- The first failure-message half is built from the family's prefix word and the subject in
  words. It is proved equal to the Javadoc phrase for every name.
- The second half is the family's negated clause. It is proved to be the negated Javadoc phrase
  minus its subject words.

## Model

| member | source | states |
|---|---|---|
| FieldDescriptions.Name | src/test/java/org/assertj/assertions/generator/description/FieldDescriptionTest.java:28 | the name is returned unchanged |
| FieldDescriptions.TypeName | src/test/java/org/assertj/assertions/generator/description/FieldDescriptionTest.java:29 | the type name is the type's simple name, not its qualified name |
| FieldDescriptions.ElementTypeName | src/test/java/org/assertj/assertions/generator/description/FieldDescriptionTest.java:30 | there is no element type name exactly when the type has no element type; otherwise it is the element's simple name when the element lies in the reference package and its fully qualified name when it lies outside |
| FieldDescriptionFixtures.CreatesTypeNameFromClass | src/test/java/org/assertj/assertions/generator/description/FieldDescriptionTest.java:26-30 | for `bestPlayer` of type `Player`: the name is `bestPlayer`, the type name `Player`, and there is no element type name |
| FieldDescriptions.ToString | src/test/java/org/assertj/assertions/generator/description/FieldDescriptionTest.java:35-37 | for every description, the rendering contains the field name and, when there is a type, its fully qualified name |
| FieldDescriptionFixtures.ShowsInformationInToString | src/test/java/org/assertj/assertions/generator/description/FieldDescriptionTest.java:35-37 | the rendering of `bestPlayer` contains `bestPlayer` and the qualified class name `org.assertj.assertions.generator.data.nba.Player` |
| JavaTypes.CategoryOf | src/test/java/org/assertj/assertions/generator/description/FieldDescriptionTest.java:41-56 | only a primitive keyword or a `java.lang` class can be a boolean or a number; every other type is a reference type |
| JavaTypes.BoxingKeepsCategory | src/test/java/org/assertj/assertions/generator/description/FieldDescriptionTest.java:41-56 | each primitive type and its boxed `java.lang` class fall into the same category, which is not the reference category |
| JavaTypes.TypeOf | src/test/java/org/assertj/assertions/generator/description/FieldDescriptionTest.java:41-56 | a type built from a package and a simple name carries those names, no element type, and the category derived from the names |
| FieldDescriptions.IsRealNumberType | src/test/java/org/assertj/assertions/generator/description/FieldDescriptionTest.java:41-56 | true exactly for the floating-point category, primitive or boxed; a real number type is never a predicate |
| FieldDescriptionFixtures.DetectsRealNumber | src/test/java/org/assertj/assertions/generator/description/FieldDescriptionTest.java:41-56 | double, Double, float and Float are real number types; int, Integer and String are not |
| FieldDescriptions.IsPredicate | src/test/java/org/assertj/assertions/generator/description/FieldDescriptionTest.java:59-72 | true exactly for the boolean category |
| FieldDescriptions.ClassificationIgnoresName | src/test/java/org/assertj/assertions/generator/description/FieldDescriptionTest.java:59-72 | two descriptions with the same type get the same predicate and real-number verdicts, whatever their names |
| FieldDescriptionFixtures.DetectsPredicate | src/test/java/org/assertj/assertions/generator/description/FieldDescriptionTest.java:59-72 | `anything`, `isSomething` and `somethingElse` are predicates with the boolean type and are not with the float type |
| FieldDescriptions.FirstRule | src/test/java/org/assertj/assertions/generator/description/FieldDescriptionTest.java:94-96 | the prefix table is searched in order: the index found is the first rule whose token is a word prefix of the name, and none means no rule matches |
| FieldDescriptions.Family | src/test/java/org/assertj/assertions/generator/description/FieldDescriptionTest.java:89-96 | a name's family is a table entry whose token the name opens with, and the `is` family when it opens with none |
| FieldDescriptions.Subject | src/test/java/org/assertj/assertions/generator/description/FieldDescriptionTest.java:74-96 | for a prefixed name, the name is the family token followed by the subject, which opens a new word; otherwise the subject is the capitalised name |
| FieldDescriptions.Predicate | src/test/java/org/assertj/assertions/generator/description/FieldDescriptionTest.java:74-79 | a name that already opens with a prefix word is kept; any other name becomes `is` followed by the capitalised name |
| FieldDescriptions.NegativePredicate | src/test/java/org/assertj/assertions/generator/description/FieldDescriptionTest.java:74-79 | the negative accessor is the predicate with its prefix word replaced by the family's negation |
| FieldDescriptions.NegativeDiffersFromPredicate | src/test/java/org/assertj/assertions/generator/description/FieldDescriptionTest.java:77-78 | the negative accessor never equals the affirmative one |
| FieldDescriptions.PredicateIsStable | src/test/java/org/assertj/assertions/generator/description/FieldDescriptionTest.java:94-96 | a name already in predicate form keeps its prefix: for a name starting with a letter, the predicate of the predicate is the predicate itself |
| FieldDescriptions.NameDerivedIgnoresType | src/test/java/org/assertj/assertions/generator/description/FieldDescriptionTest.java:74-96 | the predicates and all phrases depend on the name only, so they are defined when the type is null |
| CamelCase.UncapitalizeCapitalize | src/test/java/org/assertj/assertions/generator/description/FieldDescriptionTest.java:78 | capitalising a name that starts with a lower-case letter is undone by lower-casing its first letter |
| FieldDescriptionFixtures.DefaultPredicate | src/test/java/org/assertj/assertions/generator/description/FieldDescriptionTest.java:74-79 | with a null type, `bad` has the predicate `isBad` and the negative predicate `isNotBad` |
| CamelCase.Humanise | src/test/java/org/assertj/assertions/generator/description/FieldDescriptionTest.java:84-85 | the phrase of a non-empty identifier opens with the identifier's first letter in lower case |
| CamelCase.HumaniseIsLowerCase | src/test/java/org/assertj/assertions/generator/description/FieldDescriptionTest.java:84-85 | a phrase contains no upper-case letter and is at least as long as its identifier |
| CamelCase.HumaniseSnoc | src/test/java/org/assertj/assertions/generator/description/FieldDescriptionTest.java:84-85 | where the spaces go: each character after the first adds itself to the phrase, preceded by a space and lower-cased exactly when it is an upper-case letter |
| CamelCase.HumaniseAppend | src/test/java/org/assertj/assertions/generator/description/FieldDescriptionTest.java:84-85 | the phrase of a concatenation is the phrase of the head followed by the words of the tail |
| CamelCase.HumaniseOnlySplitsAndLowers | src/test/java/org/assertj/assertions/generator/description/FieldDescriptionTest.java:81-86 | for an identifier without spaces, removing the spaces from its phrase gives the identifier in lower case |
| FieldDescriptions.PredicateForJavadoc | src/test/java/org/assertj/assertions/generator/description/FieldDescriptionTest.java:84 | the Javadoc phrase of the predicate contains no upper-case letter |
| FieldDescriptions.JavadocOnlySplitsAndLowers | src/test/java/org/assertj/assertions/generator/description/FieldDescriptionTest.java:81-86 | for a name without spaces, the Javadoc phrase without its spaces is the predicate in lower case |
| FieldDescriptions.JavadocOfDefault | src/test/java/org/assertj/assertions/generator/description/FieldDescriptionTest.java:84 | the Javadoc phrase of an unprefixed name starting with a letter is `is`, a space and the name in words (`bad` reads `is bad`) |
| FieldDescriptions.JavadocOfPrefixed | src/test/java/org/assertj/assertions/generator/description/FieldDescriptionTest.java:94-95 | the Javadoc phrase of a name already in predicate form is the name in words (`canBeGood` reads `can be good`) |
| FieldDescriptions.NegativePredicateForJavadoc | src/test/java/org/assertj/assertions/generator/description/FieldDescriptionTest.java:85 | the Javadoc phrase of the negative predicate contains no upper-case letter |
| FieldDescriptions.IsFamilyInsertsNot | src/test/java/org/assertj/assertions/generator/description/FieldDescriptionTest.java:76-85 | in the `is` family the negative accessor is the predicate with `Not` inserted after `is`, and its phrase is the predicate's phrase with `not` inserted after `is` |
| FieldDescriptionFixtures.ReadablePredicateForJavadoc | src/test/java/org/assertj/assertions/generator/description/FieldDescriptionTest.java:81-86 | `bad` reads `is bad` and `is not bad` |
| FieldDescriptions.ErrorMessagePart1 | src/test/java/org/assertj/assertions/generator/description/FieldDescriptionTest.java:89-96 | the first failure-message half, the prefix word followed by the subject in words, equals the predicate's Javadoc phrase for every name |
| FieldDescriptions.ErrorMessagePart2 | src/test/java/org/assertj/assertions/generator/description/FieldDescriptionTest.java:89-96 | the second half is `is not` for the `is` family and `cannot` for the `can` family, and followed by the subject in words it is the negative predicate's Javadoc phrase |
| FieldDescriptions.NegationReadsAsErrorPhrase | src/test/java/org/assertj/assertions/generator/description/FieldDescriptionTest.java:92-96 | for each table entry the phrase of the negation token is the failure clause (`isNot` reads `is not`, `cannot` reads `cannot`), and each prefix token reads as itself |
| FieldDescriptions.ErrorMessagePartsShareSubject | src/test/java/org/assertj/assertions/generator/description/FieldDescriptionTest.java:89-96 | the negative Javadoc phrase is the second half followed by what the first half says after its prefix word |
| FieldDescriptionFixtures.ReadablePredicateForErrorMessage | src/test/java/org/assertj/assertions/generator/description/FieldDescriptionTest.java:88-97 | `bad` gives `is bad` / `is not`; `canBeGood` keeps its `can` and gives `can be good` / `cannot` |

## Left out

- Reflection on `Class` objects and the `TypeName` / `TypeDescription` constructors are not
  modelled. A type is an explicit `JavaType` value with a category, a package, a simple name and
  an optional element type. The unit test's classes appear as constants.
- The `Player` fixture class, JUnit and the AssertJ assertion chaining are not modelled. They
  are test plumbing.
- FieldDescriptions.ElementTypeName: for a container, the model names the element simply inside
  the reference package and fully qualified outside it. No case of `FieldDescriptionTest` covers
  a container. It only checks a plain class, which has no element type.
- FieldDescriptions.ToString: the exact rendering is not known. The model claims only that the
  name and the qualified type name occur in it. A null type is rendered as `null`.
- Boolean prefixes other than `is` and `can` (`has`, `should`, `was`, ...) are not in the
  prefix table. Their negations are not modelled.
- Rejection of an empty name is not modelled. Every name-derived accessor requires a non-empty
  name instead.
- The type-derived accessors (`TypeName`, `ElementTypeName`, `IsPredicate`, `IsRealNumberType`)
  require a type to be present. Called on a null type, they would dereference null.
- CamelCase.Humanise: case is ASCII only, and a word starts at every upper-case letter. Unicode
  case mapping is not modelled. Neither are runs of capitals such as `URL`, nor splitting at
  digits.
- FieldDescriptions.Name and FieldDescriptions.TypeName are plain getters. Their contracts
  state the value they return and nothing more.
- JavaTypes.CategoryOf: only the primitive keywords and their `java.lang` boxed classes are
  booleans or numbers. Other numeric classes such as `BigDecimal` or `AtomicInteger` are
  reference types in the model.
- Nested classes (`Outer$Inner` qualified names) and array type names are not modelled.
