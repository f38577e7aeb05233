/**
 * The already-reflected type of a field. Instead of asking a `Class` object,
 * a type carries an explicit category tag, its package and its simple name,
 * and (for a container or array type) its element type.
 */
module JavaTypes {

  datatype Option<+T> = None | Some(value: T)

  datatype TypeCategory = Boolean | Integral | Floating | Reference

  datatype JavaType = JavaType(
    category: TypeCategory,
    packageName: string,   // "" for the primitive types
    simpleName: string,
    element: Option<JavaType>)

  /** The fully qualified name: the package, a dot and the simple name; a primitive has no package. */
  function QualifiedName(t: JavaType): (r: string)
    ensures |r| >= |t.simpleName|
    ensures r[|r| - |t.simpleName|..] == t.simpleName
    ensures t.packageName != [] ==> t.packageName <= r && |t.packageName| < |r| && r[|t.packageName|] == '.'
  {
    if t.packageName == [] then t.simpleName else t.packageName + "." + t.simpleName
  }

  const JavaLang := "java.lang"

  /**
   * The category of a named type: the primitive keywords and their boxed
   * counterparts in `java.lang` are booleans, integral or floating-point
   * numbers; every other type is a reference type.
   */
  function CategoryOf(packageName: string, simpleName: string): (r: TypeCategory)
    ensures r != Reference ==> packageName == "" || packageName == JavaLang
  {
    if packageName == "" then
      if simpleName == "boolean" then Boolean
      else if simpleName in {"byte", "short", "int", "long", "char"} then Integral
      else if simpleName in {"float", "double"} then Floating
      else Reference
    else if packageName == JavaLang then
      if simpleName == "Boolean" then Boolean
      else if simpleName in {"Byte", "Short", "Integer", "Long", "Character"} then Integral
      else if simpleName in {"Float", "Double"} then Floating
      else Reference
    else Reference
  }

  /** The simple name of the `java.lang` class that boxes a primitive type. */
  function Boxed(primitive: string): Option<string>
  {
    if primitive == "boolean" then Some("Boolean")
    else if primitive == "byte" then Some("Byte")
    else if primitive == "short" then Some("Short")
    else if primitive == "int" then Some("Integer")
    else if primitive == "long" then Some("Long")
    else if primitive == "char" then Some("Character")
    else if primitive == "float" then Some("Float")
    else if primitive == "double" then Some("Double")
    else None
  }

  /** A primitive type and its boxed class fall into the same category, which is not Reference. */
  lemma BoxingKeepsCategory(primitive: string)
    requires Boxed(primitive).Some?
    ensures CategoryOf("", primitive) != Reference
    ensures CategoryOf(JavaLang, Boxed(primitive).value) == CategoryOf("", primitive)
  {
  }

  /** The (non-container) type of the given package and simple name, with its category derived. */
  function TypeOf(packageName: string, simpleName: string): (t: JavaType)
    ensures t.category == CategoryOf(packageName, simpleName)
    ensures t.packageName == packageName && t.simpleName == simpleName && t.element == None
  {
    JavaType(CategoryOf(packageName, simpleName), packageName, simpleName, None)
  }

  const PrimitiveBoolean := TypeOf("", "boolean")
  const PrimitiveInt := TypeOf("", "int")
  const BoxedInteger := TypeOf(JavaLang, "Integer")
  const PrimitiveFloat := TypeOf("", "float")
  const BoxedFloat := TypeOf(JavaLang, "Float")
  const PrimitiveDouble := TypeOf("", "double")
  const BoxedDouble := TypeOf(JavaLang, "Double")
  const StringType := TypeOf(JavaLang, "String")
}
