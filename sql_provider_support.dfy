/**
 * The shared helpers of every SQL provider: resolving the entity type bound to a mapper,
 * and naming its table, its columns and its bind parameters.
 */
module SqlProviderSupport {
  import opened Wrappers
  import opened JavaModel

  /** Binary name of the generic mapper interface whose first type argument is the entity. */
  const SimpleCrudMapperName: string := "com.example.demo.mapper.SimpleCrudMapper"

  /** The unchecked exception thrown when no entity type can be resolved. */
  datatype IllegalStateException = IllegalStateException(message: string)

  /** The exception `entityType` throws for the mapper named `mapperName`. */
  function MapperNotFound(mapperName: string): IllegalStateException
  {
    IllegalStateException("The SimpleCrudMapper does not found in " + mapperName + ".")
  }

  // ---------------------------------------------------------------------------
  // entityType
  // ---------------------------------------------------------------------------

  /** A `ParameterizedType` whose raw type is `SimpleCrudMapper`. */
  predicate IsCrudMapperType(t: JavaType)
  {
    t.ParameterizedType? && t.rawType == SimpleCrudMapperName
  }

  /** Index `i` holds the first parameterization of `SimpleCrudMapper` among `types`. */
  ghost predicate FirstCrudMapperAt(types: seq<JavaType>, i: int)
  {
    0 <= i < |types| && IsCrudMapperType(types[i]) &&
    forall j :: 0 <= j < i ==> !IsCrudMapperType(types[j])
  }

  /**
   * The first type argument of the first parameterization of `SimpleCrudMapper`
   * (the `filter`, `findFirst` and `map` steps of `entityType`).
   */
  function FirstCrudMapperArgument(types: seq<JavaType>): (r: Option<JavaType>)
    ensures r.None? <==> forall i :: 0 <= i < |types| ==> !IsCrudMapperType(types[i])
    ensures forall i :: FirstCrudMapperAt(types, i) ==> r == Some(types[i].firstArgument)
  {
    if types == [] then None
    else if IsCrudMapperType(types[0]) then Some(types[0].firstArgument)
    else
      var r := FirstCrudMapperArgument(types[1..]);
      assert forall i :: FirstCrudMapperAt(types, i) ==> FirstCrudMapperAt(types[1..], i - 1);
      r
  }

  /** When some interface is a parameterization of `SimpleCrudMapper`, a first one exists. */
  lemma {:induction false} FirstCrudMapperExists(types: seq<JavaType>, k: int)
    requires 0 <= k < |types| && IsCrudMapperType(types[k])
    ensures exists i :: FirstCrudMapperAt(types, i)
  {
    if IsCrudMapperType(types[0]) {
      assert FirstCrudMapperAt(types, 0);
    } else {
      FirstCrudMapperExists(types[1..], k - 1);
      var i :| FirstCrudMapperAt(types[1..], i);
      assert FirstCrudMapperAt(types, i + 1);
    }
  }

  /**
   * The entity class bound to `mapper`: the first type argument of the first directly
   * implemented parameterization of `SimpleCrudMapper`, provided that argument is a class;
   * otherwise the `IllegalStateException` naming the mapper.
   */
  function EntityType(mapper: MapperInterface): (r: Result<JavaClass, IllegalStateException>)
    ensures r.Failure? ==> r.error == MapperNotFound(mapper.name)
    ensures forall i :: FirstCrudMapperAt(mapper.genericInterfaces, i) ==>
      (r.Success? <==> mapper.genericInterfaces[i].firstArgument.ClassType?) &&
      (r.Success? ==> r.value == mapper.genericInterfaces[i].firstArgument.cls)
    ensures (forall i :: 0 <= i < |mapper.genericInterfaces| ==> !IsCrudMapperType(mapper.genericInterfaces[i]))
      ==> r.Failure?
  {
    match FirstCrudMapperArgument(mapper.genericInterfaces)
    case Some(ClassType(cls)) => Success(cls)
    case _ => Failure(MapperNotFound(mapper.name))
  }

  /**
   * `entityType` succeeds exactly when the first parameterization of `SimpleCrudMapper`
   * exists and has a class as its first type argument; only that first one is looked at.
   */
  lemma EntityTypeSucceedsIff(mapper: MapperInterface)
    ensures EntityType(mapper).Success? <==>
      exists i :: FirstCrudMapperAt(mapper.genericInterfaces, i) &&
        mapper.genericInterfaces[i].firstArgument.ClassType?
  {
    var types := mapper.genericInterfaces;
    if EntityType(mapper).Success? {
      var k :| 0 <= k < |types| && IsCrudMapperType(types[k]);
      FirstCrudMapperExists(types, k);
    }
  }

  // ---------------------------------------------------------------------------
  // ASCII letters
  // ---------------------------------------------------------------------------

  predicate IsUpper(c: char) { 'A' <= c <= 'Z' }

  predicate IsLower(c: char) { 'a' <= c <= 'z' }

  function ToLower(c: char): (d: char)
    ensures IsUpper(c) ==> IsLower(d) && ToUpper(d) == c
    ensures !IsUpper(c) ==> d == c
  {
    if IsUpper(c) then (c as int - 'A' as int + 'a' as int) as char else c
  }

  function ToUpper(c: char): (d: char)
  {
    if IsLower(c) then (c as int - 'a' as int + 'A' as int) as char else c
  }

  /** Number of upper-case ASCII letters in `s`. */
  function UpperCount(s: string): nat
  {
    if s == [] then 0 else (if IsUpper(s[0]) then 1 else 0) + UpperCount(s[1..])
  }

  // ---------------------------------------------------------------------------
  // tableName
  // ---------------------------------------------------------------------------

  /** `s` with every upper-case ASCII letter lower-cased and every other character kept. */
  function LowerCase(s: string): (r: string)
    ensures |r| == |s|
    ensures forall i :: 0 <= i < |s| ==> r[i] == ToLower(s[i])
  {
    if s == [] then [] else [ToLower(s[0])] + LowerCase(s[1..])
  }

  /**
   * The table of an entity: its simple name lower-cased, character for character;
   * nothing is added (no plural, no underscore) and nothing upper-case is left.
   */
  function TableName(entityType: JavaClass): (r: string)
    ensures |r| == |entityType.simpleName|
    ensures forall i :: 0 <= i < |r| ==> !IsUpper(r[i])
    ensures forall i :: 0 <= i < |r| ==> IsUpper(entityType.simpleName[i]) || r[i] == entityType.simpleName[i]
    ensures forall i :: 0 <= i < |r| ==> ToUpper(r[i]) == ToUpper(entityType.simpleName[i])
  {
    LowerCase(entityType.simpleName)
  }

  // ---------------------------------------------------------------------------
  // columnName and columns
  // ---------------------------------------------------------------------------

  /**
   * Lower camel case to lower snake case: every upper-case ASCII letter becomes `_`
   * followed by its lower-case form; every other character is kept.
   */
  function SnakeCase(name: string): (r: string)
    ensures |r| == |name| + UpperCount(name)
  {
    if name == [] then [] else SnakeChar(name[0]) + SnakeCase(name[1..])
  }

  /** One character of a camel-case name in snake case. */
  function SnakeChar(c: char): (r: string)
  {
    if IsUpper(c) then ['_', ToLower(c)] else [c]
  }

  /** A snake-case name holds no upper-case letter. */
  lemma {:induction false} SnakeCaseHasNoUpper(name: string)
    ensures forall i :: 0 <= i < |SnakeCase(name)| ==> !IsUpper(SnakeCase(name)[i])
  {
    if name != [] {
      SnakeCaseHasNoUpper(name[1..]);
      var r := SnakeCase(name);
      assert r == SnakeChar(name[0]) + SnakeCase(name[1..]);
      forall i | 0 <= i < |r| ensures !IsUpper(r[i]) {
        if i >= |SnakeChar(name[0])| {
          assert r[i] == SnakeCase(name[1..])[i - |SnakeChar(name[0])|];
        }
      }
    }
  }

  /**
   * The column of a field: the snake-case form of the field's name, one character longer
   * per upper-case letter and, for a name without underscores, read back by `CamelCase`.
   */
  function ColumnName(field: Field): (r: string)
    ensures |r| == |field.name| + UpperCount(field.name)
    ensures '_' !in field.name ==> CamelCase(r) == field.name
  {
    if '_' !in field.name then CamelCaseInvertsSnakeCase(field.name); SnakeCase(field.name)
    else SnakeCase(field.name)
  }

  /** The reading of a snake-case name back into camel case: `_x` becomes `X`. */
  function CamelCase(s: string): string
  {
    if s == [] then []
    else if s[0] == '_' && |s| >= 2 && IsLower(s[1]) then [ToUpper(s[1])] + CamelCase(s[2..])
    else [s[0]] + CamelCase(s[1..])
  }

  /** For field names without underscores, the column name gives the field name back. */
  lemma {:induction false} CamelCaseInvertsSnakeCase(name: string)
    requires '_' !in name
    ensures CamelCase(SnakeCase(name)) == name
  {
    if name != [] {
      var s := SnakeCase(name);
      CamelCaseInvertsSnakeCase(name[1..]);
      if IsUpper(name[0]) {
        assert s[0] == '_' && s[1] == ToLower(name[0]) && s[2..] == SnakeCase(name[1..]);
      } else {
        assert s[0] == name[0] && s[1..] == SnakeCase(name[1..]);
      }
    }
  }

  /** So two underscore-free field names never share a column. */
  lemma ColumnNameInjective(f: Field, g: Field)
    requires '_' !in f.name && '_' !in g.name
    requires ColumnName(f) == ColumnName(g)
    ensures f == g
  {
    CamelCaseInvertsSnakeCase(f.name);
    CamelCaseInvertsSnakeCase(g.name);
  }

  /** A name with no upper-case letter is its own column name (`id` stays `id`). */
  lemma {:induction false} SnakeCaseKeepsLowerNames(name: string)
    requires forall i :: 0 <= i < |name| ==> !IsUpper(name[i])
    ensures SnakeCase(name) == name
  {
    if name != [] {
      SnakeCaseKeepsLowerNames(name[1..]);
    }
  }

  /** Column naming works character by character, so it distributes over concatenation. */
  lemma {:induction false} SnakeCaseAppend(a: string, b: string)
    ensures SnakeCase(a + b) == SnakeCase(a) + SnakeCase(b)
  {
    if a == [] {
      assert a + b == b;
    } else {
      SnakeCaseAppend(a[1..], b);
      var ab := a + b;
      assert ab[1..] == a[1..] + b;
      ConcatAssociative(SnakeChar(a[0]), SnakeCase(a[1..]), SnakeCase(b));
    }
  }

  lemma ConcatAssociative<T>(x: seq<T>, y: seq<T>, z: seq<T>)
    ensures x + (y + z) == (x + y) + z
  {
  }

  /** With underscores allowed the mapping is not injective: `a_b` and `aB` collide. */
  lemma SnakeCaseCollidesOnUnderscores()
    ensures SnakeCase("a_b") == SnakeCase("aB") == "a_b"
  {
  }

  /** `id` stays `id`. */
  lemma IdColumn()
    ensures ColumnName(Field("id")) == "id"
  {
    SnakeCaseKeepsLowerNames("id");
  }

  lemma TitleColumn()
    ensures ColumnName(Field("title")) == "title"
  {
    SnakeCaseKeepsLowerNames("title");
  }

  lemma CreatedWord()
    ensures SnakeCase("created") == "created"
  {
    SnakeCaseKeepsLowerNames("created");
  }

  lemma CreatedPrefix()
    ensures SnakeCase("created" + "At") == "created" + "_at"
  {
    CreatedWord();
    SnakeCaseAppend("created", "At");
  }

  /** `createdAt` becomes `created_at`. */
  lemma CreatedAtColumn()
    ensures ColumnName(Field("createdAt")) == "created_at"
  {
    CreatedPrefix();
    assert "created" + "At" == "createdAt";
    assert "created" + "_at" == "created_at";
  }

  /** `columns`: one column per field, in field order. */
  function Columns(fields: seq<Field>): (r: seq<string>)
    ensures |r| == |fields|
    ensures forall i :: 0 <= i < |fields| ==> r[i] == ColumnName(fields[i])
  {
    if fields == [] then [] else [ColumnName(fields[0])] + Columns(fields[1..])
  }

  // ---------------------------------------------------------------------------
  // bindParameter
  // ---------------------------------------------------------------------------

  /** The field name read back out of a `#{name}` placeholder, if it is one. */
  function PlaceholderName(p: string): Option<string>
  {
    if |p| >= 3 && p[..2] == "#{" && p[|p| - 1] == '}' then Some(p[2..|p| - 1]) else None
  }

  /** The MyBatis placeholder of a field: `#{` + the raw field name + `}`. */
  function BindParameter(field: Field): (r: string)
    ensures PlaceholderName(r) == Some(field.name)
    ensures |r| == |field.name| + 3
  {
    var r := "#{" + field.name + "}";
    assert r[2..|r| - 1] == field.name;
    r
  }
}
