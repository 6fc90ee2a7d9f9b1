/**
 * The `Todo` entity of the demo application as a concrete input: its fields in declaration
 * order, bound through a mapper that extends `SimpleCrudMapper<Todo, Todo>` directly.
 */
module TodoExample {
  import opened Wrappers
  import opened JavaModel
  import opened SqlProviderSupport
  import opened SqlProviders
  import opened CriteriaProperties

  const TodoFields: seq<Field> :=
    [Field("id"), Field("title"), Field("finished"), Field("createdAt"), Field("deadline"), Field("finishedAt")]

  const Todo: JavaClass := JavaClass("com.example.demo.domain.Todo", "Todo", TodoFields)

  /** A mapper whose only direct generic interface is `SimpleCrudMapper<Todo, Todo>`. */
  const DirectTodoMapper: MapperInterface :=
    MapperInterface("com.example.demo.mapper.DirectTodoMapper",
      [ParameterizedType(SimpleCrudMapperName, ClassType(Todo), [ClassType(Todo)])])

  lemma TodoResolves()
    ensures EntityType(DirectTodoMapper) == Success(Todo)
  {
    assert FirstCrudMapperAt(DirectTodoMapper.genericInterfaces, 0);
  }

  /** `Todo` maps to the table `todo`. */
  lemma TodoTable()
    ensures TableName(Todo) == "todo"
  {
  }

  /**
   * The insert for `Todo` goes to `todo`, with six columns and six values; at the position
   * of `createdAt` the column is `created_at` while the value still names `createdAt`.
   */
  lemma TodoInsert()
    ensures CreateSql(DirectTodoMapper).Success?
    ensures var s := CreateSql(DirectTodoMapper).value;
      s.table == "todo" && |s.columns| == |s.values| == 6 &&
      s.columns[3] == "created_at" && PlaceholderName(s.values[3]) == Some("createdAt")
  {
    TodoResolves();
    TodoTable();
    assert Todo.declaredFields[3] == Field("createdAt");
    CreatedAtColumn();
  }

  /** The demo's search criteria: a `Todo` with only its title set. */
  const TitleCriteria: Bean := Bean([
    FieldValue(Field("id"), None), FieldValue(Field("title"), Some(StringValue("test Edit"))),
    FieldValue(Field("finished"), None), FieldValue(Field("createdAt"), None),
    FieldValue(Field("deadline"), None), FieldValue(Field("finishedAt"), None)])

  lemma TitleConditions()
    ensures Conditions(TitleCriteria.fields) == [Bind(Field("title"))]
  {
    OneNonNullOneCondition(TitleCriteria.fields, 1);
  }

  lemma TitleBinding()
    ensures Bind(Field("title")) == ColumnBinding("title", "#{title}")
  {
    TitleColumn();
  }

  /** Only the title is set, so the count filters on the title column alone. */
  lemma TodoTitleCount()
    ensures CountByCriteriaSql(DirectTodoMapper, Some(TitleCriteria)) ==
      Success(Select(CountAll, "todo", [ColumnBinding("title", "#{title}")]))
  {
    TodoResolves();
    TodoTable();
    TitleConditions();
    TitleBinding();
  }

  /** A mapper that reaches `SimpleCrudMapper` only through another generic interface fails. */
  lemma IndirectMapperFails(mapper: MapperInterface, via: string)
    requires via != SimpleCrudMapperName
    requires mapper.genericInterfaces == [ParameterizedType(via, ClassType(Todo), [ClassType(Todo)])]
    ensures EntityType(mapper) == Failure(MapperNotFound(mapper.name))
  {
  }
}
