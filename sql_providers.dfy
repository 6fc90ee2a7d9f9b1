/**
 * The six SQL providers of the generic CRUD mapper. Each resolves the entity class bound to
 * the mapper and derives one statement from its declared fields. Statements are kept as
 * structured values; their rendering into SQL text by the MyBatis `SQL` builder is not modelled.
 */
module SqlProviders {
  import opened Wrappers
  import opened JavaModel
  import opened SqlProviderSupport

  /** A `column = placeholder` fragment, used both in SET lists and in WHERE predicates. */
  datatype ColumnBinding = ColumnBinding(column: string, placeholder: string)

  /** What a SELECT returns: the listed columns, or `count(*)`. */
  datatype Projection = AllColumns(columns: seq<string>) | CountAll

  /** A statement as the providers build it; an empty `where` means no WHERE clause. */
  datatype Statement =
    | Insert(table: string, columns: seq<string>, values: seq<string>)
    | Update(table: string, assignments: seq<ColumnBinding>, where: seq<ColumnBinding>)
    | Delete(table: string, where: seq<ColumnBinding>)
    | Select(projection: Projection, table: string, where: seq<ColumnBinding>)

  /** The text of a fragment, as the providers concatenate it. */
  function Render(b: ColumnBinding): string
  {
    b.column + " = " + b.placeholder
  }

  /** The fragment a field contributes: its column bound to its own placeholder. */
  function Bind(field: Field): ColumnBinding
  {
    ColumnBinding(ColumnName(field), BindParameter(field))
  }

  /** The fixed key predicate `id = #{id}` of update, delete and find-one. */
  const IdMatch: ColumnBinding := ColumnBinding("id", "#{id}")

  /** The fixed key predicate is exactly what a field named `id` would bind to. */
  lemma IdMatchIsBindingOfId()
    ensures IdMatch == Bind(Field("id"))
    ensures Render(IdMatch) == "id = #{id}"
  {
    SnakeCaseKeepsLowerNames("id");
  }

  /** Two fields with different names never produce the same fragment. */
  lemma BindInjective(f: Field, g: Field)
    requires Bind(f) == Bind(g)
    ensures f == g
  {
    assert PlaceholderName(BindParameter(f)) == Some(f.name);
  }

  /** The VALUES list of an insert: one placeholder per field, in field order. */
  function Placeholders(fields: seq<Field>): (r: seq<string>)
    ensures |r| == |fields|
    ensures forall i :: 0 <= i < |fields| ==> r[i] == BindParameter(fields[i])
  {
    if fields == [] then [] else [BindParameter(fields[0])] + Placeholders(fields[1..])
  }

  /** The SET list of an update: every field bound to its placeholder, in field order. */
  function Assignments(fields: seq<Field>): (r: seq<ColumnBinding>)
    ensures |r| == |fields|
    ensures forall i :: 0 <= i < |fields| ==> r[i] == Bind(fields[i])
  {
    if fields == [] then [] else [Bind(fields[0])] + Assignments(fields[1..])
  }

  /** Number of fields whose value is not null. */
  function NonNullCount(fields: seq<FieldValue>): nat
  {
    if fields == [] then 0 else (if fields[0].value.Some? then 1 else 0) + NonNullCount(fields[1..])
  }

  /** The criteria predicates: one fragment per non-null field, in field order. */
  function Conditions(fields: seq<FieldValue>): (r: seq<ColumnBinding>)
    ensures |r| == NonNullCount(fields) <= |fields|
  {
    if fields == [] then []
    else if fields[0].value.Some? then [Bind(fields[0].field)] + Conditions(fields[1..])
    else Conditions(fields[1..])
  }

  /** The fields of a criteria object; a null criteria has none. */
  function CriteriaFields(criteria: Option<Bean>): seq<FieldValue>
  {
    if criteria.None? then [] else criteria.value.fields
  }

  // ---------------------------------------------------------------------------
  // The providers
  // ---------------------------------------------------------------------------

  /**
   * `CreateSqlProvider.sql`: INSERT into the entity's table, one column per declared field
   * and, at the same position, the placeholder of that field's raw name.
   */
  function CreateSql(context: MapperInterface): (r: Result<Statement, IllegalStateException>)
    ensures EntityType(context).Failure? ==> r == Failure(EntityType(context).error)
    ensures EntityType(context).Success? ==>
      var entity := EntityType(context).value;
      var fields := entity.declaredFields;
      r.Success? && r.value.Insert? && r.value.table == TableName(entity) &&
      |r.value.columns| == |r.value.values| == |fields| &&
      forall i :: 0 <= i < |fields| ==>
        r.value.columns[i] == ColumnName(fields[i]) &&
        PlaceholderName(r.value.values[i]) == Some(fields[i].name)
  {
    var entity :- EntityType(context);
    Success(Insert(TableName(entity), Columns(entity.declaredFields), Placeholders(entity.declaredFields)))
  }

  /**
   * `UpdateSqlProvider.sql`: UPDATE the entity's table, setting every declared field
   * (the key included) from its placeholder, in field order, WHERE exactly `id = #{id}`.
   */
  function UpdateSql(context: MapperInterface): (r: Result<Statement, IllegalStateException>)
    ensures EntityType(context).Failure? ==> r == Failure(EntityType(context).error)
    ensures EntityType(context).Success? ==>
      var entity := EntityType(context).value;
      var fields := entity.declaredFields;
      r.Success? && r.value.Update? && r.value.table == TableName(entity) &&
      r.value.where == [IdMatch] &&
      |r.value.assignments| == |fields| &&
      forall i :: 0 <= i < |fields| ==>
        r.value.assignments[i].column == ColumnName(fields[i]) &&
        PlaceholderName(r.value.assignments[i].placeholder) == Some(fields[i].name)
  {
    var entity :- EntityType(context);
    Success(Update(TableName(entity), Assignments(entity.declaredFields), [IdMatch]))
  }

  /** `DeleteSqlProvider.sql`: DELETE FROM the entity's table WHERE exactly `id = #{id}`. */
  function DeleteSql(context: MapperInterface): (r: Result<Statement, IllegalStateException>)
    ensures EntityType(context).Failure? ==> r == Failure(EntityType(context).error)
    ensures EntityType(context).Success? ==>
      r.Success? && r.value.Delete? && r.value.table == TableName(EntityType(context).value) &&
      r.value.where == [IdMatch]
  {
    var entity :- EntityType(context);
    Success(Delete(TableName(entity), [IdMatch]))
  }

  /**
   * `FindOneSqlProvider.sql`: SELECT every column, in field order, FROM the entity's table
   * WHERE exactly `id = #{id}`.
   */
  function FindOneSql(context: MapperInterface): (r: Result<Statement, IllegalStateException>)
    ensures EntityType(context).Failure? ==> r == Failure(EntityType(context).error)
    ensures EntityType(context).Success? ==>
      var entity := EntityType(context).value;
      var fields := entity.declaredFields;
      r.Success? && r.value.Select? && r.value.table == TableName(entity) &&
      r.value.where == [IdMatch] && r.value.projection.AllColumns? &&
      |r.value.projection.columns| == |fields| &&
      forall i :: 0 <= i < |fields| ==> r.value.projection.columns[i] == ColumnName(fields[i])
  {
    var entity :- EntityType(context);
    Success(Select(AllColumns(Columns(entity.declaredFields)), TableName(entity), [IdMatch]))
  }

  /**
   * `SelectByCriteriaSqlProvider.sql`: SELECT every column FROM the entity's table, with one
   * predicate per non-null field of the criteria object (none for a null criteria).
   */
  function SelectByCriteriaSql(context: MapperInterface, criteria: Option<Bean>): (r: Result<Statement, IllegalStateException>)
    ensures EntityType(context).Failure? ==> r == Failure(EntityType(context).error)
    ensures EntityType(context).Success? ==>
      var entity := EntityType(context).value;
      r.Success? && r.value.Select? && r.value.table == TableName(entity) &&
      r.value.projection.AllColumns? &&
      |r.value.projection.columns| == |entity.declaredFields| &&
      (forall i :: 0 <= i < |entity.declaredFields| ==>
        r.value.projection.columns[i] == ColumnName(entity.declaredFields[i])) &&
      r.value.where == Conditions(CriteriaFields(criteria)) &&
      |r.value.where| == NonNullCount(CriteriaFields(criteria))
  {
    var entity :- EntityType(context);
    Success(Select(AllColumns(Columns(entity.declaredFields)), TableName(entity), Conditions(CriteriaFields(criteria))))
  }

  /**
   * `CountByCriteriaSqlProvider.sql`: SELECT `count(*)` FROM the entity's table, with one
   * predicate per non-null field of the criteria object (none for a null criteria).
   */
  function CountByCriteriaSql(context: MapperInterface, criteria: Option<Bean>): (r: Result<Statement, IllegalStateException>)
    ensures EntityType(context).Failure? ==> r == Failure(EntityType(context).error)
    ensures EntityType(context).Success? ==>
      r.Success? && r.value.Select? && r.value.table == TableName(EntityType(context).value) &&
      r.value.projection == CountAll &&
      r.value.where == Conditions(CriteriaFields(criteria)) &&
      |r.value.where| == NonNullCount(CriteriaFields(criteria))
  {
    var entity :- EntityType(context);
    Success(Select(CountAll, TableName(entity), Conditions(CriteriaFields(criteria))))
  }
}

/** What the criteria predicates say about the criteria object, and how the providers relate. */
module CriteriaProperties {
  import opened Wrappers
  import opened JavaModel
  import opened SqlProviderSupport
  import opened SqlProviders

  /** A non-null field's predicate sits at the position given by the non-null fields before it. */
  lemma {:induction false} ConditionAt(fields: seq<FieldValue>, i: int)
    requires 0 <= i < |fields| && fields[i].value.Some?
    ensures NonNullCount(fields[..i]) < |Conditions(fields)|
    ensures Conditions(fields)[NonNullCount(fields[..i])] == Bind(fields[i].field)
  {
    if i > 0 {
      ConditionAt(fields[1..], i - 1);
      assert fields[..i][1..] == fields[1..][..i - 1];
    }
  }

  /** Every predicate comes from a non-null field, found at the matching position. */
  lemma {:induction false} ConditionOrigin(fields: seq<FieldValue>, k: int)
    requires 0 <= k < |Conditions(fields)|
    ensures exists i ::
      0 <= i < |fields| && fields[i].value.Some? &&
      NonNullCount(fields[..i]) == k && Conditions(fields)[k] == Bind(fields[i].field)
  {
    var rest := fields[1..];
    if fields[0].value.Some? && k == 0 {
      assert fields[..0] == [];
    } else {
      var k' := if fields[0].value.Some? then k - 1 else k;
      ConditionOrigin(rest, k');
      var i :| 0 <= i < |rest| && rest[i].value.Some? &&
        NonNullCount(rest[..i]) == k' && Conditions(rest)[k'] == Bind(rest[i].field);
      assert fields[..i + 1][1..] == rest[..i];
    }
  }

  /** Predicates keep field order: an earlier non-null field gets an earlier position. */
  lemma {:induction false} ConditionsKeepFieldOrder(fields: seq<FieldValue>, i: int, j: int)
    requires 0 <= i < j <= |fields| && fields[i].value.Some?
    ensures NonNullCount(fields[..i]) < NonNullCount(fields[..j])
  {
    if i == 0 {
      assert fields[..j][0] == fields[0];
    } else {
      ConditionsKeepFieldOrder(fields[1..], i - 1, j - 1);
      assert fields[..i][1..] == fields[1..][..i - 1];
      assert fields[..j][1..] == fields[1..][..j - 1];
    }
  }

  /**
   * In a class (whose field names are distinct) the criteria predicates contain a field's
   * fragment exactly when that field's value is non-null.
   */
  lemma ConditionPresentIffNonNull(fields: seq<FieldValue>, i: int)
    requires DistinctNames(fields) && 0 <= i < |fields|
    ensures Bind(fields[i].field) in Conditions(fields) <==> fields[i].value.Some?
  {
    var r := Conditions(fields);
    if fields[i].value.Some? {
      ConditionAt(fields, i);
    } else if Bind(fields[i].field) in r {
      var k :| 0 <= k < |r| && r[k] == Bind(fields[i].field);
      ConditionOrigin(fields, k);
      var j :| 0 <= j < |fields| && fields[j].value.Some? && r[k] == Bind(fields[j].field);
      BindInjective(fields[i].field, fields[j].field);
      assert false;
    }
  }

  /** A criteria object whose fields are all null contributes no predicate at all. */
  lemma {:induction false} AllNullNoConditions(fields: seq<FieldValue>)
    requires forall i :: 0 <= i < |fields| ==> fields[i].value.None?
    ensures Conditions(fields) == []
  {
    if fields != [] {
      AllNullNoConditions(fields[1..]);
    }
  }

  /** Exactly one non-null field gives exactly that field's predicate. */
  lemma {:induction false} OneNonNullOneCondition(fields: seq<FieldValue>, i: int)
    requires 0 <= i < |fields| && fields[i].value.Some?
    requires forall j :: 0 <= j < |fields| && j != i ==> fields[j].value.None?
    ensures Conditions(fields) == [Bind(fields[i].field)]
  {
    var rest := fields[1..];
    assert forall j :: 0 <= j < |rest| && j != i - 1 ==> rest[j] == fields[j + 1];
    if i == 0 {
      AllNullNoConditions(rest);
    } else {
      OneNonNullOneCondition(rest, i - 1);
    }
  }

  /** A null criteria object yields statements without a WHERE clause. */
  lemma NullCriteriaNoWhere(context: MapperInterface)
    requires EntityType(context).Success?
    ensures SelectByCriteriaSql(context, None).value.where == []
    ensures CountByCriteriaSql(context, None).value.where == []
  {
  }

  /**
   * Count and select for the same criteria agree on failure, table and predicates, and
   * differ only in what they select: `count(*)` against all columns.
   */
  lemma CountAndSelectShareWhere(context: MapperInterface, criteria: Option<Bean>)
    ensures CountByCriteriaSql(context, criteria).Success? <==> SelectByCriteriaSql(context, criteria).Success?
    ensures CountByCriteriaSql(context, criteria).Success? ==>
      var count := CountByCriteriaSql(context, criteria).value;
      var select := SelectByCriteriaSql(context, criteria).value;
      count == select.(projection := CountAll) &&
      select.projection == AllColumns(Columns(EntityType(context).value.declaredFields))
  {
  }

  /** Either all six providers fail, with the same exception, or all of them succeed. */
  lemma ProvidersFailTogether(context: MapperInterface, criteria: Option<Bean>)
    ensures var e := EntityType(context);
      (CreateSql(context).Failure? <==> e.Failure?) &&
      (UpdateSql(context).Failure? <==> e.Failure?) &&
      (DeleteSql(context).Failure? <==> e.Failure?) &&
      (FindOneSql(context).Failure? <==> e.Failure?) &&
      (SelectByCriteriaSql(context, criteria).Failure? <==> e.Failure?) &&
      (CountByCriteriaSql(context, criteria).Failure? <==> e.Failure?)
    ensures EntityType(context).Failure? ==>
      CreateSql(context).error == MapperNotFound(context.name) &&
      UpdateSql(context).error == MapperNotFound(context.name) &&
      DeleteSql(context).error == MapperNotFound(context.name) &&
      FindOneSql(context).error == MapperNotFound(context.name) &&
      SelectByCriteriaSql(context, criteria).error == MapperNotFound(context.name) &&
      CountByCriteriaSql(context, criteria).error == MapperNotFound(context.name)
  {
  }

  /**
   * The select and count statements for a criteria object carry a field's predicate exactly
   * when that field is non-null, at the position counted by the non-null fields before it.
   */
  lemma CriteriaWhereIffNonNull(context: MapperInterface, criteria: Bean, i: int)
    requires EntityType(context).Success?
    requires DistinctNames(criteria.fields) && 0 <= i < |criteria.fields|
    ensures var f := criteria.fields[i];
      var select := SelectByCriteriaSql(context, Some(criteria)).value.where;
      var count := CountByCriteriaSql(context, Some(criteria)).value.where;
      (Bind(f.field) in select <==> f.value.Some?) &&
      (Bind(f.field) in count <==> f.value.Some?) &&
      (f.value.Some? ==>
        NonNullCount(criteria.fields[..i]) < |select| &&
        select[NonNullCount(criteria.fields[..i])] == Bind(f.field) &&
        count[NonNullCount(criteria.fields[..i])] == Bind(f.field))
  {
    ConditionPresentIffNonNull(criteria.fields, i);
    if criteria.fields[i].value.Some? {
      ConditionAt(criteria.fields, i);
    }
  }
}
