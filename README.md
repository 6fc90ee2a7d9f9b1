# Generic CRUD SQL generation for MyBatis mappers

This project models the generic CRUD mapper of `mybatis-common-mapper-demo`.
The mapper derives its SQL statements from the declared fields of an entity class.
- The table is the entity's simple class name, lower-cased.
- Each column is a field name converted from lower camel case to lower snake case.
- Each placeholder is `#{fieldName}`, using the raw field name.
- Six providers build the statements: INSERT, UPDATE by id, DELETE by id, SELECT by id, and SELECT or `count(*)` filtered by a criteria object. The filter has one equality predicate per non-null criteria field, in field order.
- `findPageByCriteria` runs the count first. It runs the bounded select only when the count is not zero.

Reflection is made explicit. A class is a value holding its name, its simple name and its declared fields in the order reflection returned them. A mapper interface is a value holding its name and its direct generic interfaces. An object is its fields, each paired with a value or `None` for `null`. All ordering properties are stated relative to that given field sequence.

Statements are structured values (`Insert`, `Update`, `Delete`, `Select`), not SQL text. An empty `where` list means that no WHERE clause is emitted.

The providers are pure functions that return `Result`. A failure carries the `IllegalStateException` that `entityType` throws.

`findPageByCriteria` is a method of a `Mapper` class. The class stands for the MyBatis proxy over an abstract data store. The store's answers are fixed functions of the statement and its bound criteria. A ghost log records every statement handed to the store, so the method's contract can say that no select runs when the total is zero.

Files:
- `wrappers.dfy`: `Option` and `Result`.
- `java_model.dfy`: the reflective view of classes, objects and generic interfaces.
- `sql_provider_support.dfy`: `entityType`, `tableName`, `columns`, `columnName` and `bindParameter`.
- `sql_providers.dfy`: the six providers, then the properties of the criteria filter and how the providers relate to one another.
- `simple_crud_mapper.dfy`: the two criteria calls and `findPageByCriteria`.
- `todo_example.dfy`: the demo's `Todo` entity as a concrete input.

Two facts about the code that are easy to get wrong:
- The column mapping is injective on field names without `_` (`ColumnNameInjective`). It is not injective once `_` is allowed: `a_b` and `aB` both give `a_b` (`SnakeCaseCollidesOnUnderscores`).
- UPDATE's SET list includes `id`, because `src/main/java/com/example/demo/mapper/SimpleCrudMapper.java:69-70` maps every declared field.

## Model

| member | source | states |
|---|---|---|
| `SqlProviderSupport.FirstCrudMapperArgument` | src/main/java/com/example/demo/mapper/SimpleCrudMapper.java:131-135 | No result exactly when no direct generic interface is a parameterization of `SimpleCrudMapper`. Otherwise the result is the first type argument of the first such interface. |
| `SqlProviderSupport.EntityType` | src/main/java/com/example/demo/mapper/SimpleCrudMapper.java:130-138 | Every failure is `IllegalStateException("The SimpleCrudMapper does not found in <mapper>.")`. If a first `SimpleCrudMapper` parameterization exists, resolution succeeds iff its first argument is a class, and the result is that class. Later parameterizations are never consulted. With no such interface, resolution fails. |
| `SqlProviderSupport.EntityTypeSucceedsIff` | src/main/java/com/example/demo/mapper/SimpleCrudMapper.java:130-138 | Resolution succeeds iff some index holds the first `SimpleCrudMapper` parameterization and its first type argument is a class. |
| `SqlProviderSupport.TableName` | src/main/java/com/example/demo/mapper/SimpleCrudMapper.java:140-142 | The table name has the simple name's length and no upper-case letter. Each character is the simple name's character, except that upper-case letters are lower-cased. Nothing is added: no plural and no underscore. |
| `SqlProviderSupport.ColumnName` | src/main/java/com/example/demo/mapper/SimpleCrudMapper.java:148-150 | A column is one character longer than its field name per upper-case letter. For a name without `_`, `CamelCase` reads the column back to the field name. |
| `SqlProviderSupport.SnakeCaseHasNoUpper` | src/main/java/com/example/demo/mapper/SimpleCrudMapper.java:148-150 | A column name contains no upper-case letter. |
| `SqlProviderSupport.CamelCaseInvertsSnakeCase` | src/main/java/com/example/demo/mapper/SimpleCrudMapper.java:148-150 | Round trip: for field names without `_`, camel case of the snake case is the original name. |
| `SqlProviderSupport.ColumnNameInjective` | src/main/java/com/example/demo/mapper/SimpleCrudMapper.java:148-150 | Two underscore-free fields with the same column are the same field. |
| `SqlProviderSupport.SnakeCaseKeepsLowerNames` | src/main/java/com/example/demo/mapper/SimpleCrudMapper.java:148-150 | A name with no upper-case letter is its own column name. |
| `SqlProviderSupport.SnakeCaseAppend` | src/main/java/com/example/demo/mapper/SimpleCrudMapper.java:148-150 | The conversion works character by character, so the column of a concatenation is the concatenation of the columns. |
| `SqlProviderSupport.SnakeCaseCollidesOnUnderscores` | src/main/java/com/example/demo/mapper/SimpleCrudMapper.java:148-150 | `a_b` and `aB` both give the column `a_b`, so the mapping is not injective once underscores are allowed. |
| `SqlProviderSupport.IdColumn` | src/main/java/com/example/demo/mapper/SimpleCrudMapper.java:148-150 | `id` stays `id`. |
| `SqlProviderSupport.CreatedAtColumn` | src/main/java/com/example/demo/mapper/SimpleCrudMapper.java:148-150 | `createdAt` becomes `created_at`. |
| `SqlProviderSupport.Columns` | src/main/java/com/example/demo/mapper/SimpleCrudMapper.java:144-146 | There is exactly one column per field, in field order. The i-th column is the column name of the i-th field. |
| `SqlProviderSupport.BindParameter` | src/main/java/com/example/demo/mapper/SimpleCrudMapper.java:152-154 | The placeholder is three characters longer than the field name. Reading it back with `PlaceholderName` gives the raw field name. |
| `SqlProviders.IdMatchIsBindingOfId` | src/main/java/com/example/demo/mapper/SimpleCrudMapper.java:71 | The fixed key predicate renders as `id = #{id}`. It equals the fragment that the generic rule gives for a field named `id`. |
| `SqlProviders.BindInjective` | src/main/java/com/example/demo/mapper/SimpleCrudMapper.java:70 | Two fields with different names never give the same `column = #{name}` fragment. |
| `SqlProviders.Placeholders` | src/main/java/com/example/demo/mapper/SimpleCrudMapper.java:59 | There is one placeholder per field, in field order. The i-th placeholder is the i-th field's placeholder. |
| `SqlProviders.Assignments` | src/main/java/com/example/demo/mapper/SimpleCrudMapper.java:69-70 | There is one `column = #{name}` entry per field, in field order. The i-th entry belongs to the i-th field. |
| `SqlProviders.Conditions` | src/main/java/com/example/demo/mapper/SimpleCrudMapper.java:105-107 | The number of predicates equals the number of non-null fields, and never exceeds the number of fields. |
| `SqlProviders.CreateSql` | src/main/java/com/example/demo/mapper/SimpleCrudMapper.java:52-62 | It fails exactly when entity resolution fails, with the same exception. Otherwise it builds an INSERT into the entity's table. There are as many values as columns and as fields. The i-th column is the i-th field's column, and the i-th value names the i-th field's raw name. |
| `SqlProviders.UpdateSql` | src/main/java/com/example/demo/mapper/SimpleCrudMapper.java:64-74 | It fails exactly when entity resolution fails. Otherwise it builds an UPDATE of the entity's table. The SET list has one entry per declared field, `id` included, in field order. Each entry pairs the field's column with the placeholder of its raw name. WHERE is exactly `id = #{id}`. |
| `SqlProviders.DeleteSql` | src/main/java/com/example/demo/mapper/SimpleCrudMapper.java:76-84 | It fails exactly when entity resolution fails. Otherwise it builds a DELETE from the entity's table with WHERE exactly `id = #{id}`. |
| `SqlProviders.FindOneSql` | src/main/java/com/example/demo/mapper/SimpleCrudMapper.java:86-95 | It fails exactly when entity resolution fails. Otherwise it builds a SELECT of every column, in field order, from the entity's table. WHERE is exactly `id = #{id}`. |
| `SqlProviders.SelectByCriteriaSql` | src/main/java/com/example/demo/mapper/SimpleCrudMapper.java:97-110 | It fails exactly when entity resolution fails. Otherwise it builds a SELECT of every column, in field order, from the entity's table. Its WHERE list is exactly the criteria predicates (`Conditions`) of the fields declared by the criteria object's own class: one per non-null field. A null criteria gives none. |
| `SqlProviders.CountByCriteriaSql` | src/main/java/com/example/demo/mapper/SimpleCrudMapper.java:112-125 | It fails exactly when entity resolution fails. Otherwise it builds a `count(*)` from the entity's table. Its WHERE list is exactly the criteria predicates (`Conditions`) of the fields declared by the criteria object's own class: one per non-null field. A null criteria gives none. |
| `CriteriaProperties.ConditionAt` | src/main/java/com/example/demo/mapper/SimpleCrudMapper.java:105-107 | A non-null field's predicate is present. It sits at the position counted by the non-null fields before it. |
| `CriteriaProperties.ConditionOrigin` | src/main/java/com/example/demo/mapper/SimpleCrudMapper.java:105-107 | Every predicate is the fragment of some non-null field. That field is the one whose position count matches. |
| `CriteriaProperties.ConditionsKeepFieldOrder` | src/main/java/com/example/demo/mapper/SimpleCrudMapper.java:105-107 | An earlier non-null field gets a strictly earlier predicate position, so predicates keep field order. |
| `CriteriaProperties.ConditionPresentIffNonNull` | src/main/java/com/example/demo/mapper/SimpleCrudMapper.java:105-107 | In a class with distinct field names, a field's predicate appears iff the field's value is non-null. |
| `CriteriaProperties.AllNullNoConditions` | src/main/java/com/example/demo/mapper/SimpleCrudMapper.java:105-107 | A criteria whose fields are all null yields no predicate. |
| `CriteriaProperties.OneNonNullOneCondition` | src/main/java/com/example/demo/mapper/SimpleCrudMapper.java:105-107 | Exactly one non-null field yields exactly that field's predicate. |
| `CriteriaProperties.NullCriteriaNoWhere` | src/main/java/com/example/demo/mapper/SimpleCrudMapper.java:105 | A null criteria yields select and count statements without a WHERE clause. |
| `CriteriaProperties.CountAndSelectShareWhere` | src/main/java/com/example/demo/mapper/SimpleCrudMapper.java:100-124 | Count and select for the same criteria succeed or fail together. Their statements are equal except for the projection: `count(*)` against all columns in field order. |
| `CriteriaProperties.CriteriaWhereIffNonNull` | src/main/java/com/example/demo/mapper/SimpleCrudMapper.java:100-124 | In the select and count statements for a criteria object, a field's predicate appears iff the field's value is non-null. A non-null field's predicate sits at the position counted by the non-null fields before it, so field order is kept. |
| `CriteriaProperties.ProvidersFailTogether` | src/main/java/com/example/demo/mapper/SimpleCrudMapper.java:130-138 | All six providers fail exactly when entity resolution fails, and the failure carries the not-found exception. |
| `TodoExample.TodoResolves` | src/main/java/com/example/demo/domain/Todo.java:6-12 | A mapper that directly extends `SimpleCrudMapper<Todo, Todo>` resolves to `Todo`. |
| `TodoExample.TodoTable` | src/main/java/com/example/demo/domain/Todo.java:6 | `Todo` maps to the table `todo`. |
| `TodoExample.TodoInsert` | src/main/java/com/example/demo/mapper/SimpleCrudMapper.java:52-62 | The `Todo` insert targets `todo` with six columns and six values. At `createdAt` the column is `created_at` while the value still names `createdAt`. |
| `TodoExample.TodoTitleCount` | src/main/java/com/example/demo/CommonMapperDemoApplication.java:40-42 | The demo's criteria sets only `title`, so its count is exactly `count(*)` from `todo` where `title = #{title}`. |
| `TodoExample.IndirectMapperFails` | src/main/java/com/example/demo/mapper/SimpleCrudMapper.java:133 | A mapper whose only generic interface has a raw type other than `SimpleCrudMapper` fails to resolve. The check looks only at direct interfaces. |
| `SimpleCrudMapper.Mapper.CountByCriteria` | src/main/java/com/example/demo/mapper/SimpleCrudMapper.java:46-47 | The count statement is built first. If building fails, the exception is returned and nothing runs. Otherwise the store's count for that statement is returned, and exactly that call is appended to the log. |
| `SimpleCrudMapper.Mapper.SelectByCriteria` | src/main/java/com/example/demo/mapper/SimpleCrudMapper.java:49-50 | The same, for the select statement run within the given row bounds. |
| `SimpleCrudMapper.Mapper.FindPageByCriteria` | src/main/java/com/example/demo/mapper/SimpleCrudMapper.java:37-44 | When resolution fails, it returns the not-found exception and runs nothing. Otherwise the page carries the caller's pageable and the count as its total. A zero total gives empty content, and the log gains only the count call, so the select never runs. Any other total runs the select exactly once, after the count, with bounds (`getOffset()`, `getPageSize()`). The content is then that select's rows. |

## Left out

- Reflection is not called. `getDeclaredFields`, `getGenericInterfaces` and `getSimpleName` are the contents of the input values. The JDK does not promise an order for `getDeclaredFields`, so every ordering claim is relative to the given sequence.
- `value` (lines 156-165) is a plain read of the value stored beside each field. The `setAccessible` toggling and the wrapping of `IllegalAccessException` into `IllegalStateException` are not modelled.
- `ColumnName`: Guava's `CaseFormat` is not part of this model. The model uses an ASCII rule: each of `A`-`Z` becomes `_` followed by its lower-case letter, and every other character is kept. Nothing is claimed for non-ASCII letters. For a name with a leading capital the model writes a leading `_` (`Ab` becomes `_ab`); that value is not claimed to match the real conversion. Names that contain `_` are converted by the same rule, but the round trip and injectivity are claimed only for names without `_`.
- `TableName`: Java's `toLowerCase()` is locale-dependent Unicode lower-casing. Only ASCII `A`-`Z` are lower-cased here.
- The SQL text that MyBatis `SQL.toString()` renders is not modelled: keywords, whitespace, and the joining of predicates with AND.
- The database is not modelled: execution, generated-key write-back for `create`, the affected-row-count to `boolean` mapping of `update` and `delete`, and the null result of `findOne`. The store's answers are opaque functions in `SimpleCrudMapper.Mapper`.
- `SimpleCrudMapper.Mapper.FindPageByCriteria`: `Page` is the triple passed to the `PageImpl` constructor. The constructor's own adjustment of the total is not modelled, and `RowBounds` is only the pair of numbers. `long` and `int` are unbounded integers.
- `TodoMapper` extends `BasicCrudMapper`, which is not part of this model. So the model does not claim that `TodoMapper` resolves. `TodoExample` uses a mapper that extends `SimpleCrudMapper<Todo, Todo>` directly.
