/**
 * The generic mapper as its callers see it: the two criteria statements run against a data
 * store, and the `findPageByCriteria` default method composed from them. The store is
 * abstract: its answers are fixed functions of the statement and its bound parameters, and a
 * ghost log records which statements were handed to it, in order.
 */
module SimpleCrudMapper {
  import opened Wrappers
  import opened JavaModel
  import opened SqlProviderSupport
  import opened SqlProviders

  /** A page request, as `Pageable.getOffset` and `Pageable.getPageSize` report it. */
  datatype Pageable = Pageable(offset: int, pageSize: int)

  /** MyBatis row bounds: rows to skip and the most rows to return. */
  datatype RowBounds = RowBounds(offset: int, limit: int)

  /** The content, page request and total handed to the `PageImpl` constructor. */
  datatype Page = Page(content: seq<Bean>, pageable: Pageable, total: int)

  /** A statement executed by the data store, with the criteria bound to its placeholders. */
  datatype Call =
    | CountCall(statement: Statement, criteria: Option<Bean>)
    | SelectCall(statement: Statement, criteria: Option<Bean>, bounds: RowBounds)

  /** A mapper proxy bound to one mapper interface and one data store. */
  class Mapper {
    /** The mapper interface MyBatis hands to the providers. */
    const context: MapperInterface
    /** The store's answer to a `count(*)` statement. */
    const countOf: (Statement, Option<Bean>) -> int
    /** The store's answer to a bounded select. */
    const rowsOf: (Statement, Option<Bean>, RowBounds) -> seq<Bean>
    /** Every statement executed so far, oldest first. */
    ghost var calls: seq<Call>

    constructor (context: MapperInterface, countOf: (Statement, Option<Bean>) -> int,
                 rowsOf: (Statement, Option<Bean>, RowBounds) -> seq<Bean>)
      ensures this.context == context && this.countOf == countOf && this.rowsOf == rowsOf
      ensures calls == []
    {
      this.context := context;
      this.countOf := countOf;
      this.rowsOf := rowsOf;
      calls := [];
    }

    /**
     * `__countByCriteria`: build the count statement (which throws when the entity type
     * cannot be resolved, before anything is executed) and run it.
     */
    method CountByCriteria(criteria: Option<Bean>) returns (r: Result<int, IllegalStateException>)
      modifies this`calls
      ensures CountByCriteriaSql(context, criteria).Failure? ==>
        r == Failure(CountByCriteriaSql(context, criteria).error) && calls == old(calls)
      ensures CountByCriteriaSql(context, criteria).Success? ==>
        var statement := CountByCriteriaSql(context, criteria).value;
        r == Success(countOf(statement, criteria)) &&
        calls == old(calls) + [CountCall(statement, criteria)]
    {
      var statement :- CountByCriteriaSql(context, criteria);
      calls := calls + [CountCall(statement, criteria)];
      r := Success(countOf(statement, criteria));
    }

    /** `__selectByCriteria`: build the select statement and run it within `bounds`. */
    method SelectByCriteria(criteria: Option<Bean>, bounds: RowBounds) returns (r: Result<seq<Bean>, IllegalStateException>)
      modifies this`calls
      ensures SelectByCriteriaSql(context, criteria).Failure? ==>
        r == Failure(SelectByCriteriaSql(context, criteria).error) && calls == old(calls)
      ensures SelectByCriteriaSql(context, criteria).Success? ==>
        var statement := SelectByCriteriaSql(context, criteria).value;
        r == Success(rowsOf(statement, criteria, bounds)) &&
        calls == old(calls) + [SelectCall(statement, criteria, bounds)]
    {
      var statement :- SelectByCriteriaSql(context, criteria);
      calls := calls + [SelectCall(statement, criteria, bounds)];
      r := Success(rowsOf(statement, criteria, bounds));
    }

    /**
     * `findPageByCriteria`: count first; a zero total gives an empty page without running
     * the select, any other total runs the select once, bounded by the page request.
     */
    method FindPageByCriteria(criteria: Option<Bean>, pageable: Pageable) returns (r: Result<Page, IllegalStateException>)
      modifies this`calls
      ensures EntityType(context).Failure? ==>
        r == Failure(MapperNotFound(context.name)) && calls == old(calls)
      ensures EntityType(context).Success? ==>
        var count := CountByCriteriaSql(context, criteria).value;
        var total := countOf(count, criteria);
        r.Success? && r.value.pageable == pageable && r.value.total == total
      ensures EntityType(context).Success? && countOf(CountByCriteriaSql(context, criteria).value, criteria) == 0 ==>
        r.value.content == [] &&
        calls == old(calls) + [CountCall(CountByCriteriaSql(context, criteria).value, criteria)]
      ensures EntityType(context).Success? && countOf(CountByCriteriaSql(context, criteria).value, criteria) != 0 ==>
        var select := SelectByCriteriaSql(context, criteria).value;
        var bounds := RowBounds(pageable.offset, pageable.pageSize);
        r.value.content == rowsOf(select, criteria, bounds) &&
        calls == old(calls) + [CountCall(CountByCriteriaSql(context, criteria).value, criteria),
                               SelectCall(select, criteria, bounds)]
    {
      var total :- CountByCriteria(criteria);
      if total == 0 {
        return Success(Page([], pageable, total));
      }
      var content := SelectByCriteria(criteria, RowBounds(pageable.offset, pageable.pageSize));
      assert content.Success?;  // the count already resolved the entity type
      r := Success(Page(content.value, pageable, total));
    }
  }
}
