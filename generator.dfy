/**
 * Atomik_Db_Query_Generator: compiles a query snapshot into one SELECT
 * statement. Like the PHP class, `Generate` first stores the query and its
 * snapshot in the object's fields; the clause builders then read those
 * fields. Each builder is proved to return the clause function of module
 * Clauses for the stored snapshot.
 */
module QueryGenerator {
  import opened PhpStrings
  import opened QueryModel
  import opened Clauses

  class Generator {
    /** The query of the latest `Generate` call (`$_query`). */
    var query: Query
    /** Its snapshot (`$_info`). */
    var info: Info

    /** A generator that has not compiled anything yet holds an empty query. */
    constructor ()
      ensures query == EmptyQuery && info == EmptyInfo
    {
      query := EmptyQuery;
      info := EmptyInfo;
    }

    /** Stores `q` and its snapshot, then assembles SELECT and the field list
        followed by the six clause parts in their fixed order, and trims the
        result. The returned text depends on `q` alone, not on any query this
        object compiled before. */
    method Generate(q: Query) returns (sql: string)
      modifies this
      ensures query == q && info == q.info
      ensures sql == Render(q)
      ensures |sql| >= 6 && sql[..6] == "SELECT"
      ensures !IsPhpSpace(sql[0]) && !IsPhpSpace(sql[|sql| - 1])
    {
      query := q;
      info := q.info;
      var fromSql := BuildFromPart();
      var joinSql := BuildJoinPart();
      var whereSql := BuildWherePart();
      var groupBySql := BuildGroupByPart();
      var orderBySql := BuildOrderByPart();
      var limitSql := BuildLimitPart();
      var raw := "SELECT " + Implode(", ", info.fields)
                 + fromSql + joinSql + whereSql + groupBySql + orderBySql + limitSql;
      sql := Trim(raw);
      RenderShape(q);
    }

    /** `_buildFromPart`: one entry per table, in order, joined by ", ". */
    method BuildFromPart() returns (sql: string)
      ensures sql == FromPart(info.from)
    {
      sql := "";
      if |info.from| > 0 {
        var tables: seq<string> := [];
        for i := 0 to |info.from|
          invariant |tables| == i
          invariant forall k :: 0 <= k < i ==> tables[k] == FromSql(info.from[k])
        {
          var f := info.from[i];
          var fromSql := f.table;
          if PhpNonEmpty(f.alias) {
            fromSql := fromSql + " AS " + f.alias;
          }
          tables := tables + [fromSql];
        }
        assert tables == FromItems(info.from);
        sql := " FROM " + Implode(", ", tables);
      }
    }

    /** `_buildJoinPart`: appends one clause per join, in order. */
    method BuildJoinPart() returns (sql: string)
      ensures sql == JoinPart(info.join)
    {
      sql := "";
      assert JoinClauses([]) == [];
      if |info.join| > 0 {
        for i := 0 to |info.join|
          invariant sql == JoinPart(info.join[..i])
        {
          var j := info.join[i];
          var clause := " " + Trim(Upper(j.joinType)) + " JOIN " + j.table
                        + (if PhpNonEmpty(j.alias) then " AS " + j.alias else "")
                        + " ON " + j.on;
          assert clause == JoinSql(j);
          assert info.join[..i + 1] == info.join[..i] + [j];
          JoinPartAppend(info.join[..i], j);
          sql := sql + clause;
        }
        assert info.join[..|info.join|] == info.join;
      }
    }

    /** `_buildWherePart`: the query's rendered condition after " WHERE ",
        or nothing when that rendering is PHP-empty. */
    method BuildWherePart() returns (sql: string)
      ensures sql == WherePart(query.conditionString)
    {
      sql := "";
      var where := query.conditionString;
      if PhpNonEmpty(where) {
        sql := " WHERE " + where;
      }
    }

    /** `_buildGroupByPart`: the grouping list, with the rendered HAVING
        conditions after it when there are any. */
    method BuildGroupByPart() returns (sql: string)
      ensures sql == GroupByPart(info.groupBy, info.having, query.havingString)
    {
      sql := "";
      if |info.groupBy| > 0 {
        sql := " GROUP BY " + Implode(", ", info.groupBy);
        if |info.having| > 0 {
          sql := sql + " HAVING " + query.havingString;
        }
      }
    }

    /** `_buildOrderByPart`: a verbatim string as it is, otherwise one entry
        per field in insertion order, joined by ", ". */
    method BuildOrderByPart() returns (sql: string)
      ensures sql == OrderByPart(info.orderBy)
    {
      sql := "";
      if info.orderBy.Verbatim? {
        return " ORDER BY " + info.orderBy.sql;
      }
      var entries := info.orderBy.entries;
      if |entries| > 0 {
        var fields: seq<string> := [];
        for i := 0 to |entries|
          invariant |fields| == i
          invariant forall k :: 0 <= k < i ==> fields[k] == OrderSql(entries[k])
        {
          var e := entries[i];
          var fieldSql := e.field;
          if PhpNonEmpty(e.direction) {
            fieldSql := fieldSql + " " + e.direction;
          }
          fields := fields + [fieldSql];
        }
        assert fields == OrderItems(entries);
        sql := " ORDER BY " + Implode(", ", fields);
      }
    }

    /** `_buildLimitPart`: offset, then length, when a limit is set. */
    method BuildLimitPart() returns (sql: string)
      ensures sql == LimitPart(info.limit)
    {
      sql := "";
      if info.limit.Some? {
        var l := info.limit.value;
        sql := " LIMIT " + NatToString(l.offset) + ", " + NatToString(l.length);
      }
    }
  }

  /** Compiling a query, then another one, then the first again on the same
      generator gives the first text twice: the fields that `Generate`
      overwrites carry nothing from one call to the next. */
  method RegenerateIsStable(g: Generator, q: Query, other: Query)
    returns (first: string, second: string)
    modifies g
    ensures first == second == Render(q)
  {
    first := g.Generate(q);
    var _ := g.Generate(other);
    second := g.Generate(q);
  }
}
