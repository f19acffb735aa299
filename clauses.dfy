/**
 * What each clause builder of the SELECT generator produces, as functions of
 * the query snapshot, and the properties those clauses have. The class in
 * module QueryGenerator computes the same strings with loops and is proved
 * equal to these functions.
 */
module Clauses {
  import opened PhpStrings
  import opened QueryModel

  // ---------------------------------------------------------------- FROM

  /** One FROM entry: the table, followed by " AS alias" when the alias is not
      PHP-empty. */
  function FromSql(f: FromInfo): (r: string)
    ensures |r| >= |f.table| && r[..|f.table|] == f.table
    ensures |r| > |f.table| <==> PhpNonEmpty(f.alias)
  {
    f.table + (if PhpNonEmpty(f.alias) then " AS " + f.alias else "")
  }

  function FromItems(from: seq<FromInfo>): seq<string>
  {
    seq(|from|, i requires 0 <= i < |from| => FromSql(from[i]))
  }

  /** The FROM part: nothing without tables, otherwise the entries in order,
      separated by ", ". */
  function FromPart(from: seq<FromInfo>): (r: string)
    ensures r == "" <==> from == []
    ensures from != [] ==> |r| >= 6 && r[..6] == " FROM "
  {
    if |from| == 0 then "" else " FROM " + Implode(", ", FromItems(from))
  }

  /** An entry renders as its bare table name exactly when its alias is
      PHP-empty. */
  lemma FromSqlAlias(f: FromInfo)
    ensures FromSql(f) == f.table <==> !PhpNonEmpty(f.alias)
    ensures PhpNonEmpty(f.alias) ==> FromSql(f) == f.table + " AS " + f.alias
  {
    if PhpNonEmpty(f.alias) {
      assert |FromSql(f)| > |f.table|;
    }
  }

  /** Adding a table appends its entry to the FROM part; earlier entries keep
      their text and their order. */
  lemma {:induction false} FromPartAppend(from: seq<FromInfo>, f: FromInfo)
    ensures FromPart(from + [f]) ==
            if from == [] then " FROM " + FromSql(f)
            else FromPart(from) + ", " + FromSql(f)
  {
    var items := FromItems(from + [f]);
    assert items[..|items| - 1] == FromItems(from);
    assert items[|items| - 1] == FromSql(f);
  }

  // ---------------------------------------------------------------- JOIN

  /** The join type as rendered: upper-cased, then trimmed, so it is no
      longer than what the caller gave and has no PHP whitespace at either
      end. */
  function JoinKeyword(joinType: string): (r: string)
    ensures |r| <= |joinType|
    ensures r == [] || (!IsPhpSpace(r[0]) && !IsPhpSpace(r[|r| - 1]))
  {
    Trim(Upper(joinType))
  }

  /** One JOIN clause, with its own leading space, so that consecutive
      clauses never run together. */
  function JoinSql(j: JoinInfo): (r: string)
    ensures |r| > 0 && r[0] == ' '
  {
    " " + JoinKeyword(j.joinType) + " JOIN " + j.table
    + (if PhpNonEmpty(j.alias) then " AS " + j.alias else "")
    + " ON " + j.on
  }

  function JoinClauses(joins: seq<JoinInfo>): seq<string>
  {
    seq(|joins|, i requires 0 <= i < |joins| => JoinSql(joins[i]))
  }

  /** The JOIN part: the clauses one after the other, in insertion order.
      Each clause contributes text, so the part is empty exactly when there
      are no joins. */
  function JoinPart(joins: seq<JoinInfo>): (r: string)
    ensures r == "" <==> joins == []
  {
    Concat(JoinClauses(joins))
  }

  /** The rendered join type has no lower-case ASCII letter and no PHP
      whitespace at either end; the case the caller used does not matter, and
      rendering a rendered type changes nothing. */
  lemma JoinKeywordNormal(t: string)
    ensures var k := JoinKeyword(t);
            && (forall i :: 0 <= i < |k| ==> !IsAsciiLower(k[i]))
            && (k == [] || (!IsPhpSpace(k[0]) && !IsPhpSpace(k[|k| - 1])))
            && JoinKeyword(k) == k
            && JoinKeyword(Upper(t)) == k
  {
    var k := JoinKeyword(t);
    TrimNoLower(Upper(t));
    TrimShape(Upper(t));
    UpperNoop(k);
    TrimLeftNoop(k);
    TrimRightNoop(k);
    UpperIdempotent(t);
  }

  /** The JOIN part of two lists of joins is the JOIN part of the first
      followed by that of the second: no separator and no reordering. */
  lemma JoinPartConcat(a: seq<JoinInfo>, b: seq<JoinInfo>)
    ensures JoinPart(a + b) == JoinPart(a) + JoinPart(b)
  {
    var ca, cb := JoinClauses(a), JoinClauses(b);
    assert JoinClauses(a + b) == ca + cb by {
      forall i | 0 <= i < |a + b|
        ensures JoinClauses(a + b)[i] == (ca + cb)[i]
      {
        if i >= |a| {
          assert (a + b)[i] == b[i - |a|];
        }
      }
    }
    ConcatAppend(ca, cb);
  }

  /** Adding a join appends its clause to the JOIN part. */
  lemma JoinPartAppend(joins: seq<JoinInfo>, j: JoinInfo)
    ensures JoinPart(joins + [j]) == JoinPart(joins) + JoinSql(j)
  {
    var cs := JoinClauses(joins + [j]);
    assert cs[..|cs| - 1] == JoinClauses(joins);
    assert cs[|cs| - 1] == JoinSql(j);
  }

  // ---------------------------------------------------------------- WHERE

  /** The WHERE part: omitted when the rendered condition is PHP-empty,
      otherwise the condition text unchanged after " WHERE ". */
  function WherePart(cond: string): (r: string)
    ensures r == "" <==> !PhpNonEmpty(cond)
    ensures PhpNonEmpty(cond) ==> |r| == 7 + |cond| && r[..7] == " WHERE " && r[7..] == cond
  {
    if PhpNonEmpty(cond) then " WHERE " + cond else ""
  }

  // ---------------------------------------------------------------- GROUP BY / HAVING

  /** The GROUP BY part, with HAVING nested inside it: `havingSql` is the
      rendering of `having`, used only when there are both grouping
      expressions and HAVING conditions. */
  function GroupByPart(groupBy: seq<string>, having: seq<Condition>, havingSql: string): (r: string)
    ensures r == "" <==> groupBy == []
    ensures groupBy != [] ==> |r| >= 10 && r[..10] == " GROUP BY "
  {
    if |groupBy| == 0 then ""
    else " GROUP BY " + Implode(", ", groupBy) + (if |having| > 0 then " HAVING " + havingSql else "")
  }

  /** HAVING text only ever follows a non-empty GROUP BY list, and only
      when there are HAVING conditions; the list itself does not depend on
      them. */
  lemma HavingOnlyWithGroupBy(groupBy: seq<string>, having: seq<Condition>, havingSql: string)
    ensures GroupByPart(groupBy, having, havingSql) ==
            GroupByPart(groupBy, [], "")
            + (if groupBy != [] && having != [] then " HAVING " + havingSql else "")
  {
  }

  // ---------------------------------------------------------------- ORDER BY

  /** One `field => direction` entry: the field, followed by " direction"
      when the direction is not PHP-empty. */
  function OrderSql(e: OrderEntry): (r: string)
    ensures |r| >= |e.field| && r[..|e.field|] == e.field
    ensures |r| > |e.field| <==> PhpNonEmpty(e.direction)
  {
    e.field + (if PhpNonEmpty(e.direction) then " " + e.direction else "")
  }

  function OrderItems(entries: seq<OrderEntry>): seq<string>
  {
    seq(|entries|, i requires 0 <= i < |entries| => OrderSql(entries[i]))
  }

  /** The ORDER BY part: a verbatim string is always emitted, even when it is
      empty; a mapping is omitted when empty and otherwise rendered entry by
      entry in insertion order, separated by ", ". */
  function OrderByPart(o: OrderBy): (r: string)
    ensures r == "" <==> o.Fields? && o.entries == []
    ensures r != "" ==> |r| >= 10 && r[..10] == " ORDER BY "
  {
    match o
    case Verbatim(s) => " ORDER BY " + s
    case Fields(entries) =>
      if |entries| == 0 then "" else " ORDER BY " + Implode(", ", OrderItems(entries))
  }

  /** A verbatim string is emitted unchanged after " ORDER BY ". */
  lemma OrderByPresence(o: OrderBy)
    ensures o.Verbatim? ==> OrderByPart(o)[..10] == " ORDER BY " && OrderByPart(o)[10..] == o.sql
  {
  }

  /** Adding an entry to the mapping appends its text to the ORDER BY part;
      earlier entries keep their text and their order. */
  lemma {:induction false} OrderByAppend(entries: seq<OrderEntry>, e: OrderEntry)
    ensures OrderByPart(Fields(entries + [e])) ==
            if entries == [] then " ORDER BY " + OrderSql(e)
            else OrderByPart(Fields(entries)) + ", " + OrderSql(e)
  {
    var items := OrderItems(entries + [e]);
    assert items[..|items| - 1] == OrderItems(entries);
    assert items[|items| - 1] == OrderSql(e);
  }

  // ---------------------------------------------------------------- LIMIT

  /** The LIMIT part: omitted without a limit, otherwise the offset, a comma
      and a space, and the length, in that order. */
  function LimitPart(limit: Option<Limit>): (r: string)
    ensures r == "" <==> limit.None?
    ensures limit.Some? ==> |r| > 7 && r[..7] == " LIMIT "
  {
    match limit
    case None => ""
    case Some(l) => " LIMIT " + NatToString(l.offset) + ", " + NatToString(l.length)
  }

  /** The first position of `c` in `s`, or `|s|` when there is none. */
  function IndexOf(s: string, c: char): (i: nat)
    ensures i <= |s|
    ensures i < |s| ==> s[i] == c
    ensures forall k :: 0 <= k < i ==> s[k] != c
  {
    if s == [] then 0
    else if s[0] == c then 0
    else 1 + IndexOf(s[1..], c)
  }

  /** Reads a LIMIT part back: the offset is the number before the comma and
      the length the number after ", ". */
  function ParseLimit(s: string): Option<Limit>
  {
    if |s| < 7 || s[..7] != " LIMIT " then None
    else
      var rest := s[7..];
      var i := IndexOf(rest, ',');
      if i + 2 <= |rest| && rest[i..i + 2] == ", "
         && AllDigits(rest[..i]) && AllDigits(rest[i + 2..])
      then Some(Limit(ParseNat(rest[..i]), ParseNat(rest[i + 2..])))
      else None
  }

  lemma IndexOfAfterDigits(d: string, tail: string)
    requires AllDigits(d) && |tail| > 0 && tail[0] == ','
    ensures IndexOf(d + tail, ',') == |d|
  {
    var s := d + tail;
    assert forall k :: 0 <= k < |d| ==> s[k] == d[k];
    assert s[|d|] == ',';
  }

  /** The LIMIT part determines the limit it was built from: reading it back
      gives the same offset and the same length, in the same roles. */
  lemma LimitPartRoundTrip(limit: Option<Limit>)
    ensures ParseLimit(LimitPart(limit)) == limit
  {
    match limit
    case None =>
    case Some(l) =>
      var a, b := NatToString(l.offset), NatToString(l.length);
      var s := LimitPart(limit);
      assert s == " LIMIT " + (a + (", " + b));
      var rest := s[7..];
      assert rest == a + (", " + b);
      IndexOfAfterDigits(a, ", " + b);
      assert rest[..|a|] == a;
      assert rest[|a|..|a| + 2] == ", ";
      assert rest[|a| + 2..] == b;
      ParseNatToString(l.offset);
      ParseNatToString(l.length);
  }

  /** Different limits give different LIMIT parts. */
  lemma LimitPartInjective(l1: Option<Limit>, l2: Option<Limit>)
    requires LimitPart(l1) == LimitPart(l2)
    ensures l1 == l2
  {
    LimitPartRoundTrip(l1);
    LimitPartRoundTrip(l2);
  }

  // ---------------------------------------------------------------- the whole statement

  /** The statement before trimming: SELECT and its field list, then the
      FROM, JOIN, WHERE, GROUP BY, ORDER BY and LIMIT parts in that order. */
  function Untrimmed(q: Query): string
  {
    "SELECT " + Implode(", ", q.info.fields)
    + FromPart(q.info.from)
    + JoinPart(q.info.join)
    + WherePart(q.conditionString)
    + GroupByPart(q.info.groupBy, q.info.having, q.havingString)
    + OrderByPart(q.info.orderBy)
    + LimitPart(q.info.limit)
  }

  /** What `generate` returns: a statement that starts with SELECT and has
      no PHP whitespace at either end, whatever the clauses hold. */
  function Render(q: Query): (r: string)
    ensures |r| >= 6 && r[..6] == "SELECT"
    ensures !IsPhpSpace(r[0]) && !IsPhpSpace(r[|r| - 1])
  {
    TrimmedStatement(Implode(", ", q.info.fields), FromPart(q.info.from), JoinPart(q.info.join),
                     WherePart(q.conditionString),
                     GroupByPart(q.info.groupBy, q.info.having, q.havingString),
                     OrderByPart(q.info.orderBy), LimitPart(q.info.limit));
    Trim(Untrimmed(q))
  }

  /** SELECT followed by any clause texts, trimmed: the keyword survives at
      the front and no PHP whitespace is left at either end. */
  lemma TrimmedStatement(fields: string, from: string, join: string, where: string,
                         groupBy: string, orderBy: string, limit: string)
    ensures var r := Trim("SELECT " + fields + from + join + where + groupBy + orderBy + limit);
            && |r| >= 6 && r[..6] == "SELECT"
            && !IsPhpSpace(r[0]) && !IsPhpSpace(r[|r| - 1])
            && Trim(r) == r
  {
    var u := "SELECT " + fields + from + join + where + groupBy + orderBy + limit;
    assert u == "SELECT" + u[6..];
    TrimKeepsPrefix("SELECT", u[6..]);
    TrimShape(u);
    TrimIdempotent(u);
  }

  /** The statement always starts with SELECT, has no PHP whitespace at either
      end, and is unchanged by another trim. */
  lemma RenderShape(q: Query)
    ensures var r := Render(q);
            && |r| >= 6 && r[..6] == "SELECT"
            && !IsPhpSpace(r[0]) && !IsPhpSpace(r[|r| - 1])
            && Trim(r) == r
  {
    TrimmedStatement(Implode(", ", q.info.fields), FromPart(q.info.from), JoinPart(q.info.join),
                     WherePart(q.conditionString),
                     GroupByPart(q.info.groupBy, q.info.having, q.havingString),
                     OrderByPart(q.info.orderBy), LimitPart(q.info.limit));
  }

  /** HAVING conditions have no effect on the statement when there is no
      GROUP BY list. */
  lemma HavingIgnoredWithoutGroupBy(q: Query, having: seq<Condition>, havingSql: string)
    requires q.info.groupBy == []
    ensures Render(q.(info := q.info.(having := having), havingString := havingSql)) == Render(q)
  {
    var q' := q.(info := q.info.(having := having), havingString := havingSql);
    assert GroupByPart(q'.info.groupBy, q'.info.having, q'.havingString) == "";
    assert GroupByPart(q.info.groupBy, q.info.having, q.havingString) == "";
  }

  /** A query on which no builder method was called renders as "SELECT". */
  lemma RenderEmptyQuery()
    ensures Render(EmptyQuery) == "SELECT"
  {
    assert Untrimmed(EmptyQuery) == "SELECT ";
    assert TrimLeft("SELECT ") == "SELECT ";
    assert "SELECT "[..6] == "SELECT";
  }
}
