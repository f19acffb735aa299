/**
 * The snapshot of a SELECT query that the generator reads: what
 * `Atomik_Db_Query::getInfo()` returns, plus the two strings the generator
 * asks the query object to render for it.
 */
module QueryModel {

  datatype Option<+T> = None | Some(value: T)

  /** One stored HAVING condition. Its structure and its rendering belong to
      the query class, which is not part of this model; the generator only
      asks whether there are any. */
  type Condition(==)

  /** An entry of `from`; a missing alias is the empty string. */
  datatype FromInfo = FromInfo(table: string, alias: string)

  /** An entry of `join`: the join type as the caller wrote it ("left",
      "Inner", ...), the joined table, its alias and the ON predicate text. */
  datatype JoinInfo = JoinInfo(joinType: string, table: string, alias: string, on: string)

  /** One `field => direction` pair of the ORDER BY mapping, kept in insertion
      order; the direction may be empty. */
  datatype OrderEntry = OrderEntry(field: string, direction: string)

  /** `orderBy` is either a verbatim string or an ordered mapping. */
  datatype OrderBy = Verbatim(sql: string) | Fields(entries: seq<OrderEntry>)

  /** `limit`: offset first, then length. */
  datatype Limit = Limit(offset: nat, length: nat)

  /** The array returned by `getInfo()`. */
  datatype Info = Info(
    fields: seq<string>,
    from: seq<FromInfo>,
    join: seq<JoinInfo>,
    groupBy: seq<string>,
    having: seq<Condition>,
    orderBy: OrderBy,
    limit: Option<Limit>)

  /** The query object as the generator sees it: its snapshot, the text
      `getConditionString()` returns for the WHERE tree, and the text
      `_concatConditions()` returns for the snapshot's HAVING conditions. */
  datatype Query = Query(info: Info, conditionString: string, havingString: string)

  /** The snapshot of a query on which no builder method was called. */
  const EmptyInfo: Info := Info([], [], [], [], [], Fields([]), None)

  const EmptyQuery: Query := Query(EmptyInfo, "", "")
}
