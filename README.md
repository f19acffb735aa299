# Atomik SELECT generator, modelled in Dafny

This project models `Atomik_Db_Query_Generator`, the class of the Atomik PHP
framework's Db plugin that compiles a query into one SQL SELECT statement.
`generate($query)` stores the query and its `getInfo()` snapshot in the
fields `_query` and `_info`. It then writes `SELECT` and the comma-separated
field list, followed by the FROM, JOIN, WHERE, GROUP BY (with HAVING),
ORDER BY and LIMIT parts, in that fixed order. Each part comes from one
`_build…Part` helper, and the whole text is passed through `trim`.

Files:

- `php_strings.dfy` (module `PhpStrings`): the PHP built-ins the generator
  uses. These are `empty()` on a string (both `""` and `"0"` are empty),
  `trim`, `strtoupper` (ASCII letters only), `implode`, and the decimal text
  of an integer, with their properties.
- `query.dfy` (module `QueryModel`): the snapshot returned by `getInfo()` as
  a datatype. The query object is `Query(info, conditionString,
  havingString)`. The two strings are what `getConditionString()` and
  `_concatConditions($info['having'])` return.
- `clauses.dfy` (module `Clauses`): each clause as a function of the
  snapshot (`FromPart`, `JoinPart`, `WherePart`, `GroupByPart`,
  `OrderByPart`, `LimitPart`), the whole statement (`Untrimmed`, `Render`)
  and the lemmas about them.
- `generator.dfy` (module `QueryGenerator`): the class `Generator` with the
  fields `query` and `info`. `Generate` assigns both and then calls the six
  builders, which read them. The FROM, JOIN and ORDER BY builders loop as the
  PHP `foreach` loops do. Each builder is proved to return the matching
  clause function.
- `scenarios.dfy` (module `Scenarios`): the statements produced for a few
  small queries.

Where PHP's `empty()` and `is_string` decide the output, the model follows
the code exactly:

- WHERE is left out when the rendered condition text is PHP-empty. So a
  condition that renders as `"0"` drops the WHERE clause too. Aliases and
  ORDER BY directions equal to `"0"` are dropped in the same way.
- A verbatim ORDER BY string is always emitted, even when it is empty, so
  `Verbatim("")` gives ` ORDER BY `.
- The join type is upper-cased first and trimmed second (`Generator.php:83`).
  `PhpStrings.UpperTrimCommute` proves that the order does not matter.

## Model

| member | source | states |
|---|---|---|
| `PhpStrings.TrimLeft` | src/plugins/Db/libs/Atomik/Db/Query/Generator.php:45 | removes only PHP whitespace from the front, and leaves no whitespace at the front |
| `PhpStrings.TrimRight` | src/plugins/Db/libs/Atomik/Db/Query/Generator.php:45 | removes only PHP whitespace from the end, and leaves no whitespace at the end |
| `PhpStrings.TrimLeftIsSuffix` | src/plugins/Db/libs/Atomik/Db/Query/Generator.php:45 | what the front trim keeps is a suffix of its input |
| `PhpStrings.TrimRightIsPrefix` | src/plugins/Db/libs/Atomik/Db/Query/Generator.php:45 | what the end trim keeps is a prefix of its input |
| `PhpStrings.Trim` | src/plugins/Db/libs/Atomik/Db/Query/Generator.php:45 | `trim` returns a string no longer than its input with no PHP whitespace at either end |
| `PhpStrings.TrimShape` | src/plugins/Db/libs/Atomik/Db/Query/Generator.php:45 | `trim` returns the contiguous slice of its input between a leading and a trailing run of whitespace, and the slice neither starts nor ends with whitespace |
| `PhpStrings.TrimIdempotent` | src/plugins/Db/libs/Atomik/Db/Query/Generator.php:45 | trimming a trimmed string changes nothing |
| `PhpStrings.TrimKeepsPrefix` | src/plugins/Db/libs/Atomik/Db/Query/Generator.php:36-45 | a prefix that starts and ends with a non-space character survives `trim` unchanged at the front |
| `PhpStrings.TrimRightAppend` | src/plugins/Db/libs/Atomik/Db/Query/Generator.php:45 | trimming the end of `p + rest` only touches `rest` when `p` ends with a non-space character |
| `PhpStrings.UpperChar` | src/plugins/Db/libs/Atomik/Db/Query/Generator.php:83 | the result is never a lower-case ASCII letter; any other character is kept; whitespace stays whitespace and nothing else becomes whitespace |
| `PhpStrings.Upper` | src/plugins/Db/libs/Atomik/Db/Query/Generator.php:83 | `strtoupper` keeps the length and upper-cases each character in place |
| `PhpStrings.UpperIdempotent` | src/plugins/Db/libs/Atomik/Db/Query/Generator.php:83 | upper-casing twice is the same as upper-casing once |
| `PhpStrings.UpperTrimCommute` | src/plugins/Db/libs/Atomik/Db/Query/Generator.php:83 | upper-casing then trimming equals trimming then upper-casing |
| `PhpStrings.Implode` | src/plugins/Db/libs/Atomik/Db/Query/Generator.php:37 | the text of a non-empty list begins with its first part, unchanged |
| `PhpStrings.ImplodeCons` | src/plugins/Db/libs/Atomik/Db/Query/Generator.php:37 | the text of two or more parts is the first part, one separator, then the remaining parts imploded: every part appears in order with exactly one separator between neighbours |
| `PhpStrings.ImplodeLength` | src/plugins/Db/libs/Atomik/Db/Query/Generator.php:37 | the imploded text is exactly as long as all the parts together plus one separator for each pair of neighbouring parts |
| `PhpStrings.ImplodeConcat` | src/plugins/Db/libs/Atomik/Db/Query/Generator.php:66 | imploding two non-empty lists one after the other equals imploding each list and joining the results with one separator |
| `PhpStrings.ImplodeEmpty` | src/plugins/Db/libs/Atomik/Db/Query/Generator.php:120 | with a non-empty separator, the result is empty only for no parts or for a single empty part |
| `PhpStrings.Concat` | src/plugins/Db/libs/Atomik/Db/Query/Generator.php:82-87 | concatenating the parts gives a text exactly as long as all of them together: nothing is inserted between them |
| `PhpStrings.ConcatAppend` | src/plugins/Db/libs/Atomik/Db/Query/Generator.php:82-87 | concatenating the parts of `a + b` equals concatenating `a`'s parts and then `b`'s |
| `PhpStrings.NatToString` | src/plugins/Db/libs/Atomik/Db/Query/Generator.php:167 | the decimal text of a number is made of digits only, is not empty, and has no leading zero |
| `PhpStrings.ParseNatToString` | src/plugins/Db/libs/Atomik/Db/Query/Generator.php:167 | reading the decimal text back gives the number that was rendered |
| `PhpStrings.NatToStringInjective` | src/plugins/Db/libs/Atomik/Db/Query/Generator.php:167 | different numbers render as different texts |
| `Clauses.FromSql` | src/plugins/Db/libs/Atomik/Db/Query/Generator.php:60-63 | a FROM entry begins with its table name and is longer than it exactly when the alias is not PHP-empty |
| `Clauses.FromSqlAlias` | src/plugins/Db/libs/Atomik/Db/Query/Generator.php:60-63 | a FROM entry is the bare table name exactly when its alias is PHP-empty; otherwise it is `table AS alias` |
| `Clauses.FromPart` | src/plugins/Db/libs/Atomik/Db/Query/Generator.php:57-67 | the FROM part is empty exactly when there are no tables; otherwise it begins with ` FROM ` |
| `Clauses.FromPartAppend` | src/plugins/Db/libs/Atomik/Db/Query/Generator.php:57-66 | adding a table appends `, entry` to the FROM part (or starts ` FROM entry`); earlier entries keep their text and order |
| `Clauses.JoinKeyword` | src/plugins/Db/libs/Atomik/Db/Query/Generator.php:83 | the rendered join type is no longer than the one given and has no PHP whitespace at either end |
| `Clauses.JoinKeywordNormal` | src/plugins/Db/libs/Atomik/Db/Query/Generator.php:83 | the rendered join type has no lower-case ASCII letter and no whitespace at either end; it ignores the caller's letter case, and rendering it again changes nothing |
| `Clauses.JoinSql` | src/plugins/Db/libs/Atomik/Db/Query/Generator.php:83-86 | every JOIN clause is non-empty and starts with its own space, so consecutive clauses never run together |
| `Clauses.JoinPart` | src/plugins/Db/libs/Atomik/Db/Query/Generator.php:81-88 | the JOIN part is empty exactly when there are no joins |
| `Clauses.JoinPartConcat` | src/plugins/Db/libs/Atomik/Db/Query/Generator.php:82-87 | the JOIN part of `a + b` is the JOIN part of `a` followed by that of `b`, with no separator and no reordering |
| `Clauses.JoinPartAppend` | src/plugins/Db/libs/Atomik/Db/Query/Generator.php:83-86 | adding a join appends ` TYPE JOIN table[ AS alias] ON on` to the JOIN part |
| `Clauses.WherePart` | src/plugins/Db/libs/Atomik/Db/Query/Generator.php:102-105 | the WHERE part is empty exactly when the condition text is PHP-empty; otherwise it is ` WHERE ` followed by the text, unchanged |
| `Clauses.GroupByPart` | src/plugins/Db/libs/Atomik/Db/Query/Generator.php:119-124 | the GROUP BY part is empty exactly when there are no grouping expressions; otherwise it begins with ` GROUP BY ` |
| `Clauses.HavingOnlyWithGroupBy` | src/plugins/Db/libs/Atomik/Db/Query/Generator.php:119-124 | the part is the GROUP BY list alone, followed by ` HAVING text` exactly when there are both grouping expressions and HAVING conditions |
| `Clauses.OrderSql` | src/plugins/Db/libs/Atomik/Db/Query/Generator.php:145-148 | an ORDER BY entry begins with its field and is longer than it exactly when the direction is not PHP-empty |
| `Clauses.OrderByPart` | src/plugins/Db/libs/Atomik/Db/Query/Generator.php:138-152 | the ORDER BY part is empty exactly for an empty mapping (a verbatim string always gives text); otherwise it begins with ` ORDER BY ` |
| `Clauses.OrderByPresence` | src/plugins/Db/libs/Atomik/Db/Query/Generator.php:138-152 | a verbatim string is always emitted unchanged after ` ORDER BY `, even when it is empty |
| `Clauses.OrderByAppend` | src/plugins/Db/libs/Atomik/Db/Query/Generator.php:142-151 | adding a mapping entry appends `, field[ direction]` to the ORDER BY part; earlier entries keep their text and insertion order |
| `Clauses.LimitPart` | src/plugins/Db/libs/Atomik/Db/Query/Generator.php:166-167 | the LIMIT part is empty exactly when no limit is set; otherwise it begins with ` LIMIT ` |
| `Clauses.LimitPartRoundTrip` | src/plugins/Db/libs/Atomik/Db/Query/Generator.php:166-167 | reading the LIMIT part back gives the same limit: no part for no limit, and offset before the comma, length after it |
| `Clauses.LimitPartInjective` | src/plugins/Db/libs/Atomik/Db/Query/Generator.php:166-167 | different limits produce different LIMIT parts |
| `Clauses.TrimmedStatement` | src/plugins/Db/libs/Atomik/Db/Query/Generator.php:36-45 | `SELECT ` followed by any clause texts, once trimmed, still starts with SELECT and has no whitespace at either end |
| `Clauses.Render` | src/plugins/Db/libs/Atomik/Db/Query/Generator.php:36-45 | the statement starts with SELECT and has no PHP whitespace at either end, whatever the clauses hold |
| `Clauses.RenderShape` | src/plugins/Db/libs/Atomik/Db/Query/Generator.php:36-45 | every generated statement starts with SELECT, has no PHP whitespace at either end, and is unchanged by another trim |
| `Clauses.HavingIgnoredWithoutGroupBy` | src/plugins/Db/libs/Atomik/Db/Query/Generator.php:119-124 | changing the HAVING conditions or their text has no effect on the statement when there is no GROUP BY list |
| `Clauses.RenderEmptyQuery` | src/plugins/Db/libs/Atomik/Db/Query/Generator.php:36-45 | a query with nothing set compiles to `SELECT` |
| `QueryGenerator.Generator.constructor` | src/plugins/Db/libs/Atomik/Db/Query/Generator.php:20-24 | a new generator holds an empty query and snapshot |
| `QueryGenerator.Generator.Generate` | src/plugins/Db/libs/Atomik/Db/Query/Generator.php:31-46 | stores the query and its snapshot, and returns the trimmed concatenation of SELECT, the fields and the six parts in fixed order (`Render`); the result starts with SELECT and has no whitespace at either end |
| `QueryGenerator.Generator.BuildFromPart` | src/plugins/Db/libs/Atomik/Db/Query/Generator.php:53-70 | the loop returns the FROM part of the stored snapshot: empty without tables, else ` FROM ` + entries in order joined by `, ` |
| `QueryGenerator.Generator.BuildJoinPart` | src/plugins/Db/libs/Atomik/Db/Query/Generator.php:77-91 | the loop returns the in-order concatenation of one clause per stored join |
| `QueryGenerator.Generator.BuildWherePart` | src/plugins/Db/libs/Atomik/Db/Query/Generator.php:98-108 | returns ` WHERE ` + the query's condition text, or nothing when that text is PHP-empty |
| `QueryGenerator.Generator.BuildGroupByPart` | src/plugins/Db/libs/Atomik/Db/Query/Generator.php:115-127 | returns the GROUP BY list, with ` HAVING ` + the rendered HAVING conditions only inside it |
| `QueryGenerator.Generator.BuildOrderByPart` | src/plugins/Db/libs/Atomik/Db/Query/Generator.php:134-155 | returns the verbatim string after ` ORDER BY `, or the loop's entries in insertion order joined by `, ` (nothing for an empty mapping) |
| `QueryGenerator.Generator.BuildLimitPart` | src/plugins/Db/libs/Atomik/Db/Query/Generator.php:162-171 | returns ` LIMIT offset, length` when a limit is set, nothing otherwise |
| `QueryGenerator.RegenerateIsStable` | src/plugins/Db/libs/Atomik/Db/Query/Generator.php:31-46 | compiling a query, then another, then the first again on one generator returns the same text both times: earlier calls leave nothing behind |
| `Scenarios.UsersOverEighteen` | src/plugins/Db/libs/Atomik/Db/Query/Generator.php:36-45 | `fields=[*]`, `from=[users]`, condition `age > 18` compile to `SELECT * FROM users WHERE age > 18` |
| `Scenarios.TwoJoinsInOrder` | src/plugins/Db/libs/Atomik/Db/Query/Generator.php:82-87 | a `left` and then an `inner` join render as ` LEFT JOIN … INNER JOIN …`, in insertion order |
| `Scenarios.OrderByMapping` | src/plugins/Db/libs/Atomik/Db/Query/Generator.php:142-151 | the mapping `{x: "", y: "DESC"}` renders as ` ORDER BY x, y DESC` |
| `Scenarios.LimitTenTwenty` | src/plugins/Db/libs/Atomik/Db/Query/Generator.php:166-167 | offset 10 and length 20 render as ` LIMIT 10, 20` |
| `Scenarios.GroupByWithHaving` | src/plugins/Db/libs/Atomik/Db/Query/Generator.php:119-124 | `x` with no HAVING gives ` GROUP BY x`; with HAVING it gives ` GROUP BY x HAVING …`; with no GROUP BY it gives nothing |

## Left out

- `Atomik_Db_Query` is not part of this model. This covers `getInfo()`,
  `getConditionString()`, `_concatConditions()`, the rendering of condition
  trees with its parenthesisation rules, and the checks its builder methods
  run on limits and join types. The generator receives the two rendered
  condition strings as given values. HAVING conditions are values of an
  opaque type, because the generator only counts them.
- `Atomik_Db_Query_Generator_Interface` (required at `Generator.php:12`) is
  not part of this model. It declares `generate` and nothing else; alternative
  SQL dialects behind it are not modelled.
- PHP's loose typing is not modelled. A missing or `null` alias is the empty
  string, `limit` is either absent or a pair of naturals, and `orderBy` is
  either a string or an ordered list of `field => direction` pairs. PHP array
  keys are unique, but the generator does not rely on this, so the model does
  not enforce it.
- `QueryGenerator.Generator.constructor`: the PHP class has no constructor,
  and its fields start as `null`. The model starts them as the empty query,
  which no method reads before `Generate` overwrites it.
- Strings are sequences of Unicode characters, not PHP byte strings, and
  `strtoupper` is modelled as ASCII-only. That matches PHP 8.2 and later;
  before 8.2 `strtoupper` followed the current locale, which is not modelled.
- `Manifest.php` (plugin manifest XML reading and writing) and `Exception.php`
  (an empty exception class) are not part of the generator and are not
  modelled.
