# SQL text builders and explicit routes of a small PHP MVC framework

This project models, in Dafny, the parts of the framework that turn
configuration into text. Nothing here talks to a database or a web server.

- **The query builder's compiler** (`Gaara/Core/Model/QueryBuilder/Support.php`).
  A `QueryBuilder` object holds SQL fragments, which its fluent mutators set.
  `toSql` assembles them into one statement:
  - the head: select / update / insert into / replace into / delete from;
  - then join, where, group by, having, order by, limit and lock;
  - then any union clauses, each bracketed.

  For the five known statement kinds it also records a diagnostic copy,
  with every binding placeholder replaced by its quoted value (`rememberSql`).
  The file's helpers are modelled too:
  - `fieldFormat` back-quotes identifiers, including `func(table.column) as alias`;
  - `partFormat` trims a fragment, then pads it with single spaces;
  - `valueFormat` allocates placeholders `:n` from a counter that all builders share;
  - `getSelf` makes a fresh builder on the same table.
- **The active-record trait** (`Main/Core/Model/Traits/ObjectRelationalMappingTrait.php`).
  `__set` collects values by property name. `save` and `create` turn the
  collected table columns into a data clause of `:column` placeholders plus
  their bindings, then call the builder. The builder calls are recorded as a
  list, and what the database would report is a parameter.
- **The legacy base model** (`project/Main/Core/Model.class.php`).
  - It derives the table name from the class name.
  - It writes INSERT, UPDATE, REPLACE and SELECT text by concatenation.
  - It follows PHP's quirks: a string is false exactly when it is `''` or
    `'0'`, and `is_numeric` decides `selRow`.
- **Explicit route registration** (`project/Main/Core/Route.php`).
  - `group` pushes a rule onto five parallel stacks (middleware, namespace,
    prefix, as, domain), runs its callback and pops the stacks.
  - `match` folds the stacks and the normalised action (`formatAction`) into
    one route entry.
  - `get`/`post`/…/`any` call `match` with their verbs.
  - `paramAnalysis` maps parameter names to the matched url segments.

  A group's callback is modelled as the list of declarations it makes. The
  current host (`$_SERVER['HTTP_HOST']`) is a parameter.

The PHP built-ins these files rely on are written out with PHP 7 semantics
in `php_strings.dfy` and `php_array.dfy`:
- string truthiness, `strtr`, `str_replace`, `trim`/`ltrim`/`rtrim`;
- `strpos`/`stristr`, `explode`, `addslashes`, integer-to-string and `is_numeric`;
- ordered arrays with string keys, where assigning to an existing key
  replaces the value in place.

Files:
- `wrappers.dfy`: Option and Result.
- `php_strings.dfy` and `php_array.dfy`: the built-ins.
- `query_support.dfy`: module `QuerySupport`.
- `orm.dfy`: module `Orm`.
- `legacy_model.dfy`: module `LegacyModel`.
- `route.dfy`: module `Routing`.

## Model

| member | source | states |
|---|---|---|
| QuerySupport.DealSelect | Gaara/Core/Model/QueryBuilder/Support.php:56-63 | the select list, or '*' when none is set |
| QuerySupport.DealFromSelect | Gaara/Core/Model/QueryBuilder/Support.php:69-78 | nothing when noFrom is set; otherwise ' from ' and the from fragment, or the back-quoted table when none is set |
| QuerySupport.DealFrom | Gaara/Core/Model/QueryBuilder/Support.php:84-91 | the from fragment, or the back-quoted table when none is set |
| QuerySupport.DealData | Gaara/Core/Model/QueryBuilder/Support.php:97-104 | the data fragment after one space, or nothing when null |
| QuerySupport.DealJoin | Gaara/Core/Model/QueryBuilder/Support.php:110-116 | the join fragment after one space, or nothing when null |
| QuerySupport.DealWhere | Gaara/Core/Model/QueryBuilder/Support.php:122-134 | nothing when null; the bare fragment without a statement kind; otherwise ' where ' and the fragment |
| QuerySupport.DealGroup | Gaara/Core/Model/QueryBuilder/Support.php:140-147 | ' group by ' and the fragment, or nothing when null |
| QuerySupport.DealHaving | Gaara/Core/Model/QueryBuilder/Support.php:153-160 | ' having ' and the fragment, or nothing when null |
| QuerySupport.DealOrder | Gaara/Core/Model/QueryBuilder/Support.php:166-173 | ' order by ' and the fragment, or nothing when null |
| QuerySupport.DealLimit | Gaara/Core/Model/QueryBuilder/Support.php:179-186 | ' limit ' and the fragment, or nothing when null |
| QuerySupport.DealLock | Gaara/Core/Model/QueryBuilder/Support.php:192-199 | the lock fragment after one space, or nothing when null |
| QuerySupport.Remembers | Gaara/Core/Model/QueryBuilder/Support.php:18-36 | the remember flag: set exactly for the five known statement kinds, cleared by the default branch; used by Head's contract, DegenerateMode and ToSql |
| QuerySupport.Head | Gaara/Core/Model/QueryBuilder/Support.php:15-36 | the switch on sqlType: empty exactly when the kind is unset or not one of the five known kinds |
| QuerySupport.ClauseTail | Gaara/Core/Model/QueryBuilder/Support.php:38-39 | join, where, group, having, order, limit and lock appended after the head; its layout is stated by ClauseOrder |
| QuerySupport.Compile | Gaara/Core/Model/QueryBuilder/Support.php:15-50 | toSql's text: the statement alone without unions, else bracketed and followed by the union tail; stated by UnionLayout and StatementHead |
| QuerySupport.BracketFormat | Gaara/Core/Model/QueryBuilder/Support.php:206-208 | the value is wrapped in one '(' and one ')' and is exactly the text between them |
| QuerySupport.StatementHead | Gaara/Core/Model/QueryBuilder/Support.php:15-104 | by definition, the documented layout: for each statement kind the head is its keyword, then the select list ('*' when unset), then the from part (the back-quoted table when unset, nothing when noFrom), then ' set' and the data |
| QuerySupport.ClauseOrder | Gaara/Core/Model/QueryBuilder/Support.php:110-199 | by definition, the documented layout: after the head come join, where, group by, having, order by, limit and lock in that order; each contributes its keyword and text, or exactly nothing when null |
| QuerySupport.DegenerateMode | Gaara/Core/Model/QueryBuilder/Support.php:122-134 | by definition, the documented layout: without a statement kind there is no head, nothing is remembered, and the where fragment appears without the ' where ' keyword |
| QuerySupport.SubBuilderWhere | Gaara/Core/Model/QueryBuilder/Support.php:15-49 | a fresh builder with only a where fragment compiles to exactly that fragment |
| QuerySupport.UnionLayout | Gaara/Core/Model/QueryBuilder/Support.php:40-46 | with unions the statement is bracketed, then every union clause follows as type + '(' clause ')', in type order and then insertion order |
| QuerySupport.AppendUnions | Gaara/Core/Model/QueryBuilder/Support.php:42-45 | the nested union loops append exactly the union tail of the specification |
| QuerySupport.QuoteValues | Gaara/Core/Model/QueryBuilder/Support.php:218-220 | same keys in the same order, each value wrapped in single quotes |
| QuerySupport.QuotedBindings | Gaara/Core/Model/QueryBuilder/Support.php:218-221 | the map strtr consults has only ':'-led keys without spaces, and maps each binding key to its quoted value |
| QuerySupport.LiteralRecovered | Gaara/Core/Model/QueryBuilder/Support.php:217-221 | a placeholder spliced in as ' :n ' reappears in the diagnostic SQL as its bound value in single quotes, and scanning continues after it |
| QuerySupport.FieldFormat | Gaara/Core/Model/QueryBuilder/Support.php:247-280 | fieldFormat: an alias after a case-insensitive ' as ' is split off and back-quoted, the rest goes to OperandFormat; the shapes are stated by the FieldFormat* lemmas |
| QuerySupport.OperandFormat | Gaara/Core/Model/QueryBuilder/Support.php:255-279 | a call keeps its name and formats its argument, a dotted name is quoted part by part, a bare name is back-quoted; stated by OperandCall, OperandQualified and FieldFormatName |
| QuerySupport.QuoteDotted | Gaara/Core/Model/QueryBuilder/Support.php:274-277 | the first and last dot-separated segments, each back-quoted, joined by a dot; stated by QuoteDottedPair and QuoteDottedDropsMiddle |
| QuerySupport.NoSpaceNoAlias | Gaara/Core/Model/QueryBuilder/Support.php:248 | a field without spaces has no alias |
| QuerySupport.FieldFormatName | Gaara/Core/Model/QueryBuilder/Support.php:270-273 | a bare column name is back-quoted |
| QuerySupport.QuoteDottedPair | Gaara/Core/Model/QueryBuilder/Support.php:274-277 | table.column becomes `table`.`column` |
| QuerySupport.QuoteDottedDropsMiddle | Gaara/Core/Model/QueryBuilder/Support.php:275-276 | with two dots only the first and last segments survive |
| QuerySupport.OperandQualified | Gaara/Core/Model/QueryBuilder/Support.php:270-278 | a dotted name without a call is back-quoted part by part |
| QuerySupport.CallSplit | Gaara/Core/Model/QueryBuilder/Support.php:258-259 | strstr finds the first '(' and str_replace of the argument part leaves exactly the function name |
| QuerySupport.StripBrackets | Gaara/Core/Model/QueryBuilder/Support.php:260-261 | ltrim '(' then rtrim ')' removes exactly the outer brackets of a clean argument |
| QuerySupport.OperandCallShape | Gaara/Core/Model/QueryBuilder/Support.php:258-269 | a call keeps its function name and formats its argument (dotted or bare) inside new brackets |
| QuerySupport.OperandCall | Gaara/Core/Model/QueryBuilder/Support.php:258-269 | func(table.column) becomes func(`table`.`column`) |
| QuerySupport.FieldFormatAlias | Gaara/Core/Model/QueryBuilder/Support.php:248-253 | an alias after ' as ' in any letter case is cut off, back-quoted and written after a lower-case ' as '; the rest is formatted on its own |
| QuerySupport.FieldFormatCallAlias | Gaara/Core/Model/QueryBuilder/Support.php:244-280 | the documented example shape: func(table.column) as alias becomes func(`table`.`column`) as `alias` |
| QuerySupport.PartFormat | Gaara/Core/Model/QueryBuilder/Support.php:238-240 | the result is one space, then the fragment with a run of whitespace cut from each end (everything cut is whitespace, the slice in between kept as it is), then one space; the kept text has no whitespace at either end |
| QuerySupport.PartFormatIdempotent | Gaara/Core/Model/QueryBuilder/Support.php:238-240 | formatting a fragment twice gives the same text as formatting it once |
| QuerySupport.Token | Gaara/Core/Model/QueryBuilder/Support.php:288 | the placeholder ':' followed by the counter's decimal text; distinct values give distinct placeholders (TokenInjective) |
| QuerySupport.FreshBinding | Gaara/Core/Model/QueryBuilder/Support.php:288-289 | the next counter value's placeholder is not yet bound, so binding it appends and keeps the builder's invariant with the counter one further |
| QuerySupport.TokenInjective | Gaara/Core/Model/QueryBuilder/Support.php:288 | distinct counter values give distinct placeholders |
| QuerySupport.RememberedSql | Gaara/Core/Model/QueryBuilder/Support.php:217-223 | the diagnostic SQL: strtr of the statement with every binding value single-quoted; stated by LiteralRecovered |
| QuerySupport.QueryBuilder.ToSql | Gaara/Core/Model/QueryBuilder/Support.php:15-50 | returns the compiled statement; for the five known kinds the builder's and the model's lastSql become the diagnostic SQL, otherwise both stay unchanged |
| QuerySupport.QueryBuilder.RememberSql | Gaara/Core/Model/QueryBuilder/Support.php:217-223 | lastSql is strtr of the statement with the quoted bindings, and the model receives the same text |
| QuerySupport.QueryBuilder.GetSelf | Gaara/Core/Model/QueryBuilder/Support.php:229-231 | a new builder on the same table, key, counter and model, with no fragments and no bindings |
| QuerySupport.QueryBuilder.ValueFormat | Gaara/Core/Model/QueryBuilder/Support.php:287-291 | takes the next counter value, binds the value to a placeholder this builder has not used, and returns the placeholder padded with spaces; the binding invariant is kept |
| QuerySupport.SharedCounterPlaceholders | Gaara/Core/Model/QueryBuilder/Support.php:287-291 | after any sequence of valueFormat calls on a builder and its getSelf sub-builder, no placeholder is bound by both, and every call adds one binding |
| Orm.Placeholder | Main/Core/Model/Traits/ObjectRelationalMappingTrait.php:38 | the placeholder is ':' followed by the column name, so the name can be read back |
| Orm.Has | Main/Core/Model/Traits/ObjectRelationalMappingTrait.php:37 | array_key_exists on the collected values; stated through ParamLookup and BindLookup |
| Orm.Param | Main/Core/Model/Traits/ObjectRelationalMappingTrait.php:36-42 | the data clause built column by column in table order; stated by ParamLookup and ParamOrder |
| Orm.Bind | Main/Core/Model/Traits/ObjectRelationalMappingTrait.php:36-42 | the bindings built column by column in table order; stated by BindLookup |
| Orm.ParamLookup | Main/Core/Model/Traits/ObjectRelationalMappingTrait.php:36-42 | a column is in the data clause exactly when it is a table column with a collected value, and its entry is its placeholder |
| Orm.BindLookup | Main/Core/Model/Traits/ObjectRelationalMappingTrait.php:36-42 | a key is bound exactly when it is the placeholder of such a column, and it is bound to the collected value |
| Orm.PlaceholdersBound | Main/Core/Model/Traits/ObjectRelationalMappingTrait.php:38-40 | every placeholder of the data clause is bound, and every binding belongs to one |
| Orm.ParamOrder | Main/Core/Model/Traits/ObjectRelationalMappingTrait.php:36-42 | with distinct table columns, the data clause lists the collected columns once each, in table order |
| Orm.OrmRecord.Set | Main/Core/Model/Traits/ObjectRelationalMappingTrait.php:24-26 | the value is stored under the name, replacing an earlier one in place |
| Orm.OrmRecord.CollectBindings | Main/Core/Model/Traits/ObjectRelationalMappingTrait.php:34-42 | the loop produces exactly the specified data clause and bindings |
| Orm.OrmRecord.Save | Main/Core/Model/Traits/ObjectRelationalMappingTrait.php:33-50 | fails with 'model ORM save without key' and no builder call exactly when no key is given and none is collected; otherwise issues data, where on the key (explicit first) and update, and returns the row count |
| Orm.OrmRecord.Create | Main/Core/Model/Traits/ObjectRelationalMappingTrait.php:56-68 | issues the data clause and an insert with the bindings, and returns the insert's result |
| LegacyModel.LastIndexOf | project/Main/Core/Model.class.php:41 | strrpos for one character: the index holds it and no later index does; None when it is absent |
| LegacyModel.ShortNameAsWritten | project/Main/Core/Model.class.php:41 | substr after strrpos + 1 as written: a backslash-free suffix of the class name, which for a global class starts one character late |
| LegacyModel.ShortName | project/Main/Core/Model.class.php:41 | the intended short name: a backslash-free suffix of the class name, the whole name when there is no backslash |
| LegacyModel.ShortNameNamespaced | project/Main/Core/Model.class.php:41 | for a namespaced class the code as written and the intended short name agree |
| LegacyModel.ShortNameGlobalClass | project/Main/Core/Model.class.php:41 | a class without a namespace loses its first character as written |
| LegacyModel.ShortNameIsLastSegment | project/Main/Core/Model.class.php:41 | the short name of ns\Base is Base |
| LegacyModel.DefaultTableName | project/Main/Core/Model.class.php:42 | strtr of the corrected short name with 'Model' mapped to ''; stated by DefaultTableOfModelClass |
| LegacyModel.DefaultTableNameAsWritten | project/Main/Core/Model.class.php:41-42 | strtr of the as-written short name with 'Model' mapped to ''; stated by DefaultTableOfModelClass for namespaced classes |
| LegacyModel.StripModelSuffix | project/Main/Core/Model.class.php:42 | when the first 'Model' in base + 'Model' is the suffix, strtr leaves exactly base |
| LegacyModel.DefaultTableOfModelClass | project/Main/Core/Model.class.php:40-42 | class ns\BaseModel gets table name Base, both as written and as corrected, whenever 'Model' does not start inside Base (MemberModel gives Member) |
| LegacyModel.DefaultTableOfGlobalModelClass | project/Main/Core/Model.class.php:40-42 | with the corrected short name, a class BaseModel outside any namespace also gets table name Base, under the same condition on Base |
| LegacyModel.TruthyJoin | project/Main/Core/Model.class.php:54 | the column-list accumulation, a comma only after truthy text; stated by TruthyJoinIsJoin, TruthyJoinSnoc and FalsyFirstPiece |
| LegacyModel.TruthyJoinIsJoin | project/Main/Core/Model.class.php:54 | when the first column name is truthy, the list is the plain comma join |
| LegacyModel.TruthyJoinSnoc | project/Main/Core/Model.class.php:54 | each column is appended after a comma exactly when the text so far is truthy |
| LegacyModel.FalsyFirstPiece | project/Main/Core/Model.class.php:54 | a first column named '0' or '' is glued to the next one without a comma |
| LegacyModel.Escape | project/Main/Core/Model.class.php:55 | the value passed through addslashes exactly when the flag is set; addslashes loses nothing (StripAddSlashes) |
| LegacyModel.ValueTexts | project/Main/Core/Model.class.php:55-56 | one single-quoted value per column, escaped only when the flag is set |
| LegacyModel.Assignments | project/Main/Core/Model.class.php:65-66 | one column='value' per column, escaped only when the flag is set |
| LegacyModel.QuotedListsJoined | project/Main/Core/Model.class.php:56 | quoted values and assignments are never falsy, so those lists are always plain comma joins |
| LegacyModel.ColumnLists | project/Main/Core/Model.class.php:51-57 | the loop yields the truthiness-joined column list and the comma-joined quoted values |
| LegacyModel.AssignmentList | project/Main/Core/Model.class.php:63-67 | the loop yields the comma-joined assignments |
| LegacyModel.Model.GetThisTable | project/Main/Core/Model.class.php:39-44 | a preset table name is kept, an empty one is derived from the class name (as written for namespaced classes); the table is the prefix plus the name |
| LegacyModel.Model.Tbname | project/Main/Core/Model.class.php:45-47 | returns the prefixed table |
| LegacyModel.Model.InsertData | project/Main/Core/Model.class.php:50-60 | INSERT INTO table (columns) VALUES (quoted values), columns and values in the same order; a plain comma join when the first column is truthy |
| LegacyModel.Model.UpdateData | project/Main/Core/Model.class.php:62-70 | UPDATE table SET assignments WHERE key=value, the key's value unquoted and unescaped, and empty when the key is missing |
| LegacyModel.Model.ModifyData | project/Main/Core/Model.class.php:72-81 | REPLACE INTO with the values quoted but never escaped |
| LegacyModel.ArgTruthy | project/Main/Core/Model.class.php:84 | PHP truthiness of selAll's and selRow's argument: true, a non-zero int, or a truthy string |
| LegacyModel.ArgText | project/Main/Core/Model.class.php:84 | the argument as concatenated: '1' or '' for a bool, the decimal text of an int, the string itself |
| LegacyModel.ArgNumeric | project/Main/Core/Model.class.php:90 | is_numeric of the argument: never a bool, always an int, a string by its form; ints' texts are numeric (IntTextIsNumeric, SelRowByIdText) |
| LegacyModel.Model.SelAll | project/Main/Core/Model.class.php:83-87 | select * from the table, with ' where ' and the argument only when the argument is truthy; compared with selRow by SelRowNonNumeric |
| LegacyModel.Model.SelRow | project/Main/Core/Model.class.php:89-93 | a numeric argument selects by the quoted primary key, otherwise as selAll; stated by SelRowNonNumeric and SelRowById |
| LegacyModel.Model.SelRowNonNumeric | project/Main/Core/Model.class.php:83-93 | a non-numeric argument filters selRow exactly as selAll; a falsy one filters neither |
| LegacyModel.Model.SelRowById | project/Main/Core/Model.class.php:84-90 | an id selects by primary key, even 0, which selAll treats as no filter |
| LegacyModel.Model.SelRowByIdText | project/Main/Core/Model.class.php:90 | the decimal text of an id selects the same row as the id |
| PhpArray.Put | Main/Core/Model/Traits/ObjectRelationalMappingTrait.php:25 | the key then maps to the value, other keys are unchanged, keys stay distinct, and a new key is appended at the end |
| PhpArray.Lookup | project/Main/Core/Model.class.php:68 | a value is found exactly when some entry has the key |
| PhpArray.LookupFirst | project/Main/Core/Model.class.php:68 | the value found is that of the first entry holding the key |
| PhpStrings.Truthy | project/Main/Core/Model.class.php:54 | PHP string truthiness: false exactly for '' and '0'; used by TruthyJoinSnoc, FalsyFirstPiece and QuotedListsJoined |
| PhpStrings.ReplaceAll | Gaara/Core/Model/QueryBuilder/Support.php:259 | str_replace with one search string, as strtr with one pair; stated by ReplaceCharEverywhere and ReplaceCharRemoves |
| PhpStrings.LTrim | project/Main/Core/Route.php:139 | ltrim: the longest suffix that starts outside the set, everything cut being in the set |
| PhpStrings.RTrim | Gaara/Core/Model/QueryBuilder/Support.php:261 | rtrim: the longest prefix that ends outside the set, everything cut being in the set |
| PhpStrings.IndexOfIgnoreCase | Gaara/Core/Model/QueryBuilder/Support.php:248 | stristr's position: the first index where the pattern occurs ignoring ASCII case, none when it never does |
| PhpStrings.Join | project/Main/Core/Model.class.php:56 | implode: the pieces with the separator between each two; explode then implode gives the text back (ExplodeJoin), and the value and assignment loops build exactly this join (QuotedListsJoined) |
| PhpStrings.Strtr | project/Main/Core/Model.class.php:42 | strtr: the longest key at each position is replaced, scanning resumes after it, other characters are copied; stated by StrtrSplicedKey and StrtrSkipsNonMatches |
| PhpStrings.StrtrSkipsNonMatches | project/Main/Core/Model.class.php:42 | with one key, text where the key does not occur is copied through unchanged |
| PhpStrings.Trim | Gaara/Core/Model/QueryBuilder/Support.php:239 | ltrim then rtrim of the given characters; stated by TrimIdempotent, TrimmedEnds and TrimIsSlice |
| PhpStrings.Explode | Gaara/Core/Model/QueryBuilder/Support.php:250 | the pieces between occurrences of the separator, at least one and none containing it; stated by ExplodeJoin |
| PhpStrings.AddSlashes | project/Main/Core/Model.class.php:55 | a backslash before every single quote, double quote and backslash, and NUL written as backslash-zero; stated by StripAddSlashes |
| PhpStrings.IsNumericString | project/Main/Core/Model.class.php:90 | is_numeric on a string: optional leading white space and sign, digits with an optional point, an optional exponent; stated by IntTextIsNumeric |
| PhpStrings.StrtrSplicedKey | Gaara/Core/Model/QueryBuilder/Support.php:221 | strtr replaces a space-delimited key as a whole and does not rescan the replacement |
| PhpStrings.TrimIdempotent | Gaara/Core/Model/QueryBuilder/Support.php:239 | trimming trimmed text changes nothing |
| PhpStrings.ExplodeJoin | Gaara/Core/Model/QueryBuilder/Support.php:250 | joining explode's pieces with the separator gives the string back |
| PhpStrings.StripAddSlashes | project/Main/Core/Model.class.php:55 | addslashes can be undone, so escaping loses nothing |
| PhpStrings.IntTextIsNumeric | project/Main/Core/Model.class.php:90 | the decimal text of any int is numeric |
| PhpStrings.TrimIsSlice | Gaara/Core/Model/QueryBuilder/Support.php:239 | trim keeps a contiguous slice of its input and cuts only characters of the given set before and after it |
| PhpStrings.TrimBounds | Gaara/Core/Model/QueryBuilder/Support.php:239 | the two cut points of trim: the result is the slice between them, and everything before the first and from the second on belongs to the set |
| PhpStrings.IndexFrom | Gaara/Core/Model/QueryBuilder/Support.php:271 | strpos from an offset: the index found holds an occurrence, no earlier index at or after the offset does, and none at all when the result is none |
| PhpStrings.IndexOf | Gaara/Core/Model/QueryBuilder/Support.php:258 | the first occurrence of the pattern, which strstr cuts at: the index found holds an occurrence and no earlier index does; none means the pattern occurs nowhere |
| PhpStrings.Contains | Gaara/Core/Model/QueryBuilder/Support.php:262 | strstr is truthy (and strpos is not false) exactly when the pattern occurs at some index |
| PhpStrings.NatToString | Gaara/Core/Model/QueryBuilder/Support.php:288 | the (string) cast of a counter value: non-empty decimal digits with no leading zero except for 0 itself, whose decimal value is the number |
| PhpStrings.IntToString | project/Main/Core/Model.class.php:90 | an int concatenated into SQL text: a minus sign exactly when negative, then digits without a leading zero whose value is the magnitude |
| Routing.NormalizeName | project/Main/Core/Route.php:454 | the name with every '/' turned into a backslash and a run of backslashes cut from each end, the slice in between kept as it is: the result has no '/' and neither starts nor ends with a backslash |
| Routing.NormalizeNameIdempotent | project/Main/Core/Route.php:454 | normalising a normalised name changes nothing |
| Routing.FormatAction | project/Main/Core/Route.php:438-472 | the empty array exactly for an action that is not an array, closure or string, or an array whose uses is neither; closures and strings get every key defaulted; an array keeps or defaults middleware, alias and domain; a closure uses is kept as is with namespace and prefix cleared; a string uses is normalised, and namespace and prefix are kept or defaulted; names carry no '/' |
| Routing.LastTruthyIndex | project/Main/Core/Route.php:380-385 | none when no entry is non-empty; otherwise a non-empty entry after which every entry is empty |
| Routing.EntriesCount | project/Main/Core/Route.php:417-432 | every declaration registers exactly one entry, however deeply it is nested |
| Routing.OrDefault | project/Main/Core/Route.php:419-423 | isset($rule[k]) ? $rule[k] : default; used by Push and FormatAction |
| Routing.PrefixPart | project/Main/Core/Route.php:336-343 | a url or alias prefix, skipped when empty ('' or '0'); the loops are proved equal to its fold (ConcatNonEmpty) |
| Routing.NamespacePart | project/Main/Core/Route.php:352-357 | a namespace, skipped when empty, else normalised and followed by a backslash; the loop is proved equal to its fold (NamespacePrefix) |
| Routing.LastTruthy | project/Main/Core/Route.php:376-386 | the last non-empty group domain, or the fallback; stated by LastTruthyIndex, LastNonEmpty and DomainPrecedence |
| Routing.Push | project/Main/Core/Route.php:419-423 | a group pushes one entry on each of the five stacks, each defaulted when the rule does not set it |
| Routing.UsesFor | project/Main/Core/Route.php:348-360 | a closure is kept; otherwise inside a group the namespaces prefix the name; with no group uses is null; computed by MatchUses |
| Routing.MiddlewareFor | project/Main/Core/Route.php:389-399 | empty with no group; inside groups the merged group lists then the action's, null for a rejected action; computed by MatchMiddleware |
| Routing.DomainFor | project/Main/Core/Route.php:376-386 | the action's domain when truthy, else the last truthy group domain, else the host; stated by DomainPrecedence |
| Routing.RouteFor | project/Main/Core/Route.php:330-410 | the entry match registers: prefixed url, methods, middleware, domain, prefixed alias and uses; stated by OutsideGroups, InsideGroup and DomainPrecedence |
| Routing.OutsideGroups | project/Main/Core/Route.php:330-410 | by definition, the documented layout: outside any group: the url and alias are the declaration's own, the middleware is empty (the action's is dropped), uses survives only for a closure, and the domain is the action's or the host |
| Routing.InsideGroup | project/Main/Core/Route.php:335-399 | inside a group: url and alias get the enclosing prefixes then the new one; middleware is outermost first then the action's; a name gets every enclosing namespace |
| Routing.DomainPrecedence | project/Main/Core/Route.php:376-386 | the action's domain when non-empty, else the innermost non-empty group domain, else the host |
| Routing.ConcatNonEmpty | project/Main/Core/Route.php:336-344 | the prefix and alias loops concatenate the non-empty entries |
| Routing.NamespacePrefix | project/Main/Core/Route.php:352-357 | the namespace loop concatenates each non-empty normalised namespace plus a backslash |
| Routing.LastNonEmpty | project/Main/Core/Route.php:381-384 | the domain loop leaves the last non-empty group domain, or the host |
| Routing.MergeMiddleware | project/Main/Core/Route.php:390-396 | the middleware loop concatenates the group lists in order |
| Routing.MatchUses | project/Main/Core/Route.php:348-360 | a closure is kept; otherwise, inside a namespace group, the name is prefixed; otherwise uses is null |
| Routing.MatchDomain | project/Main/Core/Route.php:376-386 | the domain block computes the specified domain |
| Routing.MatchMiddleware | project/Main/Core/Route.php:389-399 | empty outside groups; inside groups, the merged lists then the action's, null for an action formatAction rejects |
| Routing.ArgumentFor | project/Main/Core/Route.php:136-140 | segment k+1 without its leading '/', or null when missing or empty |
| Routing.NamedArguments | project/Main/Core/Route.php:136-140 | the named-argument loop as a fold; stated by NamedArgumentsPairs, NamedArgumentsLookup and NamedArgumentsKeys |
| Routing.PairingSnoc | project/Main/Core/Route.php:136-140 | with distinct names the last parameter is new, so its assignment appends its pair |
| Routing.NamedArgumentsPairs | project/Main/Core/Route.php:136-140 | with distinct names, the named-argument loop pairs parameter i with argument i+1, in parameter order |
| Routing.NamedArgumentsLookup | project/Main/Core/Route.php:136-140 | with distinct names, parameter i maps to segment i+1 without leading '/', or null when that segment is missing or empty |
| Routing.NamedArgumentsKeys | project/Main/Core/Route.php:136-140 | with distinct names, the result lists the parameters in order |
| Routing.ParamAnalysis | project/Main/Core/Route.php:131-144 | no parameters gives the request object alone; otherwise the named arguments |
| Routing.Router.constructor | project/Main/Core/Route.php:283-289 | no routes and five empty stacks |
| Routing.Router.Match | project/Main/Core/Route.php:330-410 | appends exactly one entry, the specified one for the open groups; nothing else changes |
| Routing.Router.Post | project/Main/Core/Route.php:291-293 | match with ['post'] |
| Routing.Router.Get | project/Main/Core/Route.php:295-297 | match with ['get'] |
| Routing.Router.Put | project/Main/Core/Route.php:299-301 | match with ['put'] |
| Routing.Router.Delete | project/Main/Core/Route.php:303-305 | match with ['delete'] |
| Routing.Router.Head | project/Main/Core/Route.php:307-309 | match with ['head'] |
| Routing.Router.Patch | project/Main/Core/Route.php:311-313 | match with ['patch'] |
| Routing.Router.Any | project/Main/Core/Route.php:320-322 | match with all six verbs of allowMethod (get, post, put, delete, head, patch) |
| Routing.Router.Run | project/Main/Core/Route.php:426 | the callback's declarations register their entries in order, and the stacks end as they began |
| Routing.Router.Declare | project/Main/Core/Route.php:417-432 | one declaration of a group callback, a route or a nested group, registers its entries and leaves the stacks as they were |
| Routing.Router.Group | project/Main/Core/Route.php:417-432 | pushes the rule, defaulting unset keys; registers the body's entries under it; pops, so the stacks end as they began |

## Left out

- Database access is not modelled. This covers the connection, `lastInsertId`,
  `execute`, `getAll`, `getRow`, transactions, the cache and the container.
  Statements are returned as text, and the builder calls of the active-record
  trait are recorded, not executed.
- The query builder's fluent mutators are not modelled, nor its constructor
  outside `getSelf`. The fragments are fields that are set directly.
- The legacy model's constructor is not modelled: as written it runs a fixed
  INSERT, dumps it and exits before `get_thisTable`. Its `__call`,
  `main_checkUser` and the rest of the file are also not modelled.
- The Request object built by `paramAnalysis` (`obj('Request', true, $arr)`)
  is a side effect that is not modelled. Only the returned array is.
- `paramAnalysis` is modelled for a list-shaped parameter array (keys 0..n-1).
  PHP's conversion of numeric-string keys to ints is not modelled.
- Route dispatch, url matching and the regex built from a route are not
  modelled.
- Middleware given as a string instead of a list is not modelled.
- Action-level `namespace` and `prefix` are computed by `formatAction` but
  never read by `match`.
- LegacyModel.Model.GetThisTable: for a class outside any namespace the
  table name follows the corrected short name (`UserModel` gives `User`),
  not the program as written, which drops the first letter (`ser`); see
  "## Findings". For namespaced classes the ensures also states the
  as-written name, and the two agree there.
- `strtr` with an empty key: PHP 7 returns false for the whole call. The
  model ignores empty keys; no caller here passes one.
- Floats as the argument of `selAll`/`selRow` are not modelled; the argument
  is false, an int or a string.
- QuerySupport.FieldFormat: proved for the documented shapes only. These are
  a bare name, table.column, a.b.c, func(table.column) and any of them with
  an alias. Nested calls and fields with spaces but no alias have no lemma.
- Integers are unbounded. The binding counter's overflow to float after
  PHP_INT_MAX is not modelled.

## Findings

| source | as written | input that shows it | evidently intended | confidence | as-written member | corrected member |
|---|---|---|---|---|---|---|
| project/Main/Core/Model.class.php:41 | the short name starts one past the last backslash; when there is none, strrpos gives false, false + 1 is 1, and the first character is dropped | a model class `UserModel` in the global namespace gets short name `serModel` and table name `ser` | the whole class name when there is no namespace, giving table `User` | not executed | LegacyModel.ShortNameGlobalClass | LegacyModel.DefaultTableOfGlobalModelClass |
