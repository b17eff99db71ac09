# PokeDB core, modelled in Dafny

PokeDB builds an SQLite database of Pokémon, moves and learnsets. It starts from
JSON files converted from Pokémon Showdown's TypeScript data, and then answers
searches over that database. This project models the parts that decide WHAT
is written and asked:

- **Showdown conversion.** `collect_data` turns the lines of a Showdown `.ts`
  file into YAML text. It drops the preamble, drops code blocks and marks each
  section that had code with `callback: True`.
- **Table loader.** The `Injector` reads one JSON document and issues a
  `CREATE TABLE` for its schema of `Conversion` rules. Then, for each record,
  it flattens the record, resolves every rule's path(s), reduces the
  candidate values to one, coerces that value to an SQL literal, and issues
  one `INSERT`.
- **Learnset loader.** `Learnset` collects every move, splits the moves over
  tables of at most 100 columns, and issues per-Pokémon `INSERT`s.
- **`Database` handler.** `execute`, `create_table` and `find_name`.
- **Helpers.** The SQL-identifier sanitiser and the list formatter.
- **Search command builders.** `TypeSearch.search` and the `cmd` methods of
  the stat, move and type searches.

SQLite is not modelled. A `Database` object holds `log`, the sequence of SQL
texts it has been asked to execute in order, and every operation is stated
in terms of the commands it appends to that log. Python exceptions are a
`PyError` value: an operation either returns `Failure(e)` or `Fail(e)`, or
succeeds. The log then holds exactly the commands issued before the
exception.

Text is `seq<char>` with ASCII case rules. JSON values are the `Json.Value`
datatype. An object keeps its entries in file order, and a float keeps the
text of its `repr`.

Module layout, one file each:

- `Builtins`: Python built-ins, `Option`/`Result`/`Outcome` and the exceptions.
- `Json`: decoded JSON values and Python's `==`, `str()`, `bool()` and `< 0` on them.
- `CleanSql`: `src/utils/clean_sql.py`.
- `ListFormat`: `src/utils/ListFormat.py`.
- `Database`: `src/Database.py`.
- `StatSearch`, `MoveSearch`, `TypeSearch`: `src/Search/*.py`.
- `BaseSearch`: the `TypeSearch` class of `src/Search/BaseSearch.py`.
- `ShowdownInterface`: `src/ShowdownInterface.py`.
- `Mapper`: the record-to-row mapping inside `Injector.fill`.
- `CreateDatabase`: class `Injector`.
- `Learnsets`, `LearnsetProperties`: class `Learnset` and the facts about it.

## Model

| member | source | states |
|---|---|---|
| Builtins.Lower | src/Database.py:67 | `str.lower` keeps the length and lowers each character |
| Builtins.TitleAt | src/Search/BaseSearch.py:11 | `str.title` upper-cases exactly the letters not preceded by a letter and lowers the other letters |
| Builtins.TitleIgnoresCase | src/Search/BaseSearch.py:11-13 | title-casing ignores the input's case and is idempotent |
| Builtins.TitleAllIgnoresCase | src/Search/BaseSearch.py:13 | the same for a list comprehension of `title()` |
| Builtins.TokenLength | src/Search/StatSearch.py:13 | the first token of `split()` is the longest space-free prefix |
| Builtins.Split | src/Search/StatSearch.py:13 | `str.split()` yields only non-empty, space-free tokens |
| Builtins.SplitJoin | src/Search/StatSearch.py:13 | splitting tokens joined by one space gives the tokens back |
| Builtins.JoinSnoc | src/Database.py:53 | `sep.join` of a list extended by one item adds the separator and the item |
| Builtins.JoinLength | src/Database.py:53 | the length of a join is the items' lengths plus one separator between each pair |
| Builtins.JoinCount | src/Search/BaseSearch.py:29 | a character's count in a join is its count in the items plus in the separators |
| Builtins.CountConcat | src/utils/ListFormat.py:11 | character counts add over concatenation |
| Builtins.NatToString | src/CreateDatabase.py:175 | `str()` of a non-negative int is a digit string with no leading zero whose value is the int |
| Builtins.IntToString | src/Search/StatSearch.py:16 | `int(str(n)) == n`, and `str(n)` is non-empty and space-free |
| Builtins.DigitChar | src/CreateDatabase.py:175 | each digit value has a digit character of that value |
| Builtins.TrimStart | src/ShowdownInterface.py:48 | `lstrip()` never lengthens the text |
| Builtins.TrimEnd | src/ShowdownInterface.py:48 | `rstrip()` never lengthens the text |
| Builtins.TrimStartMeaning | src/ShowdownInterface.py:48 | `lstrip()` removes exactly the leading whitespace: the result is a suffix, everything cut is whitespace, and the result is empty or starts with a non-space |
| Builtins.TrimEndMeaning | src/ShowdownInterface.py:48 | `rstrip()` removes exactly the trailing whitespace: the result is a prefix, everything cut is whitespace, and the result is empty or ends with a non-space |
| Builtins.StripMeaning | src/ShowdownInterface.py:48 | `strip()` keeps one contiguous slice, cuts only whitespace at both ends, and the slice is empty or has non-space ends |
| Builtins.ReplaceKeepsAbsent | src/ShowdownInterface.py:72-73 | `str.replace` introduces no character absent from the text and the replacement |
| Builtins.ReplaceRemovesChar | src/ShowdownInterface.py:72 | replacing every tab by spaces leaves no tab |
| Builtins.ReplaceDoubleSlash | src/ShowdownInterface.py:73 | after replacing `//` by `#` no `//` remains, and a leading `/` was there before |
| Json.PyEqRefl | src/CreateDatabase.py:161 | Python `==` on decoded values is reflexive |
| Json.PyEqSymmetric | src/CreateDatabase.py:161 | Python `==` on decoded values is symmetric |
| Json.BoolIntEq | src/CreateDatabase.py:161 | `True == 1` and `False == 0`, in both directions |
| Json.AsInt | src/CreateDatabase.py:161 | exactly bools and ints take part in numeric equality |
| Json.QuoteText | src/CreateDatabase.py:162 | `repr` of a string wraps it in one matching quote on each side |
| Json.PyStrScalars | src/CreateDatabase.py:171-175 | `str()` of an int parses back to it; of a bool is `True`/`False`; of None is `None`; of a string is itself |
| Json.LessThanZero | src/CreateDatabase.py:115 | `num < 0` raises TypeError unless `num` is a number, and compares ints by value |
| Json.LastIndex | src/CreateDatabase.py:107 | the position of the last entry with a key, or -1 when no entry has it |
| Json.Get | src/CreateDatabase.py:208 | `dict.get` finds a value stored under the key, and None exactly when no entry has the key |
| Json.Keys | src/CreateDatabase.py:87 | the key set of an object is exactly the keys `get` finds |
| CleanSql.OnlyAllowed | src/utils/clean_sql.py:4-8 | the output holds only ASCII letters, digits and `_` |
| CleanSql.KeepsExactlyAllowed | src/utils/clean_sql.py:4-8 | each allowed character keeps its number of occurrences, and every other character is dropped |
| CleanSql.KeepsOrder | src/utils/clean_sql.py:4-8 | the output is a subsequence of the input |
| CleanSql.KeepsCleanText | src/utils/clean_sql.py:4-8 | text that is already clean comes back unchanged |
| CleanSql.Idempotent | src/utils/clean_sql.py:4-8 | cleaning twice is cleaning once |
| CleanSql.CleanConcat | src/utils/clean_sql.py:4-8 | cleaning distributes over concatenation |
| CleanSql.CleanFromSuffix | src/utils/clean_sql.py:4-8 | the scan from position `i` cleans exactly the suffix from `i` |
| CleanSql.Example | src/utils/clean_sql.py:12-14 | `"my table-n'ame!_123"` becomes `"mytablename_123"` |
| ListFormat.QuotedItems | src/utils/ListFormat.py:6 | each item is wrapped in single quotes, the order and the number of items kept |
| ListFormat.FormatList | src/utils/ListFormat.py:1-11 | the loop builds the as-written text: quoted items joined by `,`, preceded and followed by `(` when bracketed |
| ListFormat.FormatListClosed | src/utils/ListFormat.py:1-11 | the corrected loop closes the bracket with `)` |
| ListFormat.QuotedListSnoc | src/utils/ListFormat.py:6 | one more item adds a comma and its quoted text |
| ListFormat.EmptyList | src/utils/ListFormat.py:1-11 | an empty list gives `((` as written, and `()` when corrected |
| ListFormat.QuotedItemsLength | src/utils/ListFormat.py:6 | quoting adds two characters per item |
| ListFormat.FormattedLength | src/utils/ListFormat.py:1-11 | both versions have the same length: items, quotes, commas and brackets |
| ListFormat.QuotedItemsCount | src/utils/ListFormat.py:6 | quoting adds two `'` per item and no other character |
| ListFormat.QuotedListCount | src/utils/ListFormat.py:6 | a character's count in the joined list is its count in the items plus the quotes and commas |
| ListFormat.FormattedUnbalanced | src/utils/ListFormat.py:8-9 | as written, the bracketed text has two more `(` than `)` whenever the items are balanced |
| ListFormat.ClosedBalanced | src/utils/ListFormat.py:8-9 | corrected, the bracketed text of balanced items is balanced |
| ListFormat.ClosedDiffersOnlyAtEnd | src/utils/ListFormat.py:8-9 | the two versions agree everywhere but in the last character, and agree fully without brackets |
| ListFormat.FormatListExample | src/utils/ListFormat.py:8-9 | `["Water","Dragon"]` gives `('Water','Dragon'(` as written and `('Water','Dragon')` corrected |
| Database.Database.constructor | src/Database.py:11-12 | a handler remembers its file and has executed nothing |
| Database.Database.Execute | src/Database.py:22-37 | executing a command appends exactly that command to the log |
| Database.Database.CreateTable | src/Database.py:39-56 | the log grows by the optional DROP and then the CREATE, or by only the DROP before the empty-table ValueError |
| Database.Database.FindName | src/Database.py:58-88 | a name query issues one SELECT with the parsed `WHERE`, and no name issues nothing |
| Database.TableFieldsPairs | src/Database.py:46-48 | `zip` stops at the shorter list, and field `i` is `column_i type_i` |
| Database.CreateTableFailsIffEmpty | src/Database.py:50-51 | create_table raises ValueError exactly when the columns or the types are empty |
| Database.CreateTableDropsFirst | src/Database.py:43-56 | with force the first command is the DROP; on failure nothing but the DROP is issued; on success the CREATE comes last |
| Database.CreateTableExampleFields | src/Database.py:47-48 | three columns with two types give two fields |
| Database.CreateTableExample | src/Database.py:39-56 | the CREATE text for a small schema, written out |
| Database.FindNameWhere | src/Database.py:75-82 | the SELECT's condition is the parsed query on the `name` field |
| Database.ParseQueryIgnoresCase | src/Database.py:62-73 | the parsed query does not depend on the name's case |
| Database.ParseQueryIsClosedList | src/Database.py:69-73 | a list query is `field in` the corrected, closed bracketed list of title-cased names |
| Database.ParseQuerySnoc | src/Database.py:71 | one more name adds `,` and its quoted title before the closing bracket |
| StatSearch.NormaliseOperator | src/Search/StatSearch.py:18-41 | exactly the six SQL operators and `!=` are accepted; `!=` becomes `<>`, and the others are kept |
| StatSearch.CmdSucceedsIff | src/Search/StatSearch.py:7-45 | cmd succeeds exactly on three tokens with a valid int and operator; otherwise it raises the unpack, int() or operator ValueError, in that order |
| StatSearch.OperatorIsSql | src/Search/StatSearch.py:18-41 | the emitted operator is always valid SQL and never `!=` |
| StatSearch.ParseRoundTrip | src/Search/StatSearch.py:13-16 | a query written from a stat, operator and value parses back to them, with the stat lowered |
| StatSearch.ValueCanonical | src/Search/StatSearch.py:16 | the emitted value reads as the same integer as the query's |
| StatSearch.StatIgnoresCase | src/Search/StatSearch.py:15 | the command does not depend on the stat's case |
| StatSearch.CmdExample | src/Search/StatSearch.py:53 | `spe >= 120` gives `SELECT * FROM pokemon WHERE spe >= 120` |
| StatSearch.ParsePaddedExample | src/Search/StatSearch.py:13-41 | `hp != 060` parses to stat `hp`, `<>` and 60 |
| StatSearch.CmdPaddedExample | src/Search/StatSearch.py:37-43 | `hp != 060` gives `... WHERE hp <> 60` |
| MoveSearch.SameParsingAsStatSearch | src/Search/MoveSearch.py:7-45 | the move search accepts and rejects exactly what the stat search does, with the same error, and differs only in the table and filter |
| MoveSearch.FilterAlwaysApplied | src/Search/MoveSearch.py:43 | every move command excludes 1-PP, G-Max and Hidden Power moves |
| MoveSearch.PowerExample | src/Search/MoveSearch.py:47-58 | `power == 60` parses to stat `power`, `==` and 60 |
| TypeSearch.CmdFrame | src/Search/TypeSearch.py:7-18 | every command starts with the SELECT and ends with `;` |
| TypeSearch.CmdIgnoresCase | src/Search/TypeSearch.py:7-18 | the command does not depend on the types' case |
| TypeSearch.SingletonList | src/Search/TypeSearch.py:14-18 | a one-element list gives a parenthesised tuple, not the single-type command |
| TypeSearch.CleanListSnoc | src/Search/TypeSearch.py:14 | one more type adds `, ` and its quoted title before `)` |
| TypeSearch.CmdExample | src/Search/TypeSearch.py:26 | `fire` gives `type1 = 'Fire' OR type2 = 'Fire'` |
| BaseSearch.TypeSearch.constructor | src/Search/BaseSearch.py:8-13 | the stored query is the title-cased type, or the title-cased list |
| BaseSearch.TypeSearch.Search | src/Search/BaseSearch.py:19-33 | the command returned is the SELECT with its `==`/`OR` condition for one type, or its `in`/`AND` condition over the as-written `format_list` tuple, which ends in `(` |
| BaseSearch.TypeSearch.SearchCorrected | src/Search/BaseSearch.py:19-33 | the same search with the tuple closed by `)` |
| BaseSearch.TypeSearch.SearchWith | src/Search/BaseSearch.py:21-29 | given the tuple text, three pieces joined by spaces give the SELECT with its condition |
| BaseSearch.StoredQueryShape | src/Search/BaseSearch.py:10-13 | one text gives a one-element query; a list keeps its length and title-cases each item |
| BaseSearch.StoredQueryStable | src/Search/BaseSearch.py:10-13 | storing is idempotent, ignores case, and a one-item list equals the single text |
| BaseSearch.InCount | src/Search/BaseSearch.py:26-27 | an `in` clause adds no bracket beyond its tuple's |
| BaseSearch.NoBracketsOutsideTuples | src/Search/BaseSearch.py:21-27 | the fixed words of the command hold no bracket |
| BaseSearch.SearchCount | src/Search/BaseSearch.py:26-29 | for any tuple text, a multi-type search's brackets are exactly those of its two copies of the tuple |
| BaseSearch.SearchUnbalanced | src/Search/BaseSearch.py:26-27 | as written, a multi-type search over balanced types has four more `(` than `)` |
| BaseSearch.SearchBalanced | src/Search/BaseSearch.py:19-33 | with the corrected tuple, a multi-type search over balanced types has balanced brackets |
| BaseSearch.SearchVersions | src/Search/BaseSearch.py:21-27 | the as-written and corrected commands agree on a one-type search and differ on every other |
| BaseSearch.TitleExample | src/Search/BaseSearch.py:42 | `water` is titled `Water` |
| BaseSearch.SearchExample | src/Search/BaseSearch.py:42-45 | `water` gives `type1 == 'Water' OR type2 == 'Water'` |
| ShowdownInterface.ExportFrom | src/ShowdownInterface.py:25-28 | the search stops at a line at or after the start |
| ShowdownInterface.ExportFromIsFirst | src/ShowdownInterface.py:25-28 | it stops at the first `export` line, or at the last line when there is none |
| ShowdownInterface.DropPreamble | src/ShowdownInterface.py:24-32 | the loop keeps the lines from the `export` line on, with that line replaced by `{` |
| ShowdownInterface.NoExportLine | src/ShowdownInterface.py:25-32 | without an `export` line only `{` remains; an empty file raises IndexError |
| ShowdownInterface.Step | src/ShowdownInterface.py:41-75 | one line keeps the rewriter's state consistent |
| ShowdownInterface.Run | src/ShowdownInterface.py:41-75 | the rewriter ends in a consistent state |
| ShowdownInterface.RewriteLines | src/ShowdownInterface.py:34-75 | the loop's output is the fold of the step over the lines |
| ShowdownInterface.StepEffect | src/ShowdownInterface.py:44-75 | a line inside a block emits nothing; an opening line starts a block at its indent; only a `},` line at the block's indent closes it; `callback` is pending exactly until its marker |
| ShowdownInterface.RunSnoc | src/ShowdownInterface.py:41-75 | the run over one more line is one more step |
| ShowdownInterface.HadTsCodeAt | src/ShowdownInterface.py:39-70 | `had_ts_code` is set before a line exactly when a block opened and no marker was emitted since |
| ShowdownInterface.HadTsCodeMeans | src/ShowdownInterface.py:39-70 | the same, for the state after the whole file |
| ShowdownInterface.RewriteIsClean | src/ShowdownInterface.py:72-73 | a rewritten line holds no tab and no `//` |
| ShowdownInterface.OutputIsClean | src/ShowdownInterface.py:68-75 | every emitted line, markers included, is clean |
| ShowdownInterface.StaysInBlock | src/ShowdownInterface.py:55-66 | after a block opens, the rewriter stays in it at the opening indent until a closing line |
| ShowdownInterface.BlockDropped | src/ShowdownInterface.py:55-66 | every line from a block's opening to its closing is dropped, and the block is then over |
| ShowdownInterface.DropLastTwo | src/ShowdownInterface.py:78 | `[:-2]` removes the last two characters, or everything from a shorter text |
| ShowdownInterface.CollectData | src/ShowdownInterface.py:17-78 | the YAML text is the joined rewritten lines without their last two characters, or the preamble's IndexError |
| Mapper.NewConversion | src/CreateDatabase.py:15-27 | a rule is multi-path exactly when its first path element is a list; an empty path raises IndexError |
| Mapper.Prefixed | src/CreateDatabase.py:91 | nested keys are prefixed by the parent key and `/` |
| Mapper.Flatten | src/CreateDatabase.py:81-97 | the flattened keys and values pair up, and no value is a dict |
| Mapper.FlattenDict | src/CreateDatabase.py:81-97 | the loop computes the recursive flattening |
| Mapper.FlattenConcat | src/CreateDatabase.py:87-95 | flattening concatenated entries concatenates the flattenings |
| Mapper.FlattenSingle | src/CreateDatabase.py:88-95 | one scalar entry gives its key; one dict entry gives its prefixed keys; an empty dict gives nothing |
| Mapper.FlattenFlat | src/CreateDatabase.py:81-97 | a record without nested dicts flattens to its own keys and values |
| Mapper.FlattenPrefixAgree | src/CreateDatabase.py:87 | entries not yet visited do not affect what has been flattened so far |
| Mapper.KeyParts | src/CreateDatabase.py:136-140 | the key parts hold no int |
| Mapper.SplitPath | src/CreateDatabase.py:134-141 | the loop splits a path into its slash-joined keys and its indices |
| Mapper.PartsConcat | src/CreateDatabase.py:136-140 | both halves of the split distribute over concatenation |
| Mapper.PartsCount | src/CreateDatabase.py:136-140 | every path element goes to exactly one half |
| Mapper.KeyPathParts | src/CreateDatabase.py:136-140 | a path of keys has no indices |
| Mapper.IndexPathParts | src/CreateDatabase.py:136-140 | a path of ints has no keys |
| Mapper.SplitSeparates | src/CreateDatabase.py:134-141 | for keys then indices, the split returns the joined keys and the indices in order |
| Mapper.KeyTextOfKeys | src/CreateDatabase.py:141 | joining string parts is `"/".join` |
| Mapper.KeyPartsHasList | src/CreateDatabase.py:136-141 | a list in the path lands in the key half |
| Mapper.SplitFailsIffList | src/CreateDatabase.py:141 | the split raises TypeError exactly when some path element is a list |
| Mapper.Zip | src/CreateDatabase.py:107 | `zip(keys, vals)` pairs them position by position |
| Mapper.FlatGet | src/CreateDatabase.py:143 | a missing key gives None, and a non-None value comes from a present key |
| Mapper.Position | src/CreateDatabase.py:147 | a Python index, negative ones counted from the end, resolves inside the list or not at all |
| Mapper.ApplyIndices | src/CreateDatabase.py:145-150 | the loop applies the indices in turn and stops at the first escaping error |
| Mapper.PrefixFailureSticks | src/CreateDatabase.py:145-150 | an error raised by a prefix of the indices is the result |
| Mapper.NegativeIndex | src/CreateDatabase.py:147 | `-n+i` reaches the same element as `i`; a list or string index yields its element or character |
| Mapper.OutOfRangeIsNone | src/CreateDatabase.py:148-150 | an index out of range gives None, not an error |
| Mapper.NoneThenIndexFails | src/CreateDatabase.py:145-147 | indexing None raises TypeError, which the `except IndexError` does not catch |
| Mapper.MissingKeyWithIndex | src/CreateDatabase.py:143-147 | a missing key followed by an index raises TypeError |
| Mapper.Iterated | src/CreateDatabase.py:136 | iterating a multi-path element raises TypeError exactly for an int |
| Mapper.PathSources | src/CreateDatabase.py:127-132 | a single-path rule visits its one path; a multi-path rule visits each element |
| Mapper.ResolvePath | src/CreateDatabase.py:134-150 | a non-None value was found under a key of the record |
| Mapper.CandidatesOf | src/CreateDatabase.py:131-155 | one candidate is gathered per path, and every flagged key is a key of the record |
| Mapper.GatherCandidates | src/CreateDatabase.py:131-155 | the loop computes the candidates and their flagged keys |
| Mapper.CandidatesFailureSticks | src/CreateDatabase.py:131-155 | an error from an earlier path is the rule's error |
| Mapper.Reduce | src/CreateDatabase.py:157-162 | the loop computes the reduction |
| Mapper.ReduceFailureSticks | src/CreateDatabase.py:157-162 | a conflict found early is the result |
| Mapper.FirstNonNull | src/CreateDatabase.py:157-160 | the first non-None candidate, and None exactly when all are None |
| Mapper.FirstNonNullSnoc | src/CreateDatabase.py:158-160 | a later candidate matters only while all before it are None |
| Mapper.ReduceMeaning | src/CreateDatabase.py:157-162 | the reduction succeeds exactly when all non-None candidates equal the first non-None one, and then returns it |
| Mapper.ReduceError | src/CreateDatabase.py:161-162 | a conflict raises ValueError with the `got differing values for field` message |
| Mapper.Coerce | src/CreateDatabase.py:167-175 | INT turns a bool into 101 and renders an int as its decimal text, which `int()` reads back; TEXT quotes the cleaned `str()`; BOOL gives `True` exactly for truthy values; every other case is `str(value)` |
| Mapper.TextLiteralQuotes | src/CreateDatabase.py:170-171 | a TEXT literal holds exactly its two delimiting quotes |
| Mapper.RowAdd | src/CreateDatabase.py:121-177 | a rule fails exactly when its reduction fails, with that error; a None value adds nothing; any other adds the rule's field and the coerced value; flagged keys come from the record |
| Mapper.BuildRow | src/CreateDatabase.py:119-177 | the loop builds the row over all rules |
| Mapper.RowFailureSticks | src/CreateDatabase.py:119-177 | an error from an earlier rule is the row's error |
| Mapper.FieldNames | src/CreateDatabase.py:73-74 | the column names are the rules' field names, in order |
| Mapper.RowPairs | src/CreateDatabase.py:119-177 | a row has as many values as fields, and flags only keys of the record |
| Mapper.RowOrder | src/CreateDatabase.py:119-177 | a row's fields are a subsequence of the schema's columns, in schema order |
| Mapper.SubsequenceExtend | src/CreateDatabase.py:177 | subsequence order survives adding a later column to the schema |
| Mapper.PositionsMeaning | src/CreateDatabase.py:164-177 | the positions of the raised flags are strictly increasing and hold exactly those flags |
| Mapper.KeptRulesMeaning | src/CreateDatabase.py:164-177 | the rules that get a column come in declaration order, and a rule gets one exactly when its value reduces to something other than None |
| Mapper.RowSucceeds | src/CreateDatabase.py:119-162 | a row is built only when every rule's value reduces without error |
| Mapper.RowStepSucceeds | src/CreateDatabase.py:119-162 | a built row's last rule reduced without error, and the row before it was built |
| Mapper.RowMeaning | src/CreateDatabase.py:119-177 | the i-th field of a row is the i-th kept rule's field name and its value is that rule's reduced value coerced to the rule's type; rules whose value is None have no column |
| CreateDatabase.Register | src/CreateDatabase.py:109-111 | registering adds the new keys as False and keeps every existing flag |
| CreateDatabase.Mark | src/CreateDatabase.py:152-153 | marking sets exactly the seen keys to True and keeps the rest |
| CreateDatabase.RegisterKeys | src/CreateDatabase.py:109-111 | the loop performs the registration |
| CreateDatabase.MarkSeen | src/CreateDatabase.py:152-153 | the loop performs the marking |
| CreateDatabase.ColTypes | src/CreateDatabase.py:73-75 | the column types are the rules' types, in order |
| CreateDatabase.Injector.constructor | src/CreateDatabase.py:39-40 | an injector owns a fresh handler for its file |
| CreateDatabase.Injector.Create | src/CreateDatabase.py:69-77 | the table is dropped and created from the schema's columns and types |
| CreateDatabase.Injector.Record | src/CreateDatabase.py:103-177 | one record is flattened, registered, skipped when `num < 0`, or turned into its row |
| CreateDatabase.Injector.Fill | src/CreateDatabase.py:79-193 | one INSERT per kept record, in order, up to the first error; the report's `max` fails on an empty source |
| CreateDatabase.Injector.Open | src/CreateDatabase.py:39-43 | building an injector runs create and then fill |
| CreateDatabase.FillErrorSticks | src/CreateDatabase.py:103-187 | once a record raises, later records change nothing |
| CreateDatabase.FillFails | src/CreateDatabase.py:103-187 | a failing record ends fill with its error and no INSERT of its own |
| CreateDatabase.SkipsNegative | src/CreateDatabase.py:113-117 | a record with negative `num` registers its keys and issues nothing |
| CreateDatabase.RecordErrors | src/CreateDatabase.py:106-115 | a non-dict record raises AttributeError; a dict without `num` raises KeyError |
| CreateDatabase.RecordFields | src/CreateDatabase.py:106-177 | a record must be a dict; afterwards the flags cover the old keys and the record's flattened keys, True flags stay True, and a newly raised flag belongs to a key the record's row looked up |
| CreateDatabase.FillKeys | src/CreateDatabase.py:102-111 | after a full pass, `data_fields` holds exactly the keys of all records |
| CreateDatabase.FillMonotone | src/CreateDatabase.py:152-153 | a key once flagged True stays True |
| CreateDatabase.FillLogShape | src/CreateDatabase.py:179-185 | at most one command per record, each an INSERT into the injector's table |
| CreateDatabase.InsertPrefix | src/CreateDatabase.py:179 | an INSERT names its table first |
| CreateDatabase.EmptySource | src/CreateDatabase.py:189-190 | an empty source issues nothing and fails in the report |
| Learnsets.AddNew | src/CreateDatabase.py:211-213 | the collected moves are the moves so far plus the new ones |
| Learnsets.AddNewDistinct | src/CreateDatabase.py:212-213 | collecting keeps the list free of repeats and only appends |
| Learnsets.DedupeMeaning | src/CreateDatabase.py:206-213 | `allmoves` has no repeats and holds every move; a move seen before adds nothing; a new one is appended |
| Learnsets.AddNewConcat | src/CreateDatabase.py:207-213 | collecting over two Pokémon is collecting over one, then the other |
| Learnsets.Names | src/CreateDatabase.py:211 | the move names of a learnset, in its order |
| Learnsets.ChunkBounds | src/CreateDatabase.py:224-227 | every chunk starts inside the move list |
| Learnsets.Chunk | src/CreateDatabase.py:227-230 | every chunk holds between 1 and 100 moves |
| Learnsets.LocationsUpTo | src/CreateDatabase.py:223-232 | one location per table created so far |
| Learnsets.LocationAt | src/CreateDatabase.py:225-232 | location `i` is table `learnset_i` with chunk `i` |
| Learnsets.ChunkCountIsCeiling | src/CreateDatabase.py:218-219 | the number of tables is the ceiling of moves / 100, and 0 for no moves |
| Learnsets.MoveLocation | src/CreateDatabase.py:227-230 | move `j` is at position `j % 100` of table `j / 100` |
| Learnsets.JoinedPrefix | src/CreateDatabase.py:224-232 | the first `k` chunks are the first `100k` moves |
| Learnsets.ChunksCover | src/CreateDatabase.py:224-232 | the chunks, in order, are exactly the move list |
| Learnsets.Texts | src/CreateDatabase.py:234 | every column type is TEXT |
| Learnsets.QuotedTexts | src/CreateDatabase.py:246-248 | one quoted detail string per overlapping move |
| Learnsets.TableInserts | src/CreateDatabase.py:243-257 | one INSERT per table |
| Learnsets.Learnset.constructor | src/CreateDatabase.py:39-40 | a learnset loader owns a fresh handler for its file |
| Learnsets.Learnset.CollectMoves | src/CreateDatabase.py:211-215 | the inner loop computes the Pokémon's joined details and extends the move list, or raises |
| Learnsets.Learnset.Collect | src/CreateDatabase.py:205-215 | the loop computes the flattened learnsets and the move list, or the first error |
| Learnsets.Learnset.CreateChunk | src/CreateDatabase.py:225-234 | one iteration drops and creates table `i` with its chunk |
| Learnsets.Learnset.CreateTables | src/CreateDatabase.py:223-234 | the tables created are exactly the locations, in order |
| Learnsets.Learnset.Insert | src/CreateDatabase.py:244-255 | the INSERT text for one Pokémon and one table |
| Learnsets.Learnset.InsertPoke | src/CreateDatabase.py:243-257 | one Pokémon's INSERTs, one per table in order |
| Learnsets.Learnset.InsertAll | src/CreateDatabase.py:238-259 | the INSERTs of all Pokémon with a non-empty learnset, in order |
| Learnsets.Learnset.Create | src/CreateDatabase.py:201-261 | a collection error is returned with nothing written; otherwise the log grows by every table's DROP and CREATE and then every INSERT |
| Learnsets.Learnset.Open | src/CreateDatabase.py:39-43 | building the loader runs create; `fill` does nothing |
| Learnsets.FlatStep | src/CreateDatabase.py:207-215 | one more Pokémon extends the flattening and the collected moves |
| Learnsets.MovesFails | src/CreateDatabase.py:211-215 | a detail that cannot be joined is the learnset's error |
| Learnsets.FlatFails | src/CreateDatabase.py:207-215 | an error from an earlier Pokémon is the result |
| LearnsetProperties.FieldsZip | src/Database.py:46-48 | equal-length columns and types zip into one field each |
| LearnsetProperties.TableColumns | src/CreateDatabase.py:234 | each table is dropped and then created with `pokemon TEXT` followed by one TEXT column per move of its chunk |
| LearnsetProperties.TableNamesDistinct | src/CreateDatabase.py:225 | different chunks get different table names |
| LearnsetProperties.InsertsPerTable | src/CreateDatabase.py:243-257 | the `t`-th INSERT of a Pokémon goes to table `t` |
| LearnsetProperties.InsertColumns | src/CreateDatabase.py:244-255 | an INSERT names `pokemon` and each move that is in both the table and the learnset, once each, with its details |
| LearnsetProperties.MoveTextOf | src/CreateDatabase.py:215 | a move's stored text is its joined details |
| LearnsetProperties.InsertCount | src/CreateDatabase.py:238-257 | tables × Pokémon with a non-empty learnset INSERTs are issued |
| LearnsetProperties.MovesMeaning | src/CreateDatabase.py:211-215 | a learnset succeeds exactly when every detail can be joined, and keeps its moves in order |
| LearnsetProperties.FlatMeaning | src/CreateDatabase.py:207-215 | a successful collection keeps every Pokémon in order, with its learnset's moves |
| LearnsetProperties.AllNamesHas | src/CreateDatabase.py:212-213 | any Pokémon's move is in the full move list |
| LearnsetProperties.EveryMoveStored | src/CreateDatabase.py:205-257 | every move a Pokémon learns lies in some table's chunk, and that table's INSERT for the Pokémon names it |
| LearnsetProperties.FailureWritesNothing | src/CreateDatabase.py:201-215 | a collection error is raised before any table is created |

## Findings

| source | as written | input that shows it | evidently intended | confidence | as-written member | corrected member |
|---|---|---|---|---|---|---|
| src/utils/ListFormat.py:8-9 | `format_list(..., bracket=True)` appends `"("` as the closing bracket | `["Water", "Dragon"]` gives `('Water','Dragon'(`, so the `in` clauses of `TypeSearch.search` are not valid SQL | close with `")"`, giving `('Water','Dragon')` | not executed | ListFormat.FormattedUnbalanced | ListFormat.ClosedBalanced |

`ListFormat.FormatList` and `ListFormat.FormatListExample` model the code as
written, and `BaseSearch.TypeSearch.Search` builds its command with it, as
src/Search/BaseSearch.py:26-27 does. `BaseSearch.SearchUnbalanced` shows the
effect on the command: four more `(` than `)`. `ListFormat.FormatListClosed`
is the corrected method. `BaseSearch.TypeSearch.SearchCorrected` builds the
same command with it, and `BaseSearch.SearchBalanced` proves that this command
has balanced brackets. `BaseSearch.SearchVersions` shows that the two commands
differ exactly for multi-type searches.

## Left out

- Files and SQLite are not modelled: the JSON file reads, the connections, cursors, commits, query results and `fetchall`. A handler's effect is the log of SQL texts it would execute. `find_name` returns the command instead of the rows.
- `print` output, the `debug.txt` write and the field report's text are not modelled. The report is kept only as the `max` of an empty list failing.
- `yaml.safe_load` at the end of `collect_data` is not modelled. The model stops at the YAML text.
- A JSON number that is a float is kept as the text of its `repr`. It is compared, printed and tested for sign from that text. Float-to-int equality (`1.0 == 1`) and the float text itself are outside the model.
- Python `==` on dicts is modelled entry by entry in stored order, so two dicts with the same entries in a different order are unequal in the model.
- JSON objects with duplicate keys: `Get` takes the last entry, as `json.load` does. `Flatten` visits every entry, whereas a Python dict has already collapsed the duplicates.
- `str.title`, `str.lower` and the `[^a-zA-Z0-9_]` sanitiser follow ASCII rules only. Non-ASCII letters are neither cased nor allowed.
- `repr` escape sequences inside strings are not modelled.
- `int()` is modelled as an optional sign followed by decimal digits. Surrounding whitespace and `_` separators are not accepted.
- Learnsets.Learnset.Create: Python's iteration order of `set(moves) & set(learnset)` is a parameter `order`. `LearnsetProperties.InsertColumns` and `LearnsetProperties.EveryMoveStored` assume that `order` lists each set exactly once. The other results hold for any order.
- `math.ceil(len(allmoves) / chunksize)` is modelled as exact integer ceiling division. The float division agrees with it for any list that fits in memory.
- The `Pokemon` and `Moves` injectors are tables of `Conversion` rules, that is, configuration data. `Injector` is modelled for any schema.
- `Injector.fill` sets `data_fields` flags record by record, after that record's row is built. Within one record this order cannot be observed, because an error aborts `fill`.
- The `query is None` guard of `parse_query` is unreachable, because `find_name` only calls it with a name. It is not modelled.
- `MoveSearch.power` and the inherited `search` and `search_by_moves` of `StatSearch`, `MoveSearch` and `TypeSearch` are not modelled. src/Search/MoveSearch.py:1, src/Search/StatSearch.py:1 and src/Search/TypeSearch.py:1 import a class `BaseSearch` from the module `BaseSearch`, but src/Search/BaseSearch.py defines only `TypeSearch`, so no file of the repository defines that class. Only their `cmd` methods are modelled.
- Mapper.PathEntry: a list nested inside one path of a multi-path rule cannot be written down. The source accepts such a path, and its `"/".join` then raises TypeError (src/CreateDatabase.py:136-141). The multi-path rules of the `Moves` schema (src/CreateDatabase.py:320-324) hold only names in their paths.
- `src/update/ShowdownInterface.py` is not part of this model. Its line 22 is a syntax error. Its `collect_data` otherwise repeats the one in `src/ShowdownInterface.py`, and its other functions are file I/O.
- The `if __name__ == "__main__"` blocks are not modelled as programs. The examples in them appear as example lemmas.
