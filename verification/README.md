# A verified model of a GORM dialect for TDengine

The dialect turns GORM statements into TDengine SQL. This project models the parts of it in
which a mistake would go unnoticed and proves what they are for:

- **Text.** Identifier quoting (a byte loop over two flags and two `int8` counters), string
  literals, bound variables, the VALUES, USING, CREATE and window clauses, the batch tag update
  and the ALTER and CREATE INDEX statements. Every printer has a parser that was written from
  the grammar and not from the printer, and a theorem that the parser recovers what was printed.
- **State.** The migrator on a server whose catalog changes with every accepted statement. Any
  query may fail and any statement may be refused; what AutoMigrate, CreateTable, AddColumn and
  SetTableTagsBatch leave behind is proved for every such history. `Server.MigrationIsServed`
  joins both halves: a server that sees nothing but the SQL text of a migration ends in the
  catalog that the migration is about.

Code that works on a builder, a table, a slice or a server step by step is written as methods
with loops; each is proved against a specification function, and the laws are lemmas about
those functions.

| file | part of the repository |
|---|---|
| `Identifier.dfy`, `Literal.dfy`, `Builder.dfy`, `Values.dfy` | `tdengine.go` |
| `Column.dfy`, `Table.dfy`, `TableParser.dfy` | `clause/create/table.go`, `clause/create/options.go` |
| `Window.dfy` | `clause/window/duration.go`, `clause/window/window.go` |
| `Using.dfy`, `SortedNames.dfy` | `clause/using/using.go` and the sorted tag maps of all printers |
| `TagUpdate.dfy`, `TagMigrator.dfy` | `tag.go` |
| `Schema.dfy`, `Catalog.dfy`, `Plan.dfy`, `IndexNames.dfy`, `Migrator.dfy`, `Statements.dfy`, `Server.dfy`, `Kinds.dfy`, `Success.dfy` | `migrator.go`, `index.go` and `DataTypeOf` |
| `Ascii.dfy`, `Common.dfy`, `Decimal.dfy`, `Parsing.dfy` | shared text functions and the pieces of the parsers |

## How to read the results

Names. `Quotable` is the class of names in which every identifier starts with an ordinary byte,
bare or after exactly one backtick. On it quoting is well-formed, idempotent and independent of
the counters' width. The class is exact (`Identifier.QuotableIsExact`): a name of any form is read
back as its identifiers if and only if it is `Quotable`. This holds of all names with unbounded
counters, and with the source's `int8` counters of all names that begin no identifier with 128
backticks; there the counter wraps around and the claim fails (`Identifier.WrapAroundShowsAt128`).
Printers are inverted on `Dotted` names: Plain identifiers (without backtick or dot), or several
of them joined by dots.

Migration. A `Path` is what an operation is meant to send on a given catalog and whether it is
meant to end without an error. `Follows` relates an operation that ended to its path: under any
failures the accepted statements are the beginning of the path, and all of it when there was no
error; without failures the operation does exactly what the path says, its error included. When a
path has an error, and which, is stated in `Success.dfy` on the catalog and the model alone.

Index names. `createMissingIndexes` (`index.go:135-156`) tests an index by its own name and tag,
but `CreateIndex` looks the name up again, and GORM's lookup also matches Go field names. An index
that is named like the Go field of an earlier index on another tag therefore breaks both promises of
a migration on a server that accepts a second index on a tag: it ends without an error and the index
is missing, and the other tag has two. `IndexNames.CompletesIffResolving` and
`IndexNames.OnePerTagIffResolving` show that the names resolving is the exact condition, for every
model that GORM can make of a struct (`IndexNames.Parsed`) and already on the catalogs that accepted
statements can make of an empty one (`Catalog.Reachable`); `IndexNames.ConfusingNamesFail` is a valid
model that violates it. On a server that refuses a second index nothing of this is silent:
`IndexNames.RefusingServerCompletes` needs no condition on the names.

Assumptions about the server are the functions `Catalog.Accepts` and `Catalog.Apply`. It refuses to
add a column or tag whose name is taken up to case, to create a table that exists unless
`IF NOT EXISTS` is given or whose column names collide, ALTERs and indexes on the wrong kind of
table, an index name that its table has already, and an index on a tag that does not exist. It may
accept a second index on one tag. `CREATE ... IF NOT EXISTS` leaves an existing table alone; a new
supertable gets an index on its first tag under a name of the server's choice; and the server may
refuse anything else at will. `Catalog.ReachableIsOrderly` shows what these rules keep.

## Model

| member | source | states |
|---|---|---|
| `Identifier.TicksStayBelowTwo` | tdengine.go:195-227 | after every byte of every name the backtick counter is 0 or 1, so the loop that writes pending backticks turns at most once |
| `Identifier.QuoteIsCanonical` | tdengine.go:188-233 | a Quotable name comes out as the identifiers it stands for, each between backticks with its own backticks doubled |
| `Identifier.WrapAroundIsHarmless` | tdengine.go:188-193 | on Quotable names of any length int8 counters give the same text as unbounded ones |
| `Identifier.QuoteIsWellFormed` | tdengine.go:188-233 | a lexer reads the output as nonempty quoted identifiers separated by single dots, recovers exactly the identifiers of the name, and stops at its end |
| `Identifier.QuoteIsIdempotent` | tdengine.go:188-233 | quoting a quoted name changes nothing, and it still names the same identifiers |
| `Identifier.SameTextSameNames` | tdengine.go:188-233 | two Quotable names have the same quoted text if and only if they stand for the same identifiers |
| `Identifier.QuotableIsExact` | tdengine.go:188-233 | a name is read back as its identifiers if and only if it is Quotable: any name with unbounded counters, and with int8 ones any that begins no identifier with 128 backticks |
| `Identifier.JoinedNames` | tdengine.go:188-233 | joining Plain identifiers with dots gives a Quotable name that stands for exactly these identifiers |
| `Identifier.QuoteIsInvertible` | tdengine.go:188-233 | for dotted names the lexed identifiers, joined by dots, spell the original name |
| `Identifier.QuoteIsInjective` | tdengine.go:188-233 | two dotted names with the same quoted text are the same name |
| `Identifier.WrapAroundShowsAt128` | tdengine.go:190-216 | that bound is sharp: after 128 leading backticks the int8 counter has wrapped around, the output differs, and a name that is not Quotable is read back |
| `Builder.Builder.QuoteTo` | tdengine.go:188-233 | the loop with its flags and counters writes the quoted form and changes nothing else |
| `Builder.Builder.WriteOrdinary` | tdengine.go:212-225 | the default case writes and updates what the byte machine says, its inner loop turning at most once |
| `Literal.LiteralIsPrefixCode` | tdengine.go:259-268 | scanning a literal followed by any text yields the original string and leaves exactly that text |
| `Literal.LiteralIsInjective` | tdengine.go:259-268 | no literal is the beginning of another string's literal |
| `Literal.RunOfLiteralsIsInjective` | tdengine.go:259-268 | literals written one after another without separators decode in one way only |
| `Literal.LiteralHasNoRawControls` | tdengine.go:259-268 | no raw newline, carriage return or tab appears in a literal |
| `Builder.Builder.BindVarTo` | tdengine.go:160-186 | writes one placeholder and rewrites only the last variable; a conversion error is recorded and the variable stays as it was |
| `Builder.SplicedTextIsLiteral` | tdengine.go:176-184 | in interpolation mode, what is spliced for a string or bytes, converted or not, is scanned as exactly that text in front of any SQL, which is left alone; in prepared mode the variable is untouched |
| `Builder.BoundValueArrives` | tdengine.go:160-186 | every value of a program, also one that converts itself, reaches a server that reads the spliced SQL or the prepared variable as it was meant |
| `Builder.FailedConversionStays` | tdengine.go:167-174 | a failed conversion leaves the variable as it was and is recorded in interpolation mode |
| `Values.BuildValues` | tdengine.go:125-146 | writes the columns, one group of placeholders per row, and binds the rows in row-major order; without columns it only records an error |
| `Values.ValuesRoundTrip` | tdengine.go:125-146 | text and variables of a batch decode to the columns and every row, rectangular or not, each value bound in its own place |
| `Values.CellArrives` | tdengine.go:160-186 | what the server reads for a cell of a batch is the value that was meant there, also one that converts itself |
| `SortedNames.OrderInWords` | clause/using/using.go:48 | names are in byte order: a name comes before those it begins, and otherwise where its first different byte is smaller |
| `SortedNames.SortingIsDeterministic` | clause/using/using.go:43-48 | whatever order the map iteration yields the names in, sorting gives the one listing of the key set |
| `SortedNames.SortedKeys` | clause/create/table.go:191-195 | collecting the keys in any order and sorting returns that listing |
| `SortedNames.ValuesPairUp` | clause/create/table.go:190-210 | pairing the listed names with the variables in order gives back the tag map, values bound |
| `Using.SetUsing` | clause/using/using.go:43-55 | the clause holds the tags of the map in sorted order in a slice of its own |
| `Using.SetUsingTags` | clause/using/using.go:58-60 | the clause holds a fresh copy of the given tags in their order |
| `Using.AddTag` | clause/using/using.go:63-74 | the result has the tag replaced in place or appended, in a fresh slice; no existing slice changes |
| `Using.AddTags` | clause/using/using.go:63-74 | after any sequence of calls every earlier clause value still has its own tags |
| `Using.LookupAfterPut` | clause/using/using.go:63-74 | looking a name up after AddTag gives the new value for that name and the old answer for any other |
| `Using.PutKeepsOrder` | clause/using/using.go:63-74 | AddTag keeps names distinct; a known name leaves the names as they are, a new one goes last |
| `Using.UsingIsAMap` | clause/using/using.go:43-74 | after SetUsing and any AddTag calls names are distinct and every lookup agrees with the map updates |
| `Using.PositionsAreKept` | clause/using/using.go:63-74 | the names of a clause are a prefix of the names of every later one |
| `Using.Build` | clause/using/using.go:20-39 | writes the clause, binds its values in the order of its names and records the conversions that failed |
| `Using.UsingRoundTrip` | clause/using/using.go:20-39 | supertable, names and values are recovered; the k-th variable is the value of the k-th name |
| `Window.DurationRoundTrip` | clause/window/duration.go:55-73 | parsing the rendered value and unit returns the same duration, for every uint64 and all eleven units |
| `Window.DurationsAreExact` | clause/window/duration.go:55-73 | a text parses to a duration exactly when it is that duration rendered, with or without leading zeros; anything else, overflow included, is refused |
| `Window.ConversionIsExact` | clause/window/duration.go:45-53 | exactly the positive durations convert, the value times its unit's length is the input in nanoseconds, also through text |
| `Window.OtherSettersChangeNothing` | clause/window/window.go:48-85 | in any chain of setters those meant for another window type can be removed |
| `Window.LastSetterWins` | clause/window/window.go:48-85 | of a chain of setters the last of each kind decides offset, sliding or count sliding, and everything else stays |
| `Window.AcceptanceInWords` | clause/window/window.go:116-133 | of all chains Build accepts exactly event windows with both conditions, counts of two or more that the sliding does not exceed, and every other type |
| `Window.ChainsAreTidy` | clause/window/window.go:38-85 | after any chain fields of another window type keep their zero value |
| `Window.Build` | clause/window/window.go:87-146 | writes the clause, or writes nothing and records the error of an event window without conditions or a bad count |
| `Window.BuildEvent` | clause/window/window.go:116-124 | writes both conditions and binds their values in order, a value for each placeholder |
| `Window.WindowRoundTrip` | clause/window/window.go:38-146 | for every constructor and chain of setters that Build accepts, the parser recovers the whole window from text and variables; for an event window if and only if its first condition neither contains the text between the conditions nor ends like its beginning |
| `Column.EncodingsInWords` | clause/create/options.go:174-192 | the declared types that take each encoding |
| `Column.CompressionsInWords` | clause/create/options.go:194-210 | the declared types that take each compression |
| `Column.SettingsInWords` | clause/create/options.go:129-164 | accepted are exactly known settings that the column's type takes, and a level only with a compression |
| `Column.ConstantsAreBaseTypes` | clause/create/options.go:166-172 | every declared type constant is its own base type |
| `Column.BuildColumn` | clause/create/table.go:99-130 | writes the definition, or records the compression error and writes nothing |
| `Column.ColumnRoundTrip` | clause/create/table.go:99-130 | name, type, length, key flag and compression settings are recovered, whatever follows the definition |
| `Column.ConstantsRoundTrip` | clause/create/table.go:74-95 | all twenty declared type constants are readable, with the length for exactly the five sized ones |
| `Table.Table.NewTable` | clause/create/table.go:31-41 | a regular table or subtable with the given contents and no options |
| `Table.Table.NewSTable` | clause/create/table.go:43-52 | a supertable with the given columns and tags and no options |
| `Table.Table.WithComment` | clause/create/options.go:69-72 | sets the comment of this very table and nothing else |
| `Table.Table.WithTTL` | clause/create/options.go:74-77 | sets the TTL of this very table and nothing else |
| `Table.Table.WithSMA` | clause/create/options.go:79-82 | sets the SMA columns of this very table and nothing else |
| `Table.Table.WithKeep` | clause/create/options.go:84-87 | sets the retention of this very table and nothing else |
| `Table.OptionsInWords` | clause/create/options.go:89-127 | options are accepted exactly if no tag is compressed, comment and TTL are in range, TTL is not on a supertable, KEEP only there and valid, SMA not on a subtable and without blank names |
| `Table.OptionErrorsInWords` | clause/create/options.go:89-127 | each error names one of these rules that is broken |
| `Table.BuildUsing` | clause/create/table.go:187-210 | writes a subtable's supertable, sorted tag names and placeholders and binds the values in that order |
| `Table.BuildTableOptions` | clause/create/table.go:234-258 | writes the options in their fixed order and binds the comment |
| `Table.BuildTable` | clause/create/table.go:165-232 | a nil table writes nothing, a refused one writes nothing and records its first broken rule, an unknown kind writes nothing when a command is due |
| `Table.Build` | clause/create/table.go:136-154 | two or more tables that are all regular with a supertable share one command; in any other list each table has its own |
| `TableParser.BodyRoundTrip` | clause/create/table.go:165-258 | one table's text and variables give back the table, up to fields its kind ignores, and leave what follows |
| `TableParser.FormInWords` | clause/create/table.go:136-163 | the clause has one command exactly for two or more subtables, nil tables counting as none |
| `TableParser.CreateRoundTrip` | clause/create/table.go:136-258 | any nonempty list of valid tables is recovered: two or more subtables by a reader of a single command, any other list by a reader that wants a command for each table |
| `TagUpdate.BuildTableTagUpdateSQL` | tag.go:43-87 | succeeds exactly when updates are given, no name is blank, no tag map is empty and tables differ up to case; otherwise the first broken rule and nothing else is returned |
| `TagUpdate.AcceptedInWords` | tag.go:44-73 | accepted are exactly nonempty lists with a byte that is no space in every table and tag name, tags for every table, and no two tables that agree up to case |
| `TagUpdate.ErrorsInWords` | tag.go:51-73 | each error names a rule that is broken and the table that breaks it |
| `TagUpdate.NoErrorIffAccepted` | tag.go:51-75 | the checks in their order, with the set of tables seen so far, find an error exactly when the rule is broken |
| `TagUpdate.StatementRoundTrip` | tag.go:43-87 | statement and variables ask for exactly the updates they were built from |
| `TagUpdate.ReorderingChangesNothing` | tag.go:58-62 | because the tables are distinct, updates in any order leave the same tags |
| `TagUpdate.BatchMeansItsParts` | tag.go:43-87 | the batch statement changes a server's tags exactly as the single statements do one after another, in any order |
| `TagMigrator.TagMigrator.SetTableTagsBatch` | tag.go:27-41 | without an error the tags are what the single updates would have made of them, after an error what they were; without failures exactly the acceptable batches on physical tables succeed, and any other ends with the error of a virtual table or of its first broken rule |
| `Kinds.OptionsInWords` | migrator.go:563-574 | a field is a tag or a key exactly if one of the comma-separated options of its struct tag says so, up to case and outer spaces |
| `Kinds.DefinitionsInWords` | migrator.go:540-561 | a table's columns are exactly the definitions of its migrated fields without the tag option, its tags those of the fields with it |
| `Kinds.RolesOfKinds` | migrator.go:638-647 | of DataTypeOf's kinds, in any case: JSON is refused as a data column, DECIMAL and BLOB as a tag, every other kind in neither role |
| `Kinds.PlainKinds` | tdengine.go:306-346 | floats take the type that holds their size; booleans, times, JSON and BLOB have one type each |
| `Kinds.OtherKinds` | tdengine.go:356 | any other declared type is taken as it is |
| `Kinds.DecimalArrives` | tdengine.go:297-305 | a decimal keeps its precision, 18 when none is given, and its scale |
| `Kinds.TagIndexInWords` | index.go:189-200 | a supported index is exactly one tag field with every other setting empty |
| `Schema.ModelColumns` | migrator.go:540-553 | one pass returns the definitions of the migrated fields, data columns and tags apart |
| `Schema.PartitionIsLossFree` | migrator.go:540-553 | columns and tags put back in field order are all the migrated fields' definitions: nothing is lost, doubled or reordered |
| `Schema.RulesInWords` | migrator.go:576-647 | the rules with their words and numbers: TIMESTAMP first, no JSON column, no DECIMAL or BLOB tag, no key tag, at most 128 tags, at most one BLOB, at most one key of nine types after the first column |
| `Schema.ValidateColumns` | migrator.go:590-606 | the column loop accepts exactly columns that are not JSON and have allowed keys, and counts BLOBs and keys |
| `Schema.ValidateTags` | migrator.go:610-617 | the tag loop accepts exactly tags that are no keys and neither DECIMAL nor BLOB |
| `Schema.ValidateModelColumns` | migrator.go:576-625 | nil exactly when timestamp first, placement, at most one BLOB, at most one key of a supported type after the first column, and at most 128 tags all hold; otherwise the error names a broken rule and the column that breaks it |
| `Schema.CountsUpToOne` | migrator.go:590-609 | the counters are at most one exactly when no two columns have the property |
| `Schema.InvalidityInWords` | migrator.go:195-201 | a model that is turned down is turned down for a rule it breaks |
| `Schema.ValidateModelIndexes` | index.go:189-200 | nil exactly when every index is on one tag with no further options; otherwise the error fits an index of the model |
| `Schema.LengthsArrive` | tdengine.go:291-296 | text and byte types keep the field's length, 64 when none is given |
| `Schema.IntegersFit` | tdengine.go:313-334 | an integer field gets the narrowest type that holds its size, unsigned exactly for unsigned fields |
| `Schema.DefinitionIsPrintable` | tdengine.go:288-357 | every definition of a field of a known kind can be printed and read back |
| `Catalog.RunsOnlyAdd` | migrator.go:205-211 | any sequence of statements whose creations carry IF NOT EXISTS leaves every table, column, tag, type and index as it was |
| `Catalog.UnguardedCreationLoses` | migrator.go:205-211 | without that guard a creation that is carried out loses what was there; with it the server need not refuse |
| `Catalog.ReachableIsOrderly` | migrator.go:189-316 | the server's rules keep names distinct, tags on supertables and indexes on tags of their own table, over any run |
| `Catalog.RunKeepsKeys` | migrator.go:425-433 | over statements that add no composite key, no existing table's key changes |
| `Catalog.RunIsPlaced` | migrator.go:638-647 | over safe statements no JSON data column and no DECIMAL or BLOB tag is introduced, and a new table has at most one key column |
| `Success.FieldPathSends` | migrator.go:248-270 | the field loop sends one addition for each missing field, in order, with its definition and in its role, up to the first one that cannot be added, and ends with that one's error |
| `Success.FieldPathSucceeds` | migrator.go:248-270 | it ends without an error exactly if no missing field is a key and a missing tag meets a supertable |
| `Success.IndexPathSucceeds` | index.go:135-156 | the index loop ends without an error exactly on a physical supertable or if no index is missing |
| `Success.ModelPathSucceeds` | migrator.go:222-277 | a model's migration ends without an error exactly if the model is valid and its table, as it is, can take what is missing; otherwise with the first obstacle's error |
| `Success.RunPathSucceeds` | migrator.go:222-277 | a run over models of different tables ends without an error exactly if each of them is migratable on the catalog it starts from, and otherwise with the first one's error |
| `Success.CreateRunSucceeds` | migrator.go:189-220 | the same for CreateTable |
| `Success.ColumnPathSucceeds` | migrator.go:279-316 | AddColumn ends without an error exactly for a known field that is ignored or allowed on this table, otherwise with the error of its first failed check, and sends exactly that field's addition |
| `Plan.FieldPathCompletes` | migrator.go:248-270 | if the field loop ends without an error, every migrated field exists as a column or tag up to case |
| `Plan.IndexPathCompletes` | index.go:140-153 | if the index loop ends without an error and its names resolve, every index is there by name or tag |
| `Plan.ModelPathCompletes` | migrator.go:222-277 | one model without an error leaves the catalog with all it asks for, whether its table was there or not |
| `Plan.RunPathCompletes` | migrator.go:222-277 | a run over any models, also several on one table, leaves every one of them complete |
| `Plan.CompleteIsIdle` | migrator.go:222-277 | on a complete catalog a model has nothing to send and no error to report |
| `Plan.SecondRunIsIdle` | migrator.go:222-277 | after a run without an error, a second run on the same models sends nothing |
| `Plan.UniqueAfter` | index.go:135-165 | statements that add no second index keep one index per tag, the automatic first-tag index included |
| `Plan.IndexPathAddsNoSecond` | index.go:135-156 | wherever the index loop stops, it has given no tag a second index |
| `Plan.PathAddsNoSecond` | migrator.go:189-277 | the same for wherever a model's creation or migration stops |
| `Plan.PathIsSafe` | migrator.go:189-277 | every statement of a model's plan adds only what the placement and key rules allow |
| `IndexNames.CompletesIffResolving` | migrator.go:222-277 | a model's migration without an error completes every reachable catalog if and only if each index name looks up to that name or that tag |
| `IndexNames.OnePerTagIffResolving` | migrator.go:222-277 | a model's migration keeps one index per tag on every reachable catalog if and only if the same holds |
| `IndexNames.OneCondition` | index.go:167-187 | for models GORM can make, looking up to the name or tag and looking up to the tag are one condition |
| `IndexNames.ConfusingNamesFail` | index.go:140-149 | a valid model, from an empty catalog, every statement accepted and no error: the index named like the other tag's Go field is missing and the other tag has two |
| `IndexNames.RefusingServerCompletes` | index.go:135-156 | on a server that refuses a second index on a tag, a migration without an error has completed the model, whatever its index names |
| `Migrator.TypeTellsVirtual` | migrator.go:527-529 | the type text is recognised as virtual exactly for virtual tables |
| `Migrator.ColumnNameInWords` | migrator.go:154-158 | a known field's column name or Go name stands for its column, any other name for itself |
| `Migrator.IndexNamedInWords` | index.go:167-187 | the lookup's index is taken exactly if it is one tag with nothing else asked for, and otherwise refused for its reason |
| `Migrator.Migrator.HasTable` | migrator.go:54-77 | yes only for an existing table; with every query answered, exactly for those |
| `Migrator.Migrator.HasColumn` | migrator.go:151-187 | for any name, schema or not: yes only if the column or tag it stands for exists up to case; with every query answered, exactly then |
| `Migrator.Migrator.IsVirtualTable` | migrator.go:508-525 | the answer is right when there is one, and missing exactly when a query failed |
| `Migrator.Migrator.EnsurePhysicalTable` | migrator.go:497-506 | no error only for tables that are not virtual |
| `Migrator.Migrator.AskStable` | migrator.go:531-538 | the answer is right when there is one |
| `Migrator.Migrator.HasTagIndex` | index.go:158-165 | an index of that name or on that tag, when the query is answered |
| `Migrator.Migrator.Alter` | migrator.go:425-495 | at most one ALTER is sent, never on a virtual table, never with a composite key for a data column, and the error says which |
| `Migrator.Migrator.CreateIndex` | index.go:37-58 | for any model and name: at most one CREATE INDEX, for the index its name looks up to if that is on one tag, on a physical supertable; otherwise the lookup's error |
| `Migrator.Migrator.CreateMissingIndexes` | index.go:135-156 | follows its plan under any failures |
| `Migrator.Migrator.AddMissingFields` | migrator.go:248-270 | the field loop follows its plan under any failures |
| `Migrator.Migrator.Validate` | migrator.go:231-240 | both validations together accept exactly the valid schemas and return the first one's error otherwise |
| `Migrator.Migrator.CreateModel` | migrator.go:191-215 | CreateTable for one model follows its plan; a model that validation turns down sends nothing |
| `Migrator.Migrator.CreateTables` | migrator.go:189-220 | CreateTable for a list follows the plan of the list under any failures, only adds, and keeps one index per tag; with answered queries and no refusal it succeeds exactly if every model is creatable |
| `Migrator.Migrator.MigrateModel` | migrator.go:230-272 | the migration of an existing table follows its plan; a model that validation turns down sends nothing |
| `Migrator.Migrator.MigrateOne` | migrator.go:223-275 | a failed HasTable may lead to the creation plan instead, and to nothing else |
| `Migrator.Migrator.AutoMigrate` | migrator.go:222-277 | under any failures: only additions, explained by whole plans and at most the beginning of one more, all safe, one index per tag kept; with every query answered: exactly the plan, on success every model complete, and without refusals success exactly if every model is migratable |
| `Migrator.Migrator.AutoMigrateTwice` | migrator.go:222-277 | after a successful first run with answered queries the second one succeeds and sends nothing |
| `Migrator.Migrator.AddColumn` | migrator.go:279-316 | without an error the field is ignored or was not there and is now the last column, or the last tag exactly if it is one; with answered queries and no refusal it succeeds exactly if the field is known and allowed |
| `Migrator.Migrator.Run` | migrator.go:189-316 | over any sequence of CreateTable, AutoMigrate, AddColumn and AddStableColumn calls nothing is lost and no table's key changes; without direct AddStableColumn calls nothing misplaced is introduced |
| `Statements.DdlRoundTrip` | migrator.go:425-495 | every statement with readable names and types is recovered from its SQL text |
| `Statements.PlansAreSayable` | migrator.go:189-277 | everything a migration of a model with dotted names and known types sends is recovered from its SQL text |
| `Server.CanonicalIsAlike` | clause/create/table.go:99-111 | a column read back from its text keeps its name, key flag and base type, also when its length moves out of the type name |
| `Server.QueriesAreAlike` | migrator.go:54-187 | every catalog query has the same answer on the catalog that was made from texts |
| `Server.AcceptsAlike` | migrator.go:425-495 | the server's rules allow a statement read from its text exactly when they allow the statement |
| `Server.SafeAlike` | migrator.go:586-647 | placement and key rules hold of a statement read from its text exactly when they hold of the statement |
| `Server.TextsAreServed` | migrator.go:189-316 | the texts of any run lead the server to the run's catalog, types as spelled |
| `Server.MigrationIsServed` | migrator.go:222-277 | a model's migration sent as text ends in its plan's catalog, complete when the plan has no error and the names resolve |

## Left out

- Connections, callbacks, DSN parsing, `shouldInterpolate` (`tdengine.go:52-80`, `tdengine.go:235-251`): the binding mode is a parameter of the builder.
- `Explain` (`tdengine.go:270-286`): it belongs to driver-go, which is not part of this model.
- GORM itself is not part of this model. Assumed of it: `AddVar` appends a variable and writes a placeholder per value, and a parenthesised list for a list; `WriteQuoted` calls the dialect's `QuoteTo` for a name without alias; `clause.Expr` copies its text, binds the next value at each placeholder and appends surplus values unbound; `LookIndex` and `LookUpField` as written in `Schema.dfy`; `ReorderModels` hands over the models in the order in which they are processed; `RunWithValue` calls its function once.
- GORM's own scan for question marks in the text given to `Exec`: a name that contains a question mark would be taken for a placeholder there.
- `CurrentDatabase`: its failures are not modelled; every query refers to one database.
- Strings are byte sequences. Case folding, trimming and blank tests are ASCII; Unicode case and Unicode spaces are not modelled.
- Sorting is a function on values (insertion sort); the in-place algorithm of Go's `sort.Strings` is not part of this model.
- Nil columns in a table's lists: the source dereferences them when it prints.
- `Window.WindowRoundTrip`: conditions of an event window are `clause.Expr` values with single values and one placeholder for each of them; lists and other clause expressions in a condition are not modelled.
- `IndexNames.CompletesIffResolving`: of models whose index fields are migrated fields of the model, with distinct index names and column names that differ up to case. The server's limit of 128 tags is not a rule of `Accepts`, and the catalogs that show the failure have one more tag for each index of the model.
- `Success.RunPathSucceeds`: for models of different tables whose column names differ up to case; GORM's `ReorderModels` hands over every table once, and a table with colliding names cannot be created.
- `Identifier.QuoteIsInjective`: for names without backticks only, because a run of backticks is emitted with an even length and so two names can have one quoted form; `Identifier.SameTextSameNames` is the exact statement with backticks.
- `Migrator.Migrator.AutoMigrate`: completeness needs index names that resolve, for the reason given under "How to read the results".
- `Migrator.Migrator.Run`: placement is not claimed with direct `AddStableColumn` calls, and nothing is claimed for direct `AddStableTag` calls; both send what they are given (`migrator.go:425-433`, `migrator.go:452-457`).
- The server's answers: a statement that was carried out although the connection reported an error is not modelled.
- Error texts and wrapping: errors are values of a datatype.
- `SetTableTags` and `SetTableTag`: one-line wrappers around the batch.
- Destructive and explicit DDL: DropColumn, AlterColumn, DropTable, DropIndex, ModifyStable and RenameStable calls.
- `TableType`, `ColumnTypes`, `GetTables`, `GetIndexes`, `HasIndex`: metadata copying.
- `Update`, `Delete`, DeleteTimeRange, FILL, RANGE, EVERY, PARTITION BY, SLIMIT: short printers with little to prove beyond those above.
- `CreateTable.AddTables` (`clause/create/table.go:59-62`) appends without copying, so no persistence is claimed for it; `MergeClause` methods are plumbing.
