# A verified model of the encrypted SQL client

The client turns a plaintext table into four multimaps (rows, columns, values, joins), flattens each
into a key/value table of a database, and answers select, join, projection and sum queries by walking
opaque tags. This project models that path from the text file to the decrypted answer and proves that
the answer is the plaintext one, or exactly when it is not.

| file | what it models |
|---|---|
| `Numerals.dfy`, `Keys.dfy`, `Hex.dfy` | printing and reading numbers, the comma-joined keys, bytes as hex |
| `Scheme.dfy` | the foreign cryptography as parameters with explicit assumptions; tags and labels |
| `Cells.dfy` | padding, encrypting, decrypting and showing one cell |
| `MultiMaps.dfy`, `Stores.dfy` | the multimap class, `setup`, the upsert, the counter walk |
| `Tables.dfy`, `DataMapper.dfy`, `Indexes.dfy` | the four index builders and what their indexes say |
| `Planner.dfy` | the parser behind its regular expressions: from the names in a query to its plan |
| `Catalogs.dfy`, `Service.dfy` | what the database means; the service, its uploads and its queries |
| `Serving.dfy`, `Reuploads.dfy`, `Deletions.dfy` | when the stores answer for a table; repeated uploads; deleted rows |
| `Runs.dfy`, `Joins.dfy` | runs of uploads: the three shared stores, and the join store |
| `CrossProducts.dfy`, `Executor.dfy`, `Sums.dfy`, `Queries.dfy` | the plaintext answer of a join; query plans and what they find |
| `Leftovers.dfy` | queries on lists that lie on top of older ones: exactly when what is left spoils the answer |
| `Answering.dfy` | what is shown; queries after runs under new names |
| `Histories.dfy`, `Traces.dfy` | queries after runs that repeat names, from the stores and from the history of the tables |
| `SessionLaws.dfy`, `Sessions.dfy` | the session of the main program, over whatever earlier sessions left |
| `TableSessions.dfy` | sessions with one table: select and sum queries |
| `Csv.dfy`, `ServerLabels.dfy` | the file reader; the label function of the server extension |
| `Sample.dfy` | sessions on the sample tables of the repository |

How the pieces fit: a stored table `IsFlat` for a multimap when it holds each list entry under its label
and nothing else. `setup` establishes that, an upsert keeps it for the overlaid multimap, and a walk in a
flat table finds the list of the multimap. So uploads are steps on a catalog of multimaps
(`Service.Step`), and the theorems about runs and queries are about that catalog and hold of every
database that represents it.

A run starts with a client that has no tables, over any represented catalog, and may upload a table name any number of
times. A table *prevails* (`Runs.Prevails`) when it is the latest of its name, all its cells could be stored, and no list
under its keys was ever longer, before the run or for an older table of the name; a join prevails (`Joins.JoinPrevails`)
by the same measure. That decides whether everything about a table is right. Whether one query is right depends only on the
lists it reads: the new lists lie on top of older ones (`Leftovers.OnTop`), and what is *left* behind them is walked as
well. Two names are *apart* (`Keys.Apart`) when no value key of the one can be one of the other.

## Assumptions

All cryptography enters through the record `Scheme.Scheme` and the predicate `Scheme.Assumptions`. They can be met:
`Scheme.PlainIsValid` gives an instance for every scope and modulus, `Sample.SessionScheme` one whose scope covers two
sessions with any two tables and any query, and the methods of `Sample` follow whole sessions through to their literal
answers, under requirements that `Sample.SampleSessionsArePossible` meets.

- The prf (AES-CBC under a fixed IV) is injective on texts.
- The label digest is cut to 16 bytes (src/EncryptTools/EncryptUtil.cpp:204), so it cannot be injective on all
  texts. It is assumed not to collide on a finite scope only: the tags `s.tags` with counters up to `s.limit`. Theorems
  ask that the keys and list lengths they speak of lie in the scope; the scope itself is arbitrary.
- A ciphertext of whole blocks is one block longer, and decrypting it without the final call yields the blocks (OpenSSL
  holds back the padding block). What is read behind them is an arbitrary `s.stale`. What comes of a ciphertext that is
  longer than the fixed buffers of 128 bytes, or no whole number of blocks, is an arbitrary `s.misread`.
- BFV decryption inverts encryption below the plain modulus, and addition of ciphertexts adds modulo it. Encryption is
  randomised: the builders draw an arbitrary coin for each cell.
- The database functions that the executor calls, other than `sum_by_row`, are not part of the repository. They are taken
  to walk counters as `sum_by_row` does, with the client's label, and to read a temporary table in the order it was
  filled; a projection adds nothing for a label that is missing. Reading a table that was never created fails, and with
  it the whole plan, unless there is no tag to follow and so nothing is read.
- A client starts without tables. The database it connects to holds any multimaps in flat form.

## What was found to differ from the obvious expectation

- A text cell comes back as entered only if it holds no `#`, does not fill its blocks exactly (unless a stale `#`
  happens to follow) and has at most 112 characters: `Cells.SymmetricRoundTrip`, `Cells.ShortTextSurvives`,
  `Cells.StaleIsShown`, `Cells.FillCharacterIsLost`, `Cells.LongTextIsLost`.
- A number with a minus is refused when it is stored; a plus, leading zeros, spaces in front and text behind the digits
  are dropped: `Cells.MinusIsRefused`, `Cells.OnlyTheNumberIsStored`, `Cells.LeadingZerosAreLost`.
- The parser looks at the first condition of a query of one table only, and at none of a sum: further conditions do not
  filter the answer: `Planner.RestIsIgnored`, `TableSessions.SelectSession`, `Sample.ScoreSumOfCourse`. Of several selected
  attributes a join shows the last known one: `Planner.OnlyTheLastIsProjected`.
- A value with a dot in it is taken for a column of a table and looked up in another form; a query of one table that
  writes `T.c` for its condition has no plan: `Planner.SelectIsPlanned`, `Planner.DottedJoinValue`,
  `Planner.QualifiedSelectHasNoPlan`.
- The order in a join query matters. With the sides of the join equation exchanged it asks for a table that is never
  created, and with the two equations exchanged it filters by the join columns: `Planner.SidesOfJoinMatter`,
  `Planner.OrderOfConditionsMatters`, `Answering.ExchangedJoinFails`.
- A select of a column of an unsupported type shows empty texts: `TableSessions.SelectSession`.
- A table uploaded again is served exactly when no list shrank. Changing one cell leaves the old text findable, and
  deleting the last rows deletes nothing: `Reuploads.ReuploadServesIff`, `Deletions.ChangedCellStaysFindable`,
  `Deletions.DeletedRowsStay`, `Sample.SessionsAroundDeletion`. A query on it can still be right: exactly when what is left
  of the lists it reads leads it to nothing, so that a change in cells it does not read does no harm:
  `Leftovers.ReuploadSelectIff`, `Leftovers.ReuploadSumIff`, `SessionLaws.SecondSessionIff`,
  `Sample.SessionsAroundRescoring`.
- The same holds of the join of two tables: `Reuploads.ReuploadJoinIff`, `Joins.RunJoinIff`.
- Uploads by file never refresh the join; without an upload by table it is never created and the join query has no
  answer: `Joins.NewJoinIff`, `Answering.NewJoinQueryIff`, `Sample.FileSession`.
- A table one of whose cells cannot be stored is remembered by the client though nothing of it is written:
  `Runs.NewNameServesIff`, `Sample.AbsentIsRememberedNotFound`.
- A column of an unsupported type shifts the columns behind it, so that a query for one column shows another one:
  `Tables.EntryIsColumnIff`, `Tables.EntryBehindUnsupported`, `Queries.SelectQuery`, `Queries.JoinQuery`.
- The plan of a join query decrypts text whatever column it projects. Its theorems speak of what is shown under the
  guard that the type of the column is `string`; a query for scores shows what an overflow leaves: `Sample.ScoreSession`.
- Table names with commas can share value keys with other tables: `Keys.ValueKeysClashIff`.
- The server extension's own label function confuses counters 1 and 10: `ServerLabels.ServerLabelsEqualIff`.

## Model

| member | source | states |
|---|---|---|
| TableSessions.SelectSession | src/main.cpp:463 | A session over any database that uploads a table and asks, by the names of its columns, for one of them: it throws exactly when a cell cannot be stored; else the reply is decrypted by the type of the selected column, and shows that column of the rows of the first condition exactly when the row tags left behind theirs lead to no entry; over a database that holds nothing of the name it is the plaintext answer, text for text, exactly when the selected cells are faithful; a column of another type shows empty texts; further conditions change nothing |
| TableSessions.SumSession | src/main.cpp:464 | The same session asking for the sum of a column of numbers: the answer is the number of the whole column's sum, whatever conditions stand behind the query, exactly when the ciphertexts left behind the column do not change it modulo the plain modulus, and over a database that holds nothing of the name exactly when it is below the modulus |
| Traces.RunJoinQueryIff | src/main.cpp:456-462 | After any run of uploads, with names repeated at will and otherwise apart, whose last refresh was with tables of the same partners: the join query finds the plaintext answer of the last stored tables, in order and with multiplicity, exactly when no older row left behind the partners of a selected row, and no partner of an older row left behind the selected ones, ever had the entry asked for |
| Traces.RunSelectIff | src/main.cpp:463 | After any run a select query on the last stored table of a name finds the plaintext answer exactly when no older row left behind the selected ones ever had the entry asked for |
| Traces.RepeatedSelectIff | src/main.cpp:463 | For a name that was new at first and tables that all store the entry: exactly when the text was never more frequent in its column |
| Traces.RunSumIff | src/main.cpp:464 | After any run the number shown for the sum of a column is the true sum exactly when the numbers of older rows left behind it do not change that modulo the plain modulus |
| Histories.RunAnswersJoin | src/Sql/SqlPlanExecutor.cpp:19-85 | Over whatever the database held, the join query finds, and in a text column shows, the plaintext answer exactly when no tag that is left leads it to an entry |
| Histories.RunAnswersSelect | src/Sql/SqlPlanExecutor.cpp:35-55 | The same of a select query: exactly when the row tags left behind those of its rows lead to no entry |
| Histories.RunAnswersSum | src/Sql/SqlPlanExecutor.cpp:56-61 | The same of a sum, where the ciphertexts left behind the column are ciphertexts of numbers: exactly when they do not change it modulo the plain modulus |
| Answering.NewJoinQueryIff | src/Sql/SqlPlanExecutor.cpp:19-85 | After a run under new names the join query finds the plaintext answer exactly when some table was stored, the join was refreshed once a stored row of courses is selected, and both tables were stored once a pair is selected; otherwise it fails or finds nothing |
| Answering.NewJoinShownIff | src/EncryptService.cpp:20-33 | The same of what is shown in a text column |
| Answering.NewSelectIff | src/Sql/SqlPlanExecutor.cpp:19-85 | After a run under new names a select query finds the plaintext answer exactly when the table could be stored, or no row is selected and some table was stored |
| Answering.PlainAnswerIff | src/EncryptService.cpp:71-92 | A shown answer equals the plaintext text for text exactly when every cell in it is faithful; for text that includes that its ciphertext fits the decryption buffer |
| Sessions.TestSql | src/main.cpp:437-466 | The main program's session over any database, asking by the names of the columns: it ends in an exception exactly when a cell of one of the tables cannot be stored; else its uploads are merged over what was there, and the answer in a text column is the plaintext join exactly when no tag that is left leads the query to an entry; over what an earlier session left that is exactly when nothing of its tables is in the way |
| Sessions.FirstSession | src/main.cpp:437-466 | Over an empty database the session shows the plaintext join, or throws exactly when a cell cannot be stored |
| SessionLaws.SecondSessionIff | src/main.cpp:437-466 | Over what an earlier session left, whatever was changed in the two tables: the join query finds the plaintext answer exactly when no selected row lost a partner and no older row behind the selected ones has or had one |
| SessionLaws.SessionFindsIff | src/main.cpp:437-466 | Over any database: exactly when nothing that is left of what stood there leads the query to an entry |
| SessionLaws.SessionServesIff | src/EncryptService.cpp:58-69 | After the session each table, and the join, is right exactly when no list under its keys was longer before |
| SessionLaws.SecondSessionFinds | src/main.cpp:437-466 | A session with tables that lost rows at their end since an earlier session finds the answer of the earlier one |
| Leftovers.ReuploadSelectIff | src/DataMapper.cpp:434-435 | A select query on a table uploaded over an older one finds the plaintext answer exactly when the text did not become rarer in its column, whatever else was changed |
| Leftovers.ReuploadSumIff | src/DataMapper.cpp:434-435 | The sum of a column uploaded over an older one is shown right exactly when the numbers of the older rows beyond the new table do not change it modulo the plain modulus |
| Leftovers.SelectQueryOverIff | src/Sql/SqlPlanExecutor.cpp:35-55 | Over any older lists a select query is right exactly when the tags left behind lead to no entry; else it fails or finds too many cells |
| Leftovers.JoinQueryOverIff | src/Sql/SqlPlanExecutor.cpp:19-85 | Over any older lists a join query is right exactly when the tags left behind the partners of the selected rows and those reached from the row tags left behind the selected ones lead to no entry |
| Leftovers.SumQueryOverIff | contrib/calc_cpp_demo/calc_cpp_demo.cpp:154-197 | Over any older ciphertexts a sum is right exactly when those left behind do not change it modulo the plain modulus |
| Leftovers.FollowMissingIff | src/Sql/TokenGenerator.cpp:53-75 | Following row tags through a join store and projecting finds nothing exactly when the lists of all partners are too short |
| Sample.ScoreOfCourse | src/main.cpp:463 | On the sample students, `SELECT Score FROM student WHERE Course = 16` answers the number 80 |
| Sample.TotalScore | src/main.cpp:464 | `SELECT SUM(Score) FROM student` answers 270 exactly when the plain modulus is above it |
| Sample.ScoreSumOfCourse | src/paser/paser.cpp:456-471 | The same sum asked with `WHERE Course = 16` answers 270 as well, though one student takes that course |
| Sample.SampleSession | src/main.cpp:456-465 | On the repository's sample tables (Resource/data/table0.csv, table1.csv) the session asking for the students of the course Math answers Bob and Eve |
| Sample.SessionsAroundDeletion | src/main.cpp:456-465 | Running that session, deleting Eve and running it again answers Bob and Eve again; by the law of a second session that is not the plaintext answer |
| Sample.SessionsAroundRescoring | src/main.cpp:456-465 | Running it again with another score for Alice answers Bob and Eve, by the same law, though the table as a whole is no longer served |
| Sample.SampleJoinWithoutEve | Resource/data/table0.csv:1-5 | Over the second upload the plaintext join is Bob alone |
| Planner.ParseSql | src/paser/paser.cpp:342-503 | The loops over attributes and conditions, and the choice between join, sum and select, make the plan that the query stands for, and none where the source reads behind a list or uses a search that found nothing |
| Planner.SelectIsPlanned | src/paser/paser.cpp:472-497 | For an uploaded table and two named columns the plan looks the value up under the number of the one, projects the number of the other and asks for its type; the value is kept exactly when it has no dot before its end |
| Planner.SumIsPlanned | src/paser/paser.cpp:456-471 | The plan of a sum adds up the named column and asks for its type |
| Planner.JoinIsPlanned | src/paser/paser.cpp:382-450 | The plan of a join filters by the second equation, joins by the first, in the order of its sides, projects the named column and asks for text |
| Planner.NameLeadsToColumn | src/dataObject/TableInfo.cpp:10-15 | What is remembered of an uploaded table leads from the name of a column to its number and its type |
| Planner.RestIsIgnored | src/paser/paser.cpp:424-497 | Nothing but the first condition and attribute of a query of one table, the first two conditions of a join and the summed column has an effect on the plan |
| Planner.OnlyTheLastIsProjected | src/paser/paser.cpp:361-381 | Of several attributes the last one that is a known column gives the projected number |
| Planner.DottedJoinValue | src/paser/paser.cpp:382-418 | A value a.b in a join query is looked up under a text that is no value key of the table |
| Planner.QualifiedSelectHasNoPlan | src/paser/paser.cpp:474-476 | A query of one table whose condition is written T.c has no plan |
| Planner.SidesOfJoinMatter | src/paser/paser.cpp:438-440 | With the sides of the join equation exchanged the plan asks for the join table of the exchanged pair |
| Planner.OrderOfConditionsMatters | src/paser/paser.cpp:424-440 | With the two equations exchanged the plan filters by the join columns and joins by the value |
| Planner.ResolvedIsKeptIff | src/paser/paser.cpp:382-418 | A text in a condition is kept exactly when it has no dot before its end |
| Planner.PartsOfDotted | src/paser/paser.cpp:264-275 | Splitting at the dots gives back the parts that were put together, when none holds a dot and the last is not empty |
| Planner.FindColIndex | src/paser/paser.cpp:222-228 | The loop finds the first column of the name |
| Answering.ExchangedJoinFails | src/Sql/SqlPlanExecutor.cpp:46-53 | The plan with exchanged sides fails once a row of the courses is selected |
| Answering.UnstoredSum | src/Sql/SqlPlanExecutor.cpp:56-61 | A sum of a table of which nothing is stored finds no row |
| Sample.ScoreSession | src/paser/paser.cpp:445-448 | With any scheme whose ciphertexts of numbers exceed 128 bytes the session asking for scores shows what the overflowing text decryption makes of the ciphertexts of 98 and 92, for some schemes nothing |
| Sample.FileSession | src/EncryptService.cpp:46-57 | Uploading both sample tables by file leaves the join query without an answer |
| Sample.AbsentIsRememberedNotFound | src/EncryptService.cpp:58-65 | A table with the score `absent` is remembered after its upload threw, and a query for its row finds nothing |
| Queries.JoinQuery | src/Sql/SqlPlanExecutor.cpp:19-85 | Value walk, then join walk on each tag, then row lookup finds stored forms of exactly the cells of the filtered cross product, in the column that the projected entry belongs to, in any represented database that serves both tables and their join |
| Queries.SelectQuery | src/Sql/SqlPlanExecutor.cpp:35-55 | Value walk and projection find stored forms of exactly the matching rows' cells, in the column that the projected entry belongs to, and nothing when there is no such entry |
| Queries.FieldsInCatalog | src/Sql/TokenGenerator.cpp:67-75 | Projecting rows on the position of a supported column finds stored forms of their cells in it |
| Queries.FieldsMissingIff | src/Sql/TokenGenerator.cpp:67-75 | Projecting rows finds nothing exactly when all their lists are too short |
| CrossProducts.CrossExact | src/paser/paser.cpp:424-450 | The reference answer is the selected pairs of the cross product, each once, in lexicographic order |
| CrossProducts.CrossIsNested | src/DataMapper.cpp:212-234 | Filtering the cross product equals selecting rows first and following each to its join partners |
| Queries.WalkInCatalog | src/Sql/TokenGenerator.cpp:39-52 | In a represented database a walk with the tag of a key finds the list of that key, nothing for an absent key, and fails on a table that was never created |
| Queries.SumQuery | src/Sql/SqlPlanExecutor.cpp:56-61 | The sum query finds one ciphertext, of the plaintext column sum modulo the plain modulus |
| Queries.SumShownIff | src/EncryptService.cpp:81-84 | The number shown for a sum query is the true sum exactly when that is below the plain modulus |
| Queries.FoundIsShown | src/EncryptService.cpp:71-92 | Decrypting found cells by the type of their column shows the plaintext cells row by row |
| Executor.Execute | src/Sql/SqlPlanExecutor.cpp:19-85 | The loop over plan steps with temporary tables computes the composition of the steps up to the result step |
| Executor.OtherPlansFail | src/Sql/SqlPlanExecutor.cpp:23-71 | A step of an unknown kind, or a join or projection with no step before it, leaves the plan without a result; the result step ends it |
| Executor.DecryptedResult | src/EncryptService.cpp:71-92 | Every field within the width of the first row is replaced by its decryption, or the exception of some field is thrown |
| Service.EncryptService.UploadTableIntoSql | src/EncryptService.cpp:58-65 | One upload: name, columns, types and key types are remembered as those of the table; either all three indexes are merged and the join refreshed, or nothing is written, exactly when some cell throws |
| Service.EncryptService.UploadFileIntoSql | src/EncryptService.cpp:46-57 | The same from a file, remembered field by field under the file name up to its first dot, without refreshing the join |
| Service.EncryptService.CheckAndCreateJoinMM | src/EncryptService.cpp:35-42 | The join index of courses and students is merged exactly when both are remembered |
| Service.EncryptService.Remember | src/EncryptService.cpp:59-63 | Both maps get the table under its name, field by field, before anything is written, and keep all others; a cell that throws leaves the database as it was |
| Service.EncryptService.ExecuteSql | src/EncryptService.cpp:20-33 | The plan that the parser makes of the query is run, and what it finds is decrypted by the type its result step names; neither tables nor database change, and a query without a plan has no answer |
| Service.GenerateEmmIntoSql | src/DataMapper.cpp:303-344 | The three finished indexes are merged into their stored tables, or on the first fault in row order nothing is |
| Service.GenerateJoinEmmIntoSql | src/DataMapper.cpp:347-359 | The join index is merged into the table named after both tables and columns |
| Runs.RunServesIff | src/EncryptService.cpp:46-65 | After any run of uploads by table or file, with names repeated at will and otherwise apart, over whatever the database held, the latest table of a name is served in its row, column and value lookups exactly when all its cells could be stored and no list under its keys was ever longer, before the run or for an older table of the name |
| Runs.NewNameServesIff | src/EncryptService.cpp:46-65 | Under a new name that is exactly when all its cells could be stored; else its keys find nothing |
| Runs.RunHistory | src/DataMapper.cpp:374-388 | The lists that stand in the way of a table after some uploads are those from before the run and those of older tables of its name |
| Runs.RunServesOthers | src/DataMapper.cpp:374-388 | A table of an earlier client is served as before by a run that does not use its name |
| Runs.RunRemembers | src/EncryptService.cpp:59-62 | The table remembered under a name is the one last uploaded under it |
| Runs.RunCreatesIff | src/DataMapper.cpp:389-401 | The three shared tables exist exactly when they did before or some table could be stored |
| Runs.UploadConserves | src/DataMapper.cpp:303-344 | Conservation: an upload under a new name adds rows times stored columns entries to the row and column stores and rows times columns to the value store |
| Runs.RunConserves | src/DataMapper.cpp:374-388 | Conservation over runs: the three stored tables grow by exactly one database row for each cell uploaded |
| Serving.StepKeeps | src/EncryptService.cpp:58-65 | One upload, successful or not, changes no row, column or value list under a name apart from its own |
| Joins.RunJoinIff | src/EncryptService.cpp:35-42 | After any run the join store is right for the tables of the last refresh exactly when none of its lists was ever longer; it is then right for tables uploaded since exactly when every row has the same partners |
| Joins.NewJoinIff | src/EncryptService.cpp:35-42 | Under new names, once both tables are there in either order, the join table exists and is right exactly when some upload by table succeeded with both there |
| Joins.UnrefreshedJoin | src/EncryptService.cpp:46-57 | Without a refresh, as after uploads by file alone, the join store is what it was, and is not created |
| Joins.JoinHistory | src/EncryptService.cpp:66-69 | The join lists that stand in the way of a refresh are those from before the run and those of older refreshes |
| Reuploads.UploadServesIff | src/DataMapper.cpp:434-435 | An uploaded table is served exactly when no list that stood under its keys was longer |
| Reuploads.ReuploadServesIff | src/DataMapper.cpp:434-435 | A table uploaded over an older one of its name is served exactly when no row, column or value list shrank |
| Reuploads.ReuploadJoinIff | src/DataMapper.cpp:347-359 | A join merged over the join of older tables is right exactly when no row lost a partner |
| Reuploads.StaleJoinIff | src/EncryptService.cpp:46-57 | A join store that is right for two tables is right for two others of their names exactly when all rows have the same partners |
| Reuploads.ValuesOverIff | src/DataMapper.cpp:342 | For the value store: exactly when no text had a longer list in its column |
| Reuploads.RowsOverIff | src/DataMapper.cpp:341 | For the row store: exactly when no row had a longer list |
| Reuploads.ColsOverIff | src/DataMapper.cpp:343 | For the column store: exactly when no column had a longer list |
| Deletions.DeletedRowsStay | src/DataMapper.cpp:374-388 | Uploading a table again without rows at its end leaves the stores serving the table with these rows, and not the one uploaded |
| Deletions.DeletedPartnersStay | src/DataMapper.cpp:347-359 | The same of the join store |
| Deletions.ChangedCellStaysFindable | src/DataMapper.cpp:374-388 | After CS was replaced by Math and the table uploaded again, the value list at CS still leads to row 0, and the new table is not served |
| Catalogs.MergeRepresents | src/DataMapper.cpp:374-388 | Writing the flat form of an index over a stored table represents the overlaid multimap |
| Stores.Setup | src/EncryptManager.cpp:22-56 | The flat map holds each list entry under its label and nothing else, and has as many rows as there are list entries: no insertion finds its label taken |
| Stores.WalkFlat | src/EncryptManager.cpp:46-50 | Walking counters from 0 with the tag of a key gives exactly its list, and the empty list for an absent key |
| Stores.WalkStore | contrib/calc_cpp_demo/calc_cpp_demo--1.0.sql:33-40 | The counter loop stops on every store at the first missing label and collects the values before it in order |
| Stores.HitsAreBounded | contrib/calc_cpp_demo/calc_cpp_demo--1.0.sql:34-36 | Labels of one tag that were all found are different members of the store, so there are no more of them than rows |
| Stores.HitIff | src/EncryptManager.cpp:38-50 | A label is in the flat store exactly when its counter is below the length of the list, and then holds that entry |
| Stores.FlatSize | src/EncryptManager.cpp:33-54 | Conservation: a flat store has as many rows as the multimap has list entries |
| Stores.FlatAppend | src/EncryptManager.cpp:50 | One more list entry takes one label that was free |
| Stores.FlatOverlay | src/DataMapper.cpp:384-386 | A flat store overridden by another is flat for the overlaid multimap |
| Stores.ReuploadLaw | src/DataMapper.cpp:374-388 | After an override a walk finds the new list followed by what the old list had beyond it, and so the new list exactly when the old one was not longer |
| Stores.EncryptedMultiMap.Insert | src/dataObject/EncryptedMultiMap.cpp:18-21 | The first value under a label is kept; the label is recorded each time |
| Stores.Database.InsertEMM | src/DataMapper.cpp:374-388 | The loop of upserts, in any order and with repeats, leaves the old table overridden by the new entries and all other tables alone |
| Stores.Database.CreateTableIfNotExist | src/DataMapper.cpp:389-401 | An existing table keeps its rows |
| DataMapper.ValueMultiMapConstruct | src/DataMapper.cpp:172-205 | Under T,c,v stand the tags of the rows whose cell in column c is v, ascending; no other keys; rows times columns entries |
| DataMapper.JoinMultiMapConstruct | src/DataMapper.cpp:206-237 | Under T1,r1 stand the tags of the rows of T2 that join with r1, ascending; no other keys; as many entries as joining pairs |
| DataMapper.RowMultiMapConstruct | src/DataMapper.cpp:113-142 | Under T,r stand stored forms of the supported cells of row r in column order; it throws exactly when a cell does, with the first fault in row order |
| DataMapper.ColMultiMapConstruct | src/DataMapper.cpp:144-171 | Under T,c stand stored forms of column c in row order, none for an unsupported type; it throws exactly when a cell does |
| DataMapper.InsertCell | src/DataMapper.cpp:129-135 | One cell appends one stored form, nothing, or throws what conversion or encryption throws |
| Indexes.ValueIndexExact | src/DataMapper.cpp:172-205 | A row's tag is in the list at T,c,v exactly when its cell is v, and no tag is there twice |
| Indexes.JoinIndexExact | src/DataMapper.cpp:206-237 | A row's tag is in the list at T1,r1 exactly when the rows join, and no tag is there twice |
| Indexes.IndexesAreTransposes | src/DataMapper.cpp:113-171 | Entry r of column c and the entry of row r at the position of c both decrypt to the shown cell |
| Tables.MatchesExact | src/DataMapper.cpp:185-201 | The matching rows are exactly those with the text, ascending, each once |
| Tables.PositionIsColumnIff | src/DataMapper.cpp:129-135 | A column keeps its number in the row list exactly when every column before it has a supported type |
| MultiMaps.RowMultiMap.Add | src/dataObject/RowMultiMap.cpp:15-26 | The list of the key grows by the given data, whether the key was known or not |
| MultiMaps.RowMultiMap.GetKeys | src/dataObject/RowMultiMap.cpp:51-55 | Every key once |
| Tables.EntryIsColumnIff | src/paser/paser.cpp:484-491 | Entry p of a row's list, which a query for column p reads, belongs to column p exactly when no column up to p has an unsupported type |
| Tables.EntryBehindUnsupported | src/DataMapper.cpp:129-135 | With types date, string, string a query for column 1 reads column 2 |
| Tables.ColumnAt | src/DataMapper.cpp:129-135 | Every entry belongs to a supported column with exactly so many supported columns before it |
| MultiMaps.TotalAppend | src/dataObject/RowMultiMap.cpp:16-20 | Appending grows the number of entries by exactly what was appended |
| Scheme.TagInjective | src/EncryptManager.cpp:61-88 | Two keys with the same tag are the same key |
| Scheme.LabelsAreDistinct | src/EncryptManager.cpp:46-50 | In the scope a label determines tag and counter |
| Keys.IndexedInjective | src/DataMapper.cpp:121 | A name and number joined by a comma determine both, whatever commas the name holds |
| Keys.ValueKeyInjective | src/DataMapper.cpp:190-192 | In one table the key T,c,v determines column and text, whatever commas the text holds |
| Keys.ValueKeysClashIff | src/DataMapper.cpp:190-192 | Two tables share a value key exactly when their names are equal or one reads like the other followed by a column number |
| Keys.CommaFreeNamesApart | src/DataMapper.cpp:190-192 | Different names without commas never share a value key |
| Keys.CommaInNameClashes | src/DataMapper.cpp:190-192 | Tables named t and t,1 do share one |
| Cells.DecryptSymmetricEncryption | src/EncryptTools/EncryptUtil.cpp:313-340 | For whole blocks that fit the buffers of 128 bytes the result is the decrypted bytes and the stale bytes behind them, cut at the first fill character; nothing is known for any other ciphertext |
| Cells.FindFirstOf | src/EncryptTools/EncryptUtil.cpp:342-352 | The loop finds the first occurrence or reports none |
| Cells.SymmetricRoundTrip | src/EncryptTools/EncryptUtil.cpp:150-185 | A text survives encryption and decryption exactly when its ciphertext fits the buffer, it has no fill character and, if it fills its blocks, a stale one follows; a longer text only if the overflow happens to give it back |
| Cells.ShortTextSurvives | src/EncryptTools/EncryptUtil.cpp:318-336 | A text of up to 112 characters without a fill character comes back if it does not fill its blocks, and otherwise exactly when a fill character is read behind it |
| Cells.StaleIsShown | src/EncryptTools/EncryptUtil.cpp:329-336 | A text that fills its blocks is shown with as many stale characters behind it as it has itself |
| Cells.ReadableIff | src/EncryptTools/EncryptUtil.cpp:318-325 | A ciphertext of more than 128 bytes or of no whole number of blocks is misread; any other shows decrypted and stale bytes up to the first fill character |
| Cells.LongTextIsLost | src/EncryptTools/EncryptUtil.cpp:318-325 | Every text of more than 112 characters is lost for some behaviour of the overflow |
| Cells.FillCharacterIsLost | src/EncryptTools/EncryptUtil.cpp:333-336 | A text that does not survive |
| Cells.ShownIff | src/EncryptService.cpp:71-92 | A stored cell is shown as entered exactly when it is faithful: surviving text, or a canonical decimal |
| Cells.OtherTypesShowNothing | src/EncryptService.cpp:85-88 | A field of any other type is shown as an empty text |
| Cells.MinusIsRefused | src/DataMapper.cpp:97-103 | A negative number is refused by the encryptor, and minus zero is stored as zero |
| Cells.OnlyTheNumberIsStored | src/DataMapper.cpp:133-135 | A plus, spaces in front and text behind the digits are dropped |
| Cells.LeadingZerosAreLost | src/EncryptService.cpp:83 | A number that is not shown as entered |
| Cells.DecryptEncoded | src/DataMapper.cpp:49-60 | Every stored form of a cell decrypts by its type to what is shown for the cell |
| Cells.InsertIntoRowByHomomorphicEncryption | src/DataMapper.cpp:97-109 | The row grows by a ciphertext of the value exactly when it lies in [0, modulus); negative values print as two's complement and are refused |
| Cells.Padding16 | contrib/calc_cpp_demo/calc_cpp_demo.cpp:51-66 | The buffer starts with the padded text and is unchanged beyond it |
| Cells.PaddedLengthIsLeast | contrib/calc_cpp_demo/calc_cpp_demo.cpp:52-55 | The padded length is the least multiple of 16 at or above the length |
| Cells.PaddedEqualIff | contrib/calc_cpp_demo/calc_cpp_demo.cpp:51-66 | Two texts pad equally exactly when they fill as many blocks and one is the other followed by fill characters |
| Cells.PaddedInjective | src/EncryptTools/EncryptUtil.cpp:55-70 | Padding is injective on texts of equal length and on texts not ending in the fill character |
| Hex.EncodeHexString | contrib/calc_cpp_demo/calc_cpp_demo.cpp:35-45 | Two lower-case digits for each byte, for signed or unsigned characters, and reading them back gives the bytes |
| Hex.SignedBytes | contrib/calc_cpp_demo/calc_cpp_demo.cpp:35-45 | A negative char stands for the byte 256 above it |
| Hex.UnHexOfHex | src/EncryptTools/EncryptUtil.cpp:121-148 | The hex form has a left inverse on all byte strings |
| Numerals.HexRoundTrip | src/main.h:26-30 | Printing an int in hex and reading it back gives it back exactly when it is not negative, and is out of range otherwise |
| Numerals.HexStringToIntOfPrint | src/EncryptTools/EncryptUtil.cpp:95-119 | The reader inverts the printer below 2^31 for both letter cases |
| Numerals.DecimalRoundTrip | src/DataMapper.cpp:134 | A text read by `stoi` as a non-negative number is the text printed for that number exactly when it is canonical |
| Numerals.StoiReads | src/DataMapper.cpp:134 | `stoi` skips spaces, takes a sign, reads digits as far as they go, leaves the rest, and is out of range beyond the 32-bit limits |
| Numerals.StoiReadsHex | src/EncryptTools/EncryptUtil.cpp:95-119 | In hexadecimal it also takes 0x or 0X in front |
| Numerals.StoiRefuses | src/DataMapper.cpp:134 | Without a digit behind spaces and sign the text is refused |
| Numerals.HexStringToIntReadsAll | src/EncryptTools/EncryptUtil.cpp:95-119 | The client's hex reader refuses text behind the digits |
| Numerals.MinusOneInHex | src/main.h:26-30 | -1 prints as ffffffff |
| Numerals.StoiOfDigits | src/DataMapper.cpp:134 | On plain digits `stoi` gives their value, or is out of range above 2^31 - 1 |
| Sums.SumEx | contrib/calc_cpp_demo/calc_cpp_demo--1.0.sql:16-20 | The aggregate adds the values up from the first one on |
| Sums.AddUpDecrypts | contrib/calc_cpp_demo/calc_cpp_demo.cpp:154-197 | The added-up ciphertext decrypts to the plaintext sum modulo the plain modulus |
| Sums.SumExactIff | contrib/calc_cpp_demo/calc_cpp_demo.cpp:186 | It decrypts to the true sum exactly when that is below the modulus, in particular when row count times largest cell is |
| Csv.FileReader | src/DataMapper.cpp:240-279 | The loop over lines gives columns, types and rows of the lines that are not blank |
| Csv.InputFile.SafeGetline | src/EncryptTools/EncryptUtil.cpp:354-385 | One call reads the first line with its LF, CR or CR LF; the end is marked by a read that starts there, and the read after it fails |
| Csv.FieldsRoundTripIff | src/DataMapper.cpp:257-259 | Reading comma-joined fields gives them back exactly when none holds a comma and the last is not empty |
| Csv.LinesOfWritten | src/DataMapper.cpp:248-251 | Unbroken lines are read back whatever runs of line breaks follow them |
| Csv.FileRoundTrip | src/DataMapper.cpp:240-279 | Writing a table and reading the file gives the same table, with any blank lines between |
| ServerLabels.ServerLabelsEqualIff | contrib/calc_cpp_demo/calc_cpp_demo.cpp:199-227 | The extension gives two counters of a tag one label exactly when they fill as many blocks and one is the other times a power of ten |
| ServerLabels.OneAndTenCollide | contrib/calc_cpp_demo/calc_cpp_demo.cpp:209-219 | Counters 1 and 10 of every tag of whole blocks share a label |
| ServerLabels.ClientLabelsDiffer | src/EncryptManager.cpp:48-49 | The client's labels of different counters differ in the scope |

## Left out

- Leftovers.SumQueryOverIff: what stands behind the column must be ciphertexts of numbers. Adding a text ciphertext, left by an older, longer version of the table that held text there, is not described.
- Leftovers.ReuploadSumIff: the same, of the one older version.
- Histories.RunAnswersSum: the same, after a run.
- Traces.RunSumIff: the same, of all versions in the history.
- Cells.DecryptSymmetricEncryption: what becomes of a ciphertext that is no whole number of blocks, and what an overflow of the buffers of 128 bytes does to the rest of the program is not modelled; the bytes behind the result, which may lie beyond the buffer, are one arbitrary stream for all calls.
- Stores.Setup: without the assumption that labels in the scope do not collide, the first of two colliding entries would be kept; that case is not described.
- Stores.Database.InsertEMM: a value longer than the 255 characters of a text column, a lost connection and a failing statement are not modelled.
- MultiMaps.RowMultiMap.GetKeys: keys come in ascending order in the program; the model leaves the order open, since no result depends on it.
- Csv.FileReader: the characters of the file are given as a string; opening the file and echoing its lines is left out.
- Service.EncryptService.ExecuteSql: it starts from what the regular expressions of the parser find in an SQL text (`Planner.Query`); the expressions themselves (src/paser/paser.cpp:11-219, 231-261) are left out, and so is the parser for one table (280-340), which is not called. Where the source uses a search that found nothing, there is no answer.
- Planner.ParseSql: a quote that the expressions left in the value of a join is not taken apart; such a query has no plan. The parser's entries for unknown tables go to its own copy of the table map, and have no effect.
- Sessions.TestSql: the query names its columns, so each is the first of its name, and a name is neither empty nor dotted; no other column can be asked for. The value is as for `Planner.JoinIsPlanned`.
- TableSessions.SelectSession: the same of its columns; for a value with a dot before its end, `Planner.SelectIsPlanned` gives the text that is looked up instead.
- Planner.JoinIsPlanned: for values without a dot before their end and without a quote; dotted ones are the subject of `Planner.DottedJoinValue`.
- Executor.Execute: temporary tables are sequences, dropped at the end without effect; a plan with a step that fails, or whose tag is outside the scope, gives no result, where the program closes the connection and goes on. A sum over no rows, an SQL null, is no row.
- Empty or ragged tables: the builders read the first row for the width, so tables are asked to be non-empty and wide enough in every row.
- Reading a key that is not there from a multimap enters an empty list in the program; no modelled code does so.
- `uploadJoinTableIntoSql` for other pairs of tables, and the uploads by table number: they only rename what is modelled.
- Secrecy of any kind, key files, memory management of the byte buffers, sockets and timing output.
- The noise budget of BFV: additions are assumed never to exhaust it.
- `sum_by_row` reads a demonstration table with the extension's labels; the sum query is modelled on the column table with the client's labels.
