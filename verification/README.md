# Verified models of the hosting panel's core

This project models the parts of the Aegis hosting panel whose correctness does not rest on
I/O, and proves what they promise for every input and every run. `dafny verify dfyconfig.toml`
checks all of it.

| module | what it covers |
|---|---|
| `Text` | byte strings (one `char` is one byte), Go's `TrimSpace`, small helpers |
| `SqlScan`, `StmtScanner`, `SqlTokens` | the streaming SQL statement scanner: a specification on the bytes left, the imperative scanner over a chunked reader, and a token grammar that it reads back |
| `SqlPrefix`, `SqlDelimiter` | streams that break, and the delimiters with which they can be trusted |
| `SqlExport`, `SqlLimit`, `SqlReader`, `SqlInsert` | the dump exporter, the size limit of statements, and reading a dump back as statements and as a table |
| `SqlImport` | the import loop |
| `RowFilter` | LIKE escaping and the filter-to-WHERE compiler, with a reader of the clause it writes |
| `PgDefault`, `PgType`, `PgPlan` | rendered defaults and types, their comparison with what the catalog shows, and the column-change planner run on such a catalog |
| `FastCgi` | FastCGI record framing, parameters, requests and the response loop (sections 3.3, 3.4, 5.2, 5.3 and 5.5 of the FastCGI Specification 1.0) |
| `HtPath`, `HtConfig`, `HtSignature`, `HtCache` | `.htaccess`: path cleaning, the directory walk, the change signature, the merge and the signature-checked cache |
| `HtEngine`, `HtServe` | the rewrite engine, and the head of a request: gate, cached configuration, engine |
| `PageCache` | the size-bounded LRU of rendered pages |
| `Auth` | lockout windows, TOTP challenges, backup codes, sessions, impersonation |
| `FailLimiter`, `FailHistory` | the sliding-window limiter of bad API tokens, and how often one client can fail in its runs |
| `Containers` | host-port allocation, one container per domain, proxy targets |
| `Vsftpd` | the vsftpd directive rewriter and its roll-back |

How the model is set up:

- SQLite tables are maps and sequences. Store writes succeed, except in `Containers` and `SqlImport`,
  where each may fail. Time is a number that the
  caller passes in; where the code reads the clock more than once, the readings are separate
  parameters. Random ids and salted hashes are new each time. Passwords, TOTP codes, regular
  expressions, token signatures, the database server and the operating system appear as
  parameters whose answers are arbitrary.
- Code that changes things in place is a class with `modifies` clauses, and its methods are proved
  equal to functions on values; the theorems over runs are about those functions.
- Functions that would make the prover look inside a string too often (operator names, line
  parsing, type and default comparison) are passed as parameters to the lemmas that only need
  them as a black box; the top-level methods use the real ones.

Where the code does less than its comments or one would expect, the model follows the code and
the exact boundary is proved (only for the last point it is left open on one side):

- That a broken stream returns a prefix of the whole script holds for a delimiter exactly when it is
  neither `/` nor `-` nor, up to case, a stretch of the word DELIMITER that starts behind its first
  letter (`SqlDelimiter.DelimiterIff`); for each of the three kinds a script is given that breaks it
  (`SqlDelimiter.SlashBreaks`, `SqlDelimiter.DashBreaks`, `SqlDelimiter.StretchBreaks`).
- A dump is read back exactly when each of its statements leaves one byte of room under the size limit
  of a statement (`SqlLimit.DumpReadsBackIff`): a row whose INSERT exceeds it cannot be imported again.
- After a plan was run the column is as requested, and planning again finds nothing to do, except
  exactly when a NULL default had to be set and the server shows none for it (`PgPlan.PlanIsComplete`);
  then the same plan comes again (`PgPlan.NullRepeats`).
- The limiter of bad API tokens forgets everybody when more than 20000 clients have failed within a
  window. A client then can fail max times more: never more than max * (1 + resets inside the window)
  when its requests are served one after the other (`FailHistory.WindowBound`), and that often indeed
  (`FailHistory.BoundIsReached`). Requests that overlap add their own number to max.
- A FastCGI length survives its encoding exactly when it is below 2^31 (`FastCgi.LengthRoundTrip`).
- A container's proxy target can be written after the container is deleted, because the proxy step
  is outside the creation lock (`Containers.LateApplyBreaks`, `Containers.StaleTargetReachable`);
  `Containers.StepProxyIff` gives the condition under which each step keeps the targets right.
- A deletion whose write to the domain fails removes the container all the same, and can leave a
  target behind; `Containers.Docker.Delete` says exactly when.
- The `.htaccess` signature is one string. Below a document root without reserved names, two states of
  the files have the same signature exactly when the request's path has a directory named like an entry
  of the signature with the path of a higher directory repeated below it (`HtSignature.SignatureIff`),
  and then the cache answers with the files of an earlier state (`HtServe.StaleAnswer`,
  `HtServe.ClashIsStale`). No path that passes the gate has such a directory (`HtServe.GateUnreserved`);
  only a path that an internal rewrite made (`internal/svc/goserver.go:345-356`) can, because the
  lookups that follow (`internal/svc/goserver.go:375-487`) are not gated again (`HtServe.Serve`).
- The planner compares defaults in lower case, so a new text default that differs only in case is
  not planned (`PgDefault.DefaultsCompare`).
- A line break in a table's name ends the comment line of its dump early; of a table whose name ends
  in one, even an empty one, a statement is read back (`SqlLimit.LineBreakBreaks`). Names without a line
  break are safe; which names with one are is left open.

## Model

| member | source | states |
|---|---|---|
| StmtScanner.Reader.Fill | internal/svc/dbeditor_io.go:56-58 | the buffered reader takes in one chunk or learns that the stream ended or broke, and the bytes still to come stay the same |
| StmtScanner.Reader.PeekBytes | internal/svc/dbeditor_io.go:70-73 | a peek shows exactly the next bytes of the stream, up to the buffer size, however the chunks fall, and consumes none |
| StmtScanner.Scanner.ReadOne | internal/svc/dbeditor_io.go:60-68 | reading takes the next byte and remembers it; past the end it remembers a read error, and only a read error |
| StmtScanner.Scanner.QuotedString | internal/svc/dbeditor_io.go:96-120 | copies a quoted string up to its closing quote, doubled quotes and backslash pairs inside it |
| StmtScanner.Scanner.CopyBlockComment | internal/svc/dbeditor_io.go:164-188 | drops a block comment for one blank, and keeps it whole when MySQL executes it |
| StmtScanner.Scanner.StartsDashComment | internal/svc/dbeditor_io.go:204-210 | decides from two peeked bytes whether a dash opens a line comment in this dialect |
| StmtScanner.Scanner.OpenDollar | internal/svc/dbeditor_io.go:214-226 | recognises a dollar tag that opens a quote within the peeked bytes and hands back exactly that tag |
| StmtScanner.Scanner.CopyDollar | internal/svc/dbeditor_io.go:226-240 | copies a dollar body up to its closing tag, the end or the size limit |
| StmtScanner.Scanner.RunCommand | internal/svc/dbeditor_io.go:139-148 | a DELIMITER line sets the delimiter to its trimmed argument if there is one, and leaves the line break unread |
| StmtScanner.Scanner.NextStatement | internal/svc/dbeditor_io.go:78-200 | the scanning loop returns the next statement of the bytes still to come, the end, a read error or the size error, as the specification on those bytes does |
| StmtScanner.SplitStream | internal/svc/dbeditor_io.go:242-254 | the statements of a stream depend on its bytes only, not on the chunks they arrive in |
| SqlTokens.PeeksDecide | internal/svc/dbeditor_io.go:138-196 | the scanner's bounded look-ahead decides exactly which token of the grammar starts here |
| SqlTokens.TokenReads | internal/svc/dbeditor_io.go:138-196 | one loop turn on a printed token consumes exactly that token and appends exactly what it contributes |
| SqlTokens.ScanPrinted | internal/svc/dbeditor_io.go:46-254 | for any well-formed token list (plain bytes, quoted strings, comments, dollar bodies, delimiters, DELIMITER lines) scanning its printed text returns exactly the statements it means: comments removed, empty ones skipped, splits only at delimiters outside other tokens |
| SqlPrefix.NeverSplits | internal/svc/dbeditor_io.go:121-138 | once a statement has content and the delimiter no longer occurs, a broken stream never returns it |
| SqlPrefix.StepMore | internal/svc/dbeditor_io.go:60-73 | one turn on a cut-off text either does what it does on the whole text or leads to no further statement |
| SqlPrefix.BrokenStreamIsPrefix | internal/svc/dbeditor_io.go:121-138 | from any state of a statement being scanned, what a stream returned before its sticky error is a prefix of what the unbroken text returns, and it never ends as if complete, as long as every delimiter that comes into force is safe |
| SqlPrefix.BrokenScript | internal/svc/dbeditor_io.go:60-68 | the same for whole scripts: PostgreSQL always, MySQL when every delimiter that comes into force while the whole script is scanned is safe |
| SqlDelimiter.DelimiterIff | internal/svc/dbeditor_io.go:121-196 | for every delimiter a DELIMITER line can set, all scripts cut anywhere while it is in force return a prefix exactly when the delimiter is safe |
| SqlDelimiter.SlashBreaks | internal/svc/dbeditor_io.go:165-195 | with delimiter "/" a script cut inside a comment opener returns a statement the whole script never returns |
| SqlDelimiter.DashBreaks | internal/svc/dbeditor_io.go:157-195 | with delimiter "-" a script cut inside a line-comment opener does |
| SqlDelimiter.StretchBreaks | internal/svc/dbeditor_io.go:139-195 | with a stretch of the keyword behind its first letter a script cut inside a DELIMITER line does |
| SqlReader.StringReads | internal/svc/dbeditor_io.go:258-264 | every string literal reads, by its dialect's rules and whatever follows it, as the string it was made from |
| SqlReader.IdentReads | internal/svc/dbeditor.go:141-151 | every quoted identifier reads as the name it was made from, whatever its bytes |
| SqlExport.BatchesCoverRows | internal/svc/dbeditor_io.go:596-627 | the batches of a dump are non-empty, within the row limit, and joined are all the rows in order |
| SqlExport.WriteRows | internal/svc/dbeditor_io.go:596-627 | the row loop with its batch and size counter writes the text of exactly those batches |
| SqlExport.ExportTableData | internal/svc/dbeditor_io.go:571-640 | the method writes the comment line, one INSERT per batch and, for PostgreSQL, one setval per serial column |
| SqlLimit.ReadIffFits | internal/svc/dbeditor_io.go:121-138 | a printed token list is read to its end exactly when no statement of it ever exceeds the size limit |
| SqlLimit.DumpReadsBackIff | internal/svc/dbeditor_io.go:571-640 | for either dialect, any columns, any rows and a table name without a line break, scanning the dump gives exactly its statements in order if and only if each leaves one byte of room under the size limit |
| SqlLimit.LineBreakBreaks | internal/svc/dbeditor_io.go:588-589 | for a table whose name ends in a line break the dump of no rows reads back as one statement, a lone quote |
| SqlLimit.SplitDump | internal/svc/dbeditor_io.go:242-254 | split in memory, where the limit is the length of the text plus one, every such dump is read back |
| SqlInsert.LiteralReads | internal/svc/dbeditor_io.go:267-305 | every literal of a cell reads as the value it was made from: null, boolean, number, bytes or text |
| SqlInsert.InsertReads | internal/svc/dbeditor_io.go:586-600 | an INSERT statement of a dump reads as the table, the columns and the rows it was made from, whatever bytes they have |
| SqlInsert.DumpLoads | internal/svc/dbeditor_io.go:571-640 | the statements of a dump load exactly the rows of the table, in order |
| SqlInsert.TableRoundTrip | internal/svc/dbeditor_io.go:571-640 | dumping a table, splitting the text and reading the statements is the identity on the table |
| SqlInsert.CellsTellApart | internal/svc/dbeditor_io.go:267-305 | values that read alike are the same, but for numbers that two types write alike (MySQL's booleans among them) |
| SqlImport.RunScript | internal/svc/dbeditor_io.go:822-844 | the import loop runs the longest accepted prefix of the script's statements, adds up the rows they affected, and reports success only at a real end |
| SqlImport.Database.Import | internal/svc/dbeditor_io.go:793-854 | PostgreSQL applies all statements or none, also when begin or commit fails; MySQL keeps those before the failure and has its foreign key checks on again at every end; an empty script is an error; counts, affected rows and the failing number are reported |
| SqlImport.AcceptedIsFirstRefusal | internal/svc/dbeditor_io.go:836-839 | the statement after the ones run is the first the server refuses |
| SqlImport.BrokenImportRunsAPrefix | internal/svc/dbeditor_io.go:786-792 | an import of a stream that breaks runs a prefix of the unbroken script and never counts as complete |
| RowFilter.ContainsIff | internal/svc/dbeditor.go:507-509 | for all values and strings and any byte-wise collation, the escaped pattern matches exactly the strings that contain the value |
| RowFilter.EscapedMatches | internal/svc/dbeditor.go:507-509 | escaped text in a pattern matches itself and nothing else |
| RowFilter.CondReads | internal/svc/dbeditor.go:523-543 | the text of a compiled condition reads back as that condition whatever bytes the column name holds |
| RowFilter.WhereReads | internal/svc/dbeditor.go:546-549 | the whole clause reads back as the conditions joined by AND |
| RowFilter.BuildWhere | internal/svc/dbeditor.go:511-550 | more than ten filters, an unknown column or an unknown operator are refused with the first fault; otherwise the clause, read back by the server, keeps exactly the rows that every filter wants |
| PgDefault.RenderedKey | internal/svc/dbeditor_schema.go:219-257 | the comparable form of a rendered default is empty for none, the text in lower case for a value, and shows the kind of default in its first byte |
| PgDefault.DefaultsCompare | internal/svc/dbeditor_schema.go:625-633 | the planner takes two rendered defaults for equal exactly when they differ in the case of a text value at most |
| PgDefault.NormShown | internal/svc/dbeditor_schema.go:625-633 | the comparable form of any text with casts behind it is that of the text without them |
| PgDefault.ShownCompares | internal/svc/dbeditor_schema.go:625-633 | whatever the server shows of a rendered default - its text, its lower-case form, now() for the current time, each with any casts behind it - compares equal to the rendered clause |
| PgType.RenderedIsSame | internal/svc/dbeditor_schema.go:158-204 | every type rendered from the table of types and a length compares equal to itself as the catalog shows it |
| PgPlan.FindColumn | internal/svc/dbeditor_schema.go:639-643 | finds the column of that name |
| PgPlan.BuildPlan | internal/svc/dbeditor_schema.go:654-690 | the statements appended in order: rename, type, nullability, default, comment, each only where it differs |
| PgPlan.PlanModify | internal/svc/dbeditor_schema.go:510-527 | unknown column, taken name, a failed check of the request, a switched auto-increment and nothing to change are refused in that order; otherwise the plan |
| PgPlan.ModifyColumn | internal/svc/dbeditor_schema.go:636-699 | the same with PostgreSQL's own comparisons and the checks on name, type, default and serial type |
| PgPlan.PlanRuns | internal/svc/dbeditor_schema.go:654-690 | every plan runs on the catalog: each name it mentions is found, the column becomes the requested one in its place, and no other column changes |
| PgPlan.NothingIff | internal/svc/dbeditor_schema.go:691-697 | "nothing to change" is reported exactly when the column already is as requested |
| PgPlan.ReplanIff | internal/svc/dbeditor_schema.go:636-699 | planning again after a plan was run finds nothing to change exactly when the column came out as requested |
| PgPlan.PlanIsComplete | internal/svc/dbeditor_schema.go:619-699 | on every catalog that shows types as rendered and defaults as written or as a synonym with casts, the column is as requested after the plan, and planning again reports nothing to change, if and only if no NULL default was forgotten |
| PgPlan.ServingCatalog | internal/svc/dbeditor_schema.go:636-699 | there is such a catalog for every request |
| PgPlan.NullRepeats | internal/svc/dbeditor_schema.go:625-633 | where the server shows no default for DEFAULT NULL, the statement that sets it is planned again after it was run |
| FastCgi.ChunksCover | internal/svc/fastcgi.go:55-61 | the chunks concatenate to the content; none is empty unless the content is, and then there is exactly one |
| FastCgi.FcgiWrite | internal/svc/fastcgi.go:43-77 | the loop puts on the connection one padded record per chunk |
| FastCgi.ReadWire | internal/svc/fastcgi.go:79-103 | reading any record written with any padding gives the record and leaves the rest |
| FastCgi.FcgiRead | internal/svc/fastcgi.go:79-103 | the method reads what the record reader specifies, or fails on a short read or a wrong version |
| FastCgi.WriteReadsBack | internal/svc/fastcgi.go:43-103 | repeated reading of what was written gives records of that type and id whose contents are the chunks |
| FastCgi.LengthRoundTrip | internal/svc/fastcgi.go:153-163 | a length reads back exactly when it is below 2^31, in the one-byte and the four-byte form |
| FastCgi.EncodeParam | internal/svc/fastcgi.go:151-168 | the method writes both lengths, the name and the value |
| FastCgi.ParamsRoundTrip | internal/svc/fastcgi.go:151-168 | a parameter list decodes to the same list in the same order |
| FastCgi.SendRequest | internal/svc/fastcgi.go:189-216 | the request puts the begin record, the parameter stream, the input stream and their terminators on the connection |
| FastCgi.RequestRoundTrip | internal/svc/fastcgi.go:189-216 | the request bytes decode to the same parameters and the same body, each stream read to its first empty record |
| FastCgi.ReadResponse | internal/svc/fastcgi.go:218-253 | the response loop computes the reply the specification gives for the bytes |
| FastCgi.ResponseConcatenates | internal/svc/fastcgi.go:218-253 | under any interleaving, and with unknown records between, the reply holds the STDOUT and STDERR contents concatenated in order and the application status of the end record |
| FastCgi.TruncatedResponseFails | internal/svc/fastcgi.go:220-224 | a response cut before its end record is an error |
| HtPath.CleanIsClean | internal/svc/htaccess.go:885-886 | a cleaned path is rooted and has no dot, dot-dot or empty inner component |
| HtPath.CleanRoundTrip | internal/svc/htaccess.go:255-263 | a clean path is its own cleaning and reads back as its components |
| HtConfig.WalkVisits | internal/svc/htaccess.go:283-302 | the walk from a request's directory visits exactly the directories up to the document root |
| HtCache.RequestDir | internal/svc/htaccess.go:256-262 | the directory of a request is the document root extended by the components of its path but the last |
| HtCache.RulesInOrder | internal/svc/htaccess.go:351-352 | merged rules are the files' rules one after the other, deepest first |
| HtCache.DeepestBaseWins | internal/svc/htaccess.go:348-350 | the deepest file that names a rewrite base gives it |
| HtCache.DeepestIndexWins | internal/svc/htaccess.go:353-355 | the deepest file that lists index files gives the list |
| HtCache.DeepestErrorWins | internal/svc/htaccess.go:356-360 | for every status the deepest file with an error document gives it |
| HtCache.MergeFiles | internal/svc/htaccess.go:341-372 | the merge loop computes that merge |
| HtCache.FileSig | internal/svc/htaccess.go:281-304 | the signature loop writes name, size and time of every existing file of the chain |
| HtCache.ParseDir | internal/svc/htaccess.go:308-372 | the parse loop collects the chain's files and merges them |
| HtSignature.SignatureDetermines | internal/svc/htaccess.go:281-304 | where the directories of the request are unreserved or do not clash, equal signatures mean the same files with the same sizes and times |
| HtSignature.SignatureClash | internal/svc/htaccess.go:281-304 | below clashing directories two file systems, one with a single file and one with two others, give the walk of one request the same signature |
| HtSignature.SignatureIff | internal/svc/htaccess.go:281-304 | below a root without reserved names, there are two states of the files with the same signature exactly when the directories of the request clash |
| HtCache.Cache.ConfigFor | internal/svc/htaccess.go:255-278 | an entry with the signature of the files as they are is answered, else a fresh parse is cached; where signatures tell states apart the answer is that of a fresh parse, whatever was cached before |
| HtServe.HtGate | internal/svc/goserver.go:601-616 | refuses the first hidden segment, as forbidden if it starts with .ht and else as not found |
| HtServe.GateUnreserved | internal/svc/goserver.go:601-616 | no directory of a path that passes the gate is named like an entry of a signature |
| HtServe.Serve | internal/svc/goserver.go:331-375 | behind the gate the engine runs on a fresh parse of the files, unconditionally; so is the configuration of the path served next, unless a rule rewrote it below clashing directories |
| HtServe.EngineRulesInOrder | internal/svc/goserver.go:338 | the rules the engine runs are those of the files on the walk, the deepest file's first |
| HtServe.StaleAnswer | internal/svc/htaccess.go:255-278 | two requests with the files changed in between but not their signature get the same answer |
| HtServe.ClashIsStale | internal/svc/htaccess.go:281-304 | below clashing directories there are such states, and fresh parses of them differ |
| HtEngine.CondsKeepUrl | internal/svc/htaccess.go:792-817 | conditions change only the captured groups, never path or query |
| HtEngine.Context.CheckConds | internal/svc/htaccess.go:792-817 | the condition loop, with OR paired two at a time as written |
| HtEngine.Context.Apply | internal/svc/htaccess.go:791-891 | one rule: conditions, pattern, forbidden, gone, redirect, pass-through, internal rewrite with its query rules |
| HtEngine.PassesClean | internal/svc/htaccess.go:747-768 | no more rules are applied than passes (ten) times rules, and every URL on the way is clean |
| HtEngine.RewriteClean | internal/svc/htaccess.go:747-775 | the rewrite phase hands back no path or a clean one, and the empty verdict exactly when path and query end where they began |
| HtEngine.RewritePhase | internal/svc/htaccess.go:747-775 | the pass loop computes that phase |
| HtEngine.Engine | internal/svc/htaccess.go:696-775 | the whole engine: denials, redirects, then the rewrite phase; every path it hands back is rooted and clean |
| PageCache.Cache.Get | internal/svc/pagecache.go:139-156 | a miss, an expired entry and a hit, with map, list, counter and statistics kept in step |
| PageCache.Cache.Put | internal/svc/pagecache.go:159-174 | replaces the key, puts the page at the front and evicts from the back while over the cap |
| PageCache.Cache.RemoveLocked | internal/svc/pagecache.go:176-181 | takes one entry out of map, list and counter |
| PageCache.Cache.Purge | internal/svc/pagecache.go:184-197 | drops every page of the domain and no other, and returns how many there were |
| PageCache.Cache.Stats | internal/svc/pagecache.go:200-212 | reports the counters and the live count and size of the domain |
| PageCache.EvictExact | internal/svc/pagecache.go:171-173 | eviction keeps the front, gets under the cap unless one entry is left, and drops nothing it could have kept |
| PageCache.StatsAddUp | internal/svc/pagecache.go:200-212 | the sizes reported for all domains add up to the whole cache |
| PageCache.HitIsLastPut | internal/svc/pagecache.go:139-156 | in every run a hit returns the key's last Put, not past its expiry, with no later Purge of its domain |
| PageCache.OrderIsRecency | internal/svc/pagecache.go:153-173 | in every run the list is ordered by last use |
| PageCache.MissingWasDropped | internal/svc/pagecache.go:147-197 | a key that was put and is missing was expired, purged, or evicted while used less recently than every survivor and with no room left for it |
| PageCache.NeverOverCap | internal/svc/goserver.go:547-552 | with pages of at most 2 MiB the cache never holds more than 128 MiB |
| PageCache.PutFits | internal/svc/pagecache.go:159-174 | the page just put is kept, at the front, and only a page over the cap leaves the cache over it |
| Auth.WindowBound | internal/auth/auth.go:121-134 | guarded attempts never hold more than 5 failures of a username and address, or 30 of an address, in any fifteen minutes |
| Auth.StrangerBound | internal/auth/auth.go:131-137 | nor more than 15 failures of a username from addresses not known to it when checked |
| Auth.RecordedStrangerBound | internal/auth/auth.go:131-137 | counted by the second of the record it is 15 and the failures of addresses that ceased to be known between check and record |
| Auth.AttemptsBounded | internal/store/loginattempts.go:10-56 | the three bounds hold in every run of the login operations |
| Auth.LoginInv | internal/auth/auth.go:163-215 | a login keeps the invariant of attempts, sessions, challenges and codes |
| Auth.VerifyTotpInv | internal/auth/auth.go:239-270 | redeeming a challenge keeps it |
| Auth.StepInv | internal/auth/auth.go:141-424 | every operation keeps it |
| Auth.TotpSessionsNeedACode | internal/auth/auth.go:187-204 | in every run a session created while its owner had TOTP enabled came from an accepted code or from (un)impersonation |
| Auth.EverySessionExplained | internal/auth/auth.go:163-424 | every session of a run was opened by a request that, in the state it met, presented what the origin says for the session's owner: the right password for an active account without TOTP, a right code or an unspent backup code for a live challenge of an active account, or an existing administrator's request for an active account |
| Auth.ReturnedWasAdmin | internal/auth/auth.go:402-424 | with tokens the panel issued, a session begun by leaving an impersonation is of one who was an administrator when it began |
| Auth.ChallengeYieldsOne | internal/store/store.go:703-733 | in every run a challenge yields at most one session |
| Auth.BackupSpentOnce | internal/auth/auth.go:348-369 | in every run a backup-code hash is spent at most once and is then nobody's code |
| Auth.DeletedNeverVerifies | internal/auth/auth.go:475-501 | once the row of a session is gone its token is refused in every later state |
| Auth.VerifiedSessionExists | internal/auth/auth.go:475-492 | an accepted token stands for a session the run created for that active user and has not removed |
| Auth.Manager.Login | internal/auth/auth.go:163-215 | the method does what the login step says, on every branch |
| Auth.Manager.VerifyTOTPLogin | internal/auth/auth.go:239-270 | the method does what the redeeming step says, on every branch |
| Auth.Manager.ConsumeBackupCode | internal/auth/auth.go:348-369 | the first matching hash is removed from the list, all others stay |
| Auth.Manager.ConfirmPassword | internal/auth/auth.go:141-153 | a wrong password counts toward the same limits, a right one records nothing |
| Auth.Manager.Impersonate | internal/auth/auth.go:373-396 | only an administrator opens a session for an existing, active account |
| Auth.Manager.Unimpersonate | internal/auth/auth.go:402-424 | the impersonated session is removed first, then a session for the administrator opened |
| Auth.Manager.Logout | internal/auth/auth.go:495-501 | the session of a valid token is removed |
| FailLimiter.Limiter.Prune | internal/api/ratelimit.go:25-39 | keeps the failures inside the window and forgets a key without any |
| FailLimiter.Limiter.Blocked | internal/api/ratelimit.go:42-46 | true exactly when at least max failures of the key since the last reset are inside the window |
| FailLimiter.Limiter.Fail | internal/api/ratelimit.go:49-63 | records the failure, and resets the count of all clients exactly when more than 20000 have one inside the window; the map never holds more than 20001 keys |
| FailLimiter.Limiter.CheckToken | internal/api/server.go:417-435 | a blocked client is turned away, a bad token counts only while its client is not blocked, a suspended account is refused without counting, and the rest is admitted |
| FailHistory.WindowBound | internal/api/ratelimit.go:49-63 | in every history a client fails at most max times (and as often as its own requests overlapped a check) inside a window without a reset, and that times one plus the resets inside the window otherwise |
| FailHistory.BoundIsReached | internal/api/ratelimit.go:52-61 | for every number of resets there is a history of requests served one after the other in which a client fails max * (1 + resets) times inside a window |
| Containers.AllocatePort | internal/svc/docker.go:289-299 | picks the lowest free port, and fails exactly when every port of the range is used or cannot be bound |
| Containers.MappedPorts | internal/svc/docker.go:155-190 | accepted ports are the requested ones, pinned where asked, in range, distinct and clashing with nothing |
| Containers.NoFreePortMeans | internal/svc/docker.go:174-179 | running out of ports means that every port is used, taken earlier in the request, or cannot be bound |
| Containers.Docker.ValidateRequest | internal/svc/docker.go:135-273 | the method answers as the check of a request specifies, errors included |
| Containers.Docker.UsedHostPorts | internal/svc/docker.go:275-287 | collects every host port of every row |
| Containers.StepSafe | internal/svc/docker.go:332-343 | every store write of every operation keeps ports distinct and in range and at most one container per domain, also between another creation's check and its insertion |
| Containers.RunSafe | internal/svc/docker.go:313-522 | so they hold in every interleaving of the operations |
| Containers.StepProxyIff | internal/svc/docker.go:493-522 | a write keeps every proxy target naming the attached container's web port exactly when it meets its guard |
| Containers.RunProxy | internal/svc/docker.go:427-522 | any run whose writes meet their guards keeps the targets right |
| Containers.LateApplyBreaks | internal/svc/docker.go:477-512 | deleting an attached container before a pending proxy write leaves a target that names nothing |
| Containers.StaleTargetReachable | internal/svc/docker.go:344-356 | such a state is reachable |
| Containers.Docker.ApplyDomainProxy | internal/svc/docker.go:493-511 | points the domain at the published web port; reports a port that is not published, a failing write and a failing re-apply |
| Containers.Docker.ClearDomainProxy | internal/svc/docker.go:514-522 | clears the domain's target; reports a failing write and a failing re-apply |
| Containers.Docker.Create | internal/svc/docker.go:313-357 | the refusals in order (docker missing, package quota, invalid request, failing insertion); a container that does not run leaves no row unless taking it out fails; a failing proxy step leaves the running container's row; ports, attachments and targets stay right on every path |
| Containers.Docker.Start | internal/svc/docker.go:427-432 | re-points the domain if docker started the container, and never fails to find the web port |
| Containers.Docker.Stop | internal/svc/docker.go:436-441 | clears the domain's target if docker stopped the container |
| Containers.Docker.Delete | internal/svc/docker.go:477-489 | clears the target and removes the row; where the clearing write fails the row goes all the same, and the targets stay right exactly when it named none |
| Containers.Docker.DeleteDomain | internal/store/domains.go:138-164 | removes the domain and detaches its containers |
| Vsftpd.NoChangeIff | internal/svc/ftptls.go:74-110 | no change is reported exactly when every wanted directive is already set once, to its value |
| Vsftpd.RewrittenHolds | internal/svc/ftptls.go:78-109 | after the rewriting every wanted directive is set once, to its value, and all other lines are there in order up to trailing blanks |
| Vsftpd.FileHolds | internal/svc/ftptls.go:65-115 | the same of the file's bytes read again, and a second run changes nothing |
| Vsftpd.RewriteLines | internal/svc/ftptls.go:70-109 | the three loops compute the rewriting |
| Vsftpd.ConfigFile.SetDirectives | internal/svc/ftptls.go:65-115 | the file is rewritten only when something changed, and the one-time copy keeps the first original |
| Vsftpd.ConfigFile.ApplyTls | internal/svc/ftptls.go:239-256 | a configuration that would not load is taken back byte for byte, with an error |
| Vsftpd.TlsProper | internal/svc/ftptls.go:42-58 | the TLS directives meet what the rewriting needs, for any trimmed one-line paths |

## Left out

- HTTP handlers, routing, JSON, WebSockets, the frontend, backup, mail, DNS, certificates, cron and metrics: plumbing and I/O.
- `ImportCSV`, `ExportCSV`, `keyWhere`, `valuesToArgs`, `fkStatement` and `pgCreateStatements`: they would only add easy members beside the ones modelled.
- SqlLimit.DumpReadsBackIff: which table names with a line break still read back (those whose other lines are comments do); `SqlLimit.SplitDump` and `SqlInsert.TableRoundTrip` are stated without one too.
- SqlImport.Database.Import: statement text that is not UTF-8, cancelled requests and the limit on the whole import are answers of the server and of the stream.
- SqlExport.ExportTableData: rows come as a sequence, floating-point numbers as their printed text; the writer's size limit and write errors are not modelled.
- RowFilter.ContainsIff: collations that compare more than one byte at a time are not covered.
- PgPlan.ModifyColumn: the text of the ALTER statements around their names is not modelled.
- PgDefault.DefaultsCompare: lower-casing is that of ASCII letters.
- SqlInsert.InsertReads: floating-point numbers are read as the text the runtime library prints.
- FastCgi.SendRequest: write errors on the connection are not modelled; `parseCGIResponse` is left out.
- FastCgi.RequestRoundTrip: with no parameters or no body the client sends two empty records for that stream, of which a reader needs only the first.
- HtCache.RequestDir: a document root that is not a clean absolute path; the panel builds its roots with `filepath.Join`.
- HtCache.Cache.ConfigFor: the same holds for it; the parse of one file is an answer of a parameter that depends on name, size and time.
- HtSignature.SignatureIff: a document root that itself has a component starting with `.htaccess:`; there `HtSignature.SignatureDetermines` covers requests without reserved names.
- HtEngine.Engine: `htQuoteFields`, directive parsing, variable expansion and condition tests are parameters; header operations are carried along by the merge and not applied.
- PageCache.Cache.Put: entries of the linked list are positions in a sequence; pointers into the list are not modelled, nor is `cacheableRequest`.
- Auth.Manager.Login: the two clock readings of one lockout check are one, and the failed-login log file is left out.
- Auth.StrangerBound: an address counts as known by the moment its attempt was checked; `Auth.RecordedStrangerBound` counts by the moment of the record.
- FailLimiter.Limiter.Fail: the in-place filtering of the stored slice is on values.
- Containers.Docker.ValidateRequest: the checks on name, image, environment, volumes, restart policy and limits are two flags of the request.
- Containers.Docker.Create: which id the store gives a new row is a parameter, new but possibly used before.
- Vsftpd.ConfigFile.SetDirectives: read errors other than a missing file and all write errors are left out, and so is the certificate step before it.
