# MySQL client tools: models and proofs

This project models the parts of the MySQL 5.7 command line clients that carry the most state and proves what they
promise. Each module is a Dafny file of the same name. Code that changes things step by step in C or C++ is a class or a
method here and is proved against a specification function; what the programs promise is proved about those functions.

| modules | program | subject |
|---|---|---|
| StatementScanner, StatementReader, StatementTheorems, StatementComments, StatementItems, StatementRows, StatementLines, StatementScripts, StatementWords | mysql | splitting input lines into statements, in place |
| CompletionHash, CompletionIndex, CompletionWords, CompletionGenerator | mysql | the word index of tab completion and its iterator |
| BinlogPrinter, BinlogServer, BinlogTheorems, BinlogExact, BinlogExamples, BinlogHistory, BinlogFilter, BinlogOutput, BinlogProgram | mysqlbinlog | which events are printed, what a server makes of them, and what closes them |
| LoadFiles, LoadVersions | mysqlbinlog | the temporary files of LOAD DATA events |
| RewriteDb, RewriteEvents | mysqlbinlog | replacing database names inside event bytes |
| DumpProtocol, DumpTheorems, DumpLocks, DumpOrder, DumpProgram | mysqldump | locks, snapshot and coordinates of a dump |
| InsertPacking | mysqldump | packing rows into INSERT statements |
| SqlQuoting | mysqldump, mysqlimport | quoting for LIKE and for field options |
| ImportThreads, ImportTheorems, ImportForce | mysqlimport | the worker threads, their limit and their failures |
| LoginText, LoginSections, LoginCommands, LoginBuffer | mysql_config_editor | editing the text of the login file |
| LoginFile, LoginFrames, LoginEditor, CnfParser, CnfTheorems | mysql_config_editor, auth_utils | the encrypted login file, sessions of calls on it, and its second reader |
| Bytes, Sequences, Wrappers | | four-byte numbers, regrouping, optional values |

The main results, one for each subject:

- **Statements.** Editing the line in place computes what a reference scanner with a separate output computes
  (`StatementReader.Reader.AddLineInPlace`); over every session the reader is never in a quote and a comment at once, sends
  only outside of both and keeps literals byte for byte. Every line that is typed or read, in every state of the reader,
  is made of plain text, literals, comments, marks of hints and conditional comments, escapes, one-letter commands and
  delimiters, or goes on in a literal or comment, or is a client command; and over every session the reader has exactly the
  effects of these, with and without --comments and whatever the server answers (`StatementLines.EverySession`,
  `StatementRows.RowsRead`). So statements joined by the delimiter are sent again one by one
  (`StatementScripts.SplitUndoesJoin`), and one spread over lines is sent whole (`StatementScripts.SpreadRead`).
- **Completion.** After any history the table is the index of the words added; the longest common prefix is found from
  the bucket counts alone; the walk with no text returns every word but the empty one as often as it was added.
- **Binary log.** What is printed is told from the events alone, by looking back from each of them, and over any number of
  files, with all filters and wherever the input stops, the output is exactly that (`BinlogOutput.OutputIs`); in particular
  the events printed are those wanted, in order (`BinlogOutput.PrintsWanted`), and the GTID filter decides for each
  transaction as a whole. A server that executes the printed file is modelled on its own, with XA transactions, implicit
  commits and GTIDs; how it understands the text of a statement is a parameter. Whatever the filters and wherever the input
  is cut off, the file leaves no transaction and no GTID open, exactly under a condition on the words of the log
  (`BinlogExact.ClosesIff`), which for a log as a server writes it says: no XA START, and no XA ROLLBACK beside a BEGIN
  (`BinlogExamples.UsualCloses`); and for each single run exactly under a condition on what it has printed
  (`BinlogTheorems.DumpClosesIff`). Each LOAD DATA statement finds its own data, and a run fails exactly if the versions of
  a file name are used up (`LoadVersions.FailsIff`); rewriting the bytes of an event changes its database field and nothing
  else.
- **Dump.** In the two consistent modes all tables and all coordinates are of one commit point under every interleaving;
  in every other mode there are commits under which no state of the server is what the dump shows
  (`DumpTheorems.OnePointIff`). Each database by itself is of one moment exactly in these modes and with --lock-tables
  (`DumpLocks.AtOnceIff`). Every command is sent under the locks it needs, and in the end only the lock of --lock-all-tables
  is still held (`DumpOrder.ScriptTimely`). Rows are packed into the fewest statements.
- **Import.** In every interleaving the thread limit holds, no destroyed mutex is used, every thread is joined once, every
  table has one outcome, nobody is stuck, and the work besides polling is bounded. A failure ends the process exactly
  without --force, or when some worker has got no connection (`ImportForce.DiesIff`).
- **Login file.** Over any run of commands the edited bytes are those of an ordered map of sections. Over any number of
  calls of the editor, each of which decrypts and rewrites the file, the second reader and its parser return for every name
  what the calls left under it (`CnfTheorems.CommandsToOptions`). The assumptions about the cipher are met by the padding
  alone (`LoginFile.PaddingWorks`).

Nine things the programs might be taken to promise do not hold, and each is stated with its exact condition and an input that shows it:

- a comment does not always end at its first closing mark (`StatementComments.CommentEndsAtFirstClose`,
  `StatementComments.NestedKeepsOpen`, `StatementItems.InsideKeepsOpen`);
- `completion_hash_exists` misses added words (`CompletionIndex.ExistsIff`, `CompletionIndex.ShorterWordNotFound`);
- a log that is cut off inside an XA transaction leaves it open, because the server refuses the ROLLBACK that is added, and
  so does one in which the server refuses what the printer takes for the end of a transaction (`BinlogExact.ClosesIff`,
  `BinlogTheorems.DumpClosesIff`, `BinlogTheorems.HiddenIff`, `BinlogExact.CutInsideXa`, `BinlogExamples.RefusedRollback`);
- the printer may believe a transaction open that is closed: behind an implicit commit such as that of CREATE TABLE ...
  SELECT, behind XA PREPARE, and with --database behind its own COMMIT (`BinlogExact.OpenExactIff`, `BinlogExact.ExactIff`,
  `BinlogExamples.UsualExact`, `BinlogExamples.CreateUnnoticed`, `BinlogExamples.PreparedUnnoticed`,
  `BinlogExact.AddedCommitUnnoticed`);
- the name printed for a LOAD DATA file is that of the file only without backslashes in the directory and the base name
  (`LoadFiles.NamesRightIff`, `LoadFiles.BackslashMisleads`);
- a rewritten database name is read back only if it has less than 256 bytes (`RewriteDb.ReadBackIff`,
  `RewriteDb.LongNameLost`), and found by a second rewriting only if it has less than 128 (`RewriteDb.SecondPassIff`,
  `RewriteDb.SecondPassFails`);
- replication that --dump-slave stops runs after the dump also if it did not run before (`DumpOrder.SlaveStarted`,
  `DumpOrder.StoppedSlaveStarted`);
- exit code 0 of a threaded import means that all tables were loaded only if no call for a thread was answered no
  (`ImportTheorems.ZeroMeansLoadedIff`, `ImportTheorems.LostTableGoesUnnoticed`);
- writing and reading the login file is not the identity on every text (`LoginFile.RoundTripIff`,
  `LoginFile.UnfinishedLineLost`, `LoginFile.LongLineLost`).

Conventions: characters are single bytes and folding is that of ASCII; the server, the file system, the cipher and the
thread library are parameters or explicit state; lengths are unbounded unless the source's width matters, and then they
are written out (`Hash` on 32 bits, the length byte of a database name, the four-byte lengths).

## Model

| member | source | states |
|---|---|---|
| StatementReader.Reader.AddLineInPlace | client/mysql.cc:2531-2807 | The line array, read at one index and overwritten at another, ends with the same buffer, mode, delimiter and sent statements as the reference scanner on the original text; the write index with its owed space never passes the read index, everything still to be read is original, and the closing newline fits |
| StatementReader.Reader.Iterate | client/mysql.cc:2549-2780 | One turn of the loop is one step of the reference scanner and keeps the two indices apart |
| StatementReader.Reader.Classify | client/mysql.cc:2574-2758 | The chain of conditions picks the branch that the reference scanner picks, from the bytes still in the array |
| StatementReader.Reader.DoBackslash | client/mysql.cc:2574-2637 | A backslash outside a comment: escape kept as two bytes, one-letter command run with what precedes it flushed, or end of the line |
| StatementReader.Reader.ShortCommand | client/mysql.cc:2586-2625 | Running a one-letter command leaves the array and the indices as the reference scanner says, whether or not it takes the rest of the line |
| StatementReader.Reader.DoDelimiter | client/mysql.cc:2638-2680 | At the delimiter what precedes it joins the buffer, a trailing comment is passed, and the statement is sent |
| StatementReader.Reader.DoLineComment | client/mysql.cc:2681-2720 | At a line comment the rest of the line is dropped and a pending statement is sent |
| StatementReader.Reader.DoKeep | client/mysql.cc:2757-2780 | A kept byte updates hint, quote and owed-space state as the reference scanner does |
| StatementReader.Reader.FinishLine | client/mysql.cc:2781-2807 | The end of a line: its newline, and the append to the buffer |
| StatementReader.Reader.RemoveCntrl | client/mysql.cc:5452-5460 | The buffer is cut back to its last visible character, and to nothing if it has none |
| StatementScanner.RemoveControl | client/mysql.cc:5452-5460 | What is left of a text is a beginning of it that is empty or ends in a visible character, and nothing visible stands behind it |
| StatementReader.Reader.ReadLine | client/mysql.cc:2351-2374 | A line goes to a named command or to the splitter, as the reference session does |
| StatementReader.Reader.Session | client/mysql.cc:2205-2406 | A whole session of lines and interrupts has the effect of the reference session |
| StatementTheorems.StepSound | client/mysql.cc:2549-2780 | Every branch keeps: never in a quote and a multi-line comment at once, an open quote has text in the buffer or the output and no blank owed, a dropped comment leaves no output, and the delimiter stays valid |
| StatementTheorems.SessionSound | client/mysql.cc:2205-2406 | That holds after every sequence of lines and interrupts |
| StatementTheorems.SendsOnlyOutside | client/mysql.cc:2574-2720 | Whatever is sent leaves outside quotes and comments; inside a hint only a backslash command or a line comment can send |
| StatementTheorems.LiteralKept | client/mysql.cc:2574-2637 | For every literal body: all of it is kept in order, nothing is sent, and it ends where SQL ends it |
| StatementTheorems.QuotedLine | client/mysql.cc:2781-2807 | A line that does not close an open literal is appended whole with its newline, but for a backslash that is its last byte |
| StatementTheorems.LiteralAcrossLines | client/mysql.cc:2205-2406 | For every run of such lines the buffer gets all of them and neither a statement nor a command is run |
| StatementComments.CommentEndsAtFirstClose | client/mysql.cc:2722-2780 | With and without --comments: inside a comment nothing is sent, what is kept only grows and grows only with --comments, and it ends at the first closing mark if and only if it does not stand in a special comment, contains none and has no slash before the mark |
| StatementComments.NestedKeepsOpen | client/mysql.cc:2722-2780 | A concrete line on which a special comment inside a comment takes its closing mark |
| StatementItems.InsideKeepsOpen | client/mysql.cc:2722-2780 | A concrete line on which a comment inside a conditional comment loses its closing mark to it |
| StatementItems.PlainKept | client/mysql.cc:2549-2780 | Plain text is kept in order, inside hints with the quotes, delimiters and comment marks in it; blanks in front of a statement are dropped unless comments are kept, and a blank owed to a comment is paid once |
| StatementItems.LiteralIsKept | client/mysql.cc:2574-2780 | A literal with its two quotes is kept whole, with and without --comments |
| StatementItems.MarkRuns | client/mysql.cc:2757-2780 | Where a hint or a conditional comment begins, also inside another, its first byte is kept and the mode changes |
| StatementItems.CommentPasses | client/mysql.cc:2722-2780 | A comment, also inside a conditional comment and with special comments or further opening marks in it, is passed up to the mark that closes it: without --comments it leaves nothing but an owed blank, with it its text is kept, marks included |
| StatementItems.UnmarkRuns | client/mysql.cc:2757-2780 | Where it ends the first byte of the closing mark is kept and the mode changes back |
| StatementItems.EscapeRuns | client/mysql.cc:2574-2637 | A backslash with a letter that is no command is kept, or ends the session where errors are fatal |
| StatementItems.ShortRuns | client/mysql.cc:2586-2625 | A one-letter command gets what precedes it flushed and the rest of the line, and its parameters are passed |
| StatementItems.DelimitRuns | client/mysql.cc:2638-2680 | At the delimiter the buffered text with what the line has added, and with --comments the blanks and the comment behind it, is run as a command or sent, and nothing stays buffered |
| StatementItems.ItemsRun | client/mysql.cc:2549-2780 | Any sequence of such items has their effects one after the other, until the server ends the session |
| StatementRows.HeadRuns | client/mysql.cc:2549-2780 | A line may begin with the rest of a literal or of a comment |
| StatementRows.EndingRuns | client/mysql.cc:2681-2780 | A line may end plainly, inside a literal or a comment that it opens, in a comment that is dropped or, with --comments, kept and sent by itself if nothing precedes it, or in a backslash that is dropped |
| StatementRows.RowRead | client/mysql.cc:2351-2374 | Every interrupt, client command, line inside a literal or comment, and line of items has exactly the effect of its description |
| StatementRows.RowsRead | client/mysql.cc:2205-2406 | Over any number of inputs the reader has these effects one after the other, whatever the server answers and whichever delimiter is set on the way |
| StatementLines.LiteralEnds | client/mysql.cc:2574-2637 | Any text behind a quote holds a whole literal body and its closing quote, or runs to the end of the line |
| StatementLines.CommentEnds | client/mysql.cc:2722-2780 | Any text behind the start of a comment, in any mode, holds a mark that closes it with none before, or runs to the end of the line |
| StatementLines.PlaceKnown | client/mysql.cc:2549-2780 | Outside literals and comments every place of every line holds one of the items, or the line ends there in one of the ways |
| StatementLines.EveryInput | client/mysql.cc:2351-2374 | Every interrupt and every line without a NUL, in every state of the reader that a session can reach, has a description |
| StatementLines.EverySession | client/mysql.cc:2205-2406 | Every session has a description line by line, and the reader has exactly its effects |
| StatementScripts.PiecesWritten | client/mysql.cc:2549-2780 | The text that is kept of a statement, item by item and apart from the scanner: comments leave a blank, all else is as it was |
| StatementScripts.TextIsSource | client/mysql.cc:2549-2780 | Without comments that text is the source of the statement but for blanks in front |
| StatementScripts.SplitUndoesJoin | client/mysql.cc:2531-2807 | A line made by joining statements with the delimiter sends exactly the texts of these statements and leaves nothing behind |
| StatementScripts.ExampleSent | client/mysql.cc:2531-2807 | A concrete line with delimiters in a literal and in a comment: exactly one statement is logged as sent, with the literal and without the comment |
| StatementScripts.VisibleSent | client/mysql.cc:3578-3596 | A buffer that ends in a visible character is sent as it is |
| StatementScripts.SendAllLog | client/mysql.cc:2638-2680 | What is sent are these texts in order, all of them unless the server ends the session |
| StatementScripts.SpreadRead | client/mysql.cc:2205-2406 | A statement spread over lines, also over parts of a line that was too long, is sent once, whole, with the line ends of whole lines, when its delimiter comes |
| StatementScripts.OpeningKept | client/mysql.cc:2781-2807 | A line that ends inside a literal is buffered with its line end, whatever it begins with |
| StatementScripts.CompleteRuns | client/mysql.cc:2662-2678 | A statement that reads like a client command is run as one at its delimiter, and nothing of it stays buffered |
| StatementScripts.CommentAcrossLines | client/mysql.cc:2722-2756 | Without --comments lines inside a comment leave no trace, whatever they contain, as long as none of them closes it as the scanner reads it |
| StatementScripts.DelimitedLineNoCommand | client/mysql.cc:2465-2485 | A line with the delimiter in it is never taken for a named command, unless it sets the delimiter |
| StatementTheorems.RemarkBegins | client/mysql.cc:2681-2720 | A comment to the end of the line begins with a number sign, or with two dashes and a blank or the end behind them |
| StatementWords.NamedCommand | client/mysql.cc:2465-2525 | For every line that begins with a word: it is looked up as a command under that word, with whether arguments follow, unless it holds a backslash-g, or the delimiter and does not set it |
| StatementWords.ContainsIff | client/mysql.cc:2465-2485 | A text is found in a line exactly if it stands at some place of it |
| StatementWords.DelimiterWord | client/mysql.cc:2465-2485 | The command that sets the delimiter is its name in letters of either case |
| StatementWords.QuotesAre | client/mysql.cc:2757-2780 | The three characters that open a literal |
| StatementWords.ParametersEnd | client/mysql.cc:2605-2625 | A one-letter command with parameters takes the line up to and with the next delimiter, inside a special comment up to its closing mark |
| StatementWords.DelimiterSet | client/mysql.cc:4725-4750 | A new delimiter is the argument cut to fifteen characters; an empty argument or one with a backslash changes nothing |
| StatementWords.CommandsAre | client/mysql.cc:3534-3594 | Clearing empties the buffer and sends nothing, going sends its visible part, setting the delimiter changes nothing else, and any other command runs once with the text it was given |
| CompletionHash.HashBelow28Bits | client/completion_hash.cc:35-47 | The hash always has its top four bits clear, so no bit is lost by the next shift |
| CompletionHash.HashExamples | client/completion_hash.cc:35-47 | The hash of two letters, and of the bytes on both sides of the sign bit |
| CompletionHash.HashPjw | client/completion_hash.cc:35-47 | The loop computes the folded hash of the whole key |
| CompletionHash.HashTable.constructor | client/completion_hash.cc:49-65 | An empty, valid table of the given size |
| CompletionHash.ShapeAfterAdd | client/completion_hash.cc:98-117 | Linking a bucket in keeps the shape: every bucket in the chain of its hash, one bucket per key |
| CompletionHash.HashTable.Find | client/completion_hash.cc:121-141 | Finds the bucket of a key if and only if the table has one |
| CompletionHash.HashTable.Update | client/completion_hash.cc:68-119 | Enters a word under a prefix of its key, in front of those already there; fails on an empty key; the table stays valid and the count of every bucket is the length of its list |
| CompletionHash.HashTable.Exists | client/completion_hash.cc:144-164 | True exactly if the key has a bucket that was created for that very word |
| CompletionHash.HashTable.Clean | client/completion_hash.cc:213-217 | Leaves an empty valid table |
| CompletionIndex.AddWordIndexes | client/completion_hash.cc:227-233 | Entering a word under all its prefixes turns the index of a list into the index of the longer list |
| CompletionIndex.HistoryIndexes | client/completion_hash.cc:68-119 | After any sequence of additions and cleans, every non-empty prefix leads to exactly the words that have it, newest first with repetitions |
| CompletionIndex.MatchesExactly | client/completion_hash.cc:166-179 | A prefix selects every word that has it as often as it was added, and no other |
| CompletionIndex.ExistsIff | client/completion_hash.cc:144-164 | The lookup is true only for added words, and for an added word if and only if it was the first added among all that start with it |
| CompletionIndex.ShorterWordNotFound | client/completion_hash.cc:144-164 | A word added after a longer one that starts with it is not found |
| CompletionIndex.PrefixStops | client/completion_hash.cc:181-210 | A prefix that keeps all words and loses one with the next letter is their longest common prefix |
| CompletionWords.AddWord | client/completion_hash.cc:227-233 | The loop enters the word under each of its prefixes |
| CompletionWords.FindAllMatches | client/completion_hash.cc:166-179 | None exactly for an empty text or one that no word starts with; otherwise the bucket holds the matching words and their number |
| CompletionWords.FindLongestMatch | client/completion_hash.cc:181-210 | Comparing only bucket counts, returns the longest common prefix of all words that extend the text, with a bucket that holds the same words |
| CompletionGenerator.WalkIsComplete | client/mysql.cc:2934-2980 | The words that the walk lets through are the added words without the empty one, which is entered nowhere, each as often as it was added |
| CompletionGenerator.Generator.Turn | client/mysql.cc:2951-2977 | One turn emits the entry under the cursor if its length is that of the key, and moves on so that exactly the rest is still to come |
| CompletionGenerator.Generator.Generate | client/mysql.cc:2909-2985 | Each call returns the first of the words still to come and leaves the others; none at the end; also after a walk that was abandoned |
| CompletionGenerator.Generator.Completions | client/mysql.cc:2909-2985 | Driven to its end it returns, for a text, the matching words newest first, and for no text all words but the empty one as often as they were added; also after a walk that was abandoned |
| BinlogServer.EndBinlogAfter | client/mysqlbinlog.cc:1144-1172 | What end_binlog makes of any session of the server: ROLLBACK, or BEGIN and ROLLBACK, both refused inside an XA transaction |
| BinlogTheorems.EndBinlogCloses | client/mysqlbinlog.cc:1144-1172 | end_binlog leaves no open transaction and no dangling GTID if and only if the server is not in an XA transaction, which then stays, nor in a plain one that does not show in what was printed while no GTID is pending |
| BinlogTheorems.KindKeeps | client/mysqlbinlog.cc:1256-1708 | Every kind of event keeps the flags covering, in any log: a printed transaction that shows as open implies the transaction flag, a printed GTID with nothing after it the GTID flag |
| BinlogTheorems.QueryKeeps | client/mysqlbinlog.cc:1257-1326 | In particular queries, with filtered, group-starting, group-ending and XA ones |
| BinlogTheorems.FormatKeeps | client/mysqlbinlog.cc:1440-1492 | In particular format description events, which close the previous log |
| BinlogTheorems.GtidKeeps | client/mysqlbinlog.cc:1674-1686 | In particular GTID events, behind an added COMMIT if something was skipped |
| BinlogTheorems.DumpClosesIff | client/mysqlbinlog.cc:2346-2416 | For all options, logs, truncations and readings of statements: what is printed ends with no open transaction and no dangling GTID if and only if where the input ends the server is not inside an XA transaction, nor inside a plain one that does not show while neither a skipped event nor a pending GTID adds an end |
| BinlogTheorems.HiddenIff | client/mysqlbinlog.cc:1302-1308 | An open transaction does not show exactly if at some place of what was printed the server kept it at an end of a group, or began it where nothing says so, and ever since it stayed open and nothing looked like a start |
| BinlogTheorems.EachBinlogCloses | client/mysqlbinlog.cc:1440-1466 | The same condition, but for skipped events, decides whether a further log inside the run starts with everything closed |
| BinlogExact.ClosesIff | client/mysqlbinlog.cc:1144-1172 | For given options, reading and statements of a log, every run closes everything, wherever the input is cut off, if and only if no statement starts an XA transaction or begins a plain one unseen, and, where one begins a plain one, all that reads like an end of a group ends it; or nothing is printed |
| BinlogExact.DumpClosesEverything | client/mysqlbinlog.cc:2346-2416 | With such statements every run closes everything |
| BinlogExamples.UsualCloses | client/mysqlbinlog.cc:1144-1172 | For a log as a server writes it that is: no XA START, and no XA ROLLBACK beside a BEGIN |
| BinlogExact.CutInsideXa | client/mysqlbinlog.cc:1144-1172 | A log that is cut off behind an XA START leaves it open |
| BinlogExact.BegunUnseen | client/mysqlbinlog.cc:1302-1308 | A statement that begins a transaction without reading so leaves it open |
| BinlogExact.RefusedEnd | client/mysqlbinlog.cc:1302-1308 | A statement that reads like an end and is none makes the printer take the transaction for closed while it stays open |
| BinlogExact.RefusedCommit | client/mysqlbinlog.cc:1302-1308 | So does one that commits implicitly, behind a numbered GTID, where the server refuses it |
| BinlogExamples.RefusedRollback | client/mysqlbinlog.cc:1302-1308 | In particular an XA ROLLBACK inside a plain transaction |
| BinlogExamples.HiddenByRollback | client/mysqlbinlog.cc:1302-1308 | In a log as a server writes it nothing else hides a transaction |
| BinlogExact.OpenExactIff | client/mysqlbinlog.cc:1257-1326 | For all options and readings: the transaction flag is right in every run if and only if no statement starts an XA transaction, those that begin a plain one are those that read so, and, where there is one, --database meets no printed GTID, those that read like an end are those that end one, and no implicit commit goes unseen |
| BinlogExamples.UsualExact | client/mysqlbinlog.cc:1257-1326 | For a log as a server writes it that is: no XA START and, beside a BEGIN, no XA ROLLBACK, no statement that commits implicitly, and no GTID printed with --database |
| BinlogExact.ExactIff | client/mysqlbinlog.cc:1257-1326 | Both flags are right in every run if and only if besides no row, load or XA prepare event meets a printed GTID |
| BinlogExamples.CreateUnnoticed | client/mysqlbinlog.cc:1257-1326 | Behind BEGIN and CREATE TABLE, as CREATE TABLE ... SELECT is logged, nothing is open, but the transaction flag stays set, with any options |
| BinlogExact.MisreadEnd | client/mysqlbinlog.cc:1302-1308 | More generally behind any statement that ends a transaction without reading so, or the other way round, the flag is wrong |
| BinlogExact.AddedCommitUnnoticed | client/mysqlbinlog.cc:1674-1686 | With --database a run exists after which the transaction flag is set although the printed COMMIT has closed it |
| BinlogExamples.PreparedUnnoticed | client/mysqlbinlog.cc:1698-1708 | Behind a whole XA transaction as the server logs it nothing is open, but the transaction flag stays set, also without --database |
| BinlogFilter.LogsAreRead | client/mysqlbinlog.cc:2346-2416 | The loops over files and events are one loop over all events, with the stop position for those of the last file |
| BinlogFilter.ArrivesIff | client/mysqlbinlog.cc:1209-1247 | An event gets as far as the GTID filter exactly if --offset, --start-datetime and --server-id do not hold it back, told from the events read so far, and no event up to it stops the run |
| BinlogFilter.FilterNext | client/mysqlbinlog.cc:930-1017 | The decision of the filter and its new flag are those told from the events that have reached it |
| BinlogOutput.KindTells | client/mysqlbinlog.cc:1256-1729 | Every event that passes keeps all flags, remembered tables, remembered files, buffered events and the output what the events so far say |
| BinlogOutput.OutputIs | client/mysqlbinlog.cc:1144-1729 | For all options, files and stop positions the whole output is told from the events: each printed one, the buffered ones before their query, each added COMMIT, BEGIN and ROLLBACK, and the end of each log |
| BinlogOutput.PrintsWanted | client/mysqlbinlog.cc:1256-1729 | The events printed are those that pass the filters, in order, without those of another database, rows of a table mapped to another database in the same statement, and loads whose file was not begun or is gone |
| BinlogOutput.KeywordsIff | sql/log_event.h:1481-1503 | The statements that --database never leaves out, by their words in letters of either case |
| BinlogOutput.GroupWords | sql/log_event.h:1525-1545 | What starts or ends a group is among them |
| BinlogFilter.RejectedInside | client/mysqlbinlog.cc:930-1017 | Between a GTID event and the end of its group the verdict does not change |
| BinlogFilter.TransactionAsAWhole | client/mysqlbinlog.cc:930-1017 | So every ordinary event of a transaction, up to the one that ends it and across the ends of files, passes or is dropped with it, and control events always pass |
| BinlogProgram.Printer.ShallSkipGtids | client/mysqlbinlog.cc:930-1017 | The function with its static flag takes the decision and leaves the flag of the specification |
| BinlogProgram.Printer.EndOfBinlog | client/mysqlbinlog.cc:1144-1172 | end_binlog on the global flags |
| BinlogProgram.Printer.DoQuery | client/mysqlbinlog.cc:1257-1326 | The query case on the global flags, with the buffered events printed before it |
| BinlogProgram.Printer.DoFormat | client/mysqlbinlog.cc:1440-1492 | The format description case on the global flags |
| BinlogProgram.Printer.DoRows | client/mysqlbinlog.cc:1541-1673 | The row event case: rows of ignored tables are dropped and a statement end clears the ignored tables |
| BinlogProgram.Printer.Process | client/mysqlbinlog.cc:1197-1729 | process_event as a whole, with the position, time and server filters before it |
| BinlogProgram.Printer.DumpMultipleLogs | client/mysqlbinlog.cc:2346-2416 | The loop over the logs and its tail produce the specified output |
| LoadFiles.FreeVersion | client/mysqlbinlog.cc:472-484 | The least version below 1000 from the given one on whose file does not exist, and none exactly if all exist |
| LoadFiles.RunHolds | client/mysqlbinlog.cc:711-872 | After any run every live id names a file that holds the block of its latest begin event and all later append blocks for it, in order |
| LoadFiles.LoadsFindTheirData | client/mysqlbinlog.cc:1501-1528 | In any interleaving of ids the printed statements are those with data, each file holds exactly its data, and the printed name is that of the file if and only if neither the directory nor the base name in its event has a backslash |
| LoadFiles.NamesRightIff | client/mysqlbinlog.cc:1501-1528 | All printed names are right if and only if nothing is printed or neither the directory nor any base of a printed load has a backslash |
| LoadFiles.BackslashMisleads | client/mysqlbinlog.cc:892-900 | With a backslash in the directory the printed name is of no file of the run |
| LoadFiles.OldFilesUntouched | client/mysqlbinlog.cc:711-772 | Files that existed before the run are never written |
| LoadFiles.LoadProcessor.CreateUniqueFile | client/mysqlbinlog.cc:472-484 | The loop finds the least version below 1000 whose name is not on the disk, and fails exactly if all 1000 names are |
| LoadVersions.NamesDiffer | client/mysqlbinlog.cc:711-772 | Files have different names if base, id or version differ |
| LoadVersions.FailsIff | client/mysqlbinlog.cc:711-772 | A run fails exactly if it comes to an event that begins a file when the files on the disk before the run and the events before it have used all thousand versions of its name |
| LoadVersions.FewNeverFail | client/mysqlbinlog.cc:472-484 | As long as old files and events are no more than a thousand, no run fails |
| LoadVersions.SecondRun | client/mysqlbinlog.cc:472-484 | A run in a directory that still has the file of an earlier one takes the next version |
| LoadFiles.LoadProcessor.ProcessFirstEvent | client/mysqlbinlog.cc:711-772 | Create and begin events on the id table and the files |
| LoadFiles.LoadProcessor.ProcessAppend | client/mysqlbinlog.cc:834-872 | Append events: the block goes to the file of a live id, and without one nothing happens |
| LoadFiles.LoadProcessor.GrabName | client/mysqlbinlog.cc:535-579 | Grabbing takes the record out and returns its name only for its own kind |
| LoadFiles.LoadProcessor.ConvertPathToForwardSlashes | client/mysqlbinlog.cc:892-900 | Every backslash becomes a slash, and nothing else changes |
| LoadFiles.LoadProcessor.Process | client/mysqlbinlog.cc:1501-1528 | Any event on the state of the processor has the specified effect |
| RewriteDb.RewrittenParses | client/mysqlbinlog.cc:102-145 | For a name of less than 256 bytes the rewritten event parses to it, its header holds its size, and all other bytes are unchanged |
| RewriteDb.ReadBackIff | client/mysqlbinlog.cc:102-145 | The new name is read back from its length byte, which a parser takes as unsigned, if and only if it has less than 256 bytes |
| RewriteDb.LongNameLost | client/mysqlbinlog.cc:102-145 | Of a name of 256 bytes nothing is read back |
| RewriteDb.SecondPassIff | client/mysqlbinlog.cc:102-145 | A second rewriting, which takes the length byte as signed, finds the new name if and only if it has less than 128 bytes |
| RewriteDb.SecondPassFails | client/mysqlbinlog.cc:102-145 | A name of 128 bytes is read back by a parser and not found by a second rewriting |
| RewriteDb.RewriteBackIff | client/mysqlbinlog.cc:102-145 | A second rewriting finds the new name and gives back the original event if and only if the name has less than 128 bytes and the header held the true length |
| RewriteDb.RewriteBack | client/mysqlbinlog.cc:102-145 | Rewriting back restores the original bytes if and only if the header held the true length, for shorter and longer names |
| RewriteDb.SamePlace | client/mysqlbinlog.cc:175-250 | For any new name the name is found in the same place after rewriting, in query, load query and table map events |
| RewriteDb.FormatsAre | client/mysqlbinlog.cc:146-250 | The header sizes with which the offsets are computed |
| RewriteDb.FilterBack | client/mysqlbinlog.cc:253-273 | Filtering with a rule and then with the rule turned round gives back the original event |
| RewriteEvents.FieldFound | client/mysqlbinlog.cc:146-250 | In an event laid out field by field, as query, load query or table map, the offsets computed from the headers lead to the database field |
| RewriteEvents.RewrittenIsAssembled | client/mysqlbinlog.cc:102-145 | Rewriting the bytes is laying out the event anew with the new name |
| RewriteEvents.FilterChangesField | client/mysqlbinlog.cc:253-273 | For every such event and every set of rules, filtering the bytes changes the database field as the rules say, with both lengths, and nothing else |
| RewriteDb.RewriteInBuffer | client/mysqlbinlog.cc:102-145 | memmove, memcpy and realloc on the event buffer produce the rewritten bytes, or leave them when no rule applies |
| DumpProtocol.NormalisedModes | client/mysqldump.c:1070-1093 | Accepted options are one snapshot, one lock or neither, and replication data implies one of the first two |
| DumpProtocol.NormalisedValues | client/mysqldump.c:1070-1093 | Options are refused exactly if a snapshot and a lock of all tables are asked for without --dump-slave, and what the others become |
| DumpTheorems.OpeningFixesPoint | client/mysqldump.c:6403-6450 | After the opening commands the state is pinned to one commit point, by the lock or by a snapshot taken under it |
| DumpTheorems.OnePoint | client/mysqldump.c:6403-6556 | For every accepted option set of a consistent mode and every interleaving of commits, all tables are read at one point and every coordinate written is of that point |
| DumpTheorems.OnePointIff | client/mysqldump.c:6403-6556 | For all interleavings one state of the server explains all reads and coordinates, if and only if the mode is one of the two |
| DumpTheorems.TwoPoints | client/mysqldump.c:4894-4987 | In any other mode a session that writes to two databases makes the dump show what no state of the server ever was |
| DumpTheorems.CrossedReads | client/mysqldump.c:4894-4987 | A commit to a database behind its read, and then one to another database before its read, are explained by no state |
| DumpLocks.AtOnceIff | client/mysqldump.c:4894-5005 | Each database of every dump is shown as of one moment, whatever others commit, if and only if the mode is one of the two or --lock-tables is in force |
| DumpLocks.LockedAtOnce | client/mysqldump.c:4895-4911 | With --lock-tables all reads of a database, of any number of tables, show the same commits to it |
| DumpLocks.Apart | client/mysqldump.c:4894-4987 | Without any lock a commit comes between two tables of one database |
| DumpOrder.ScriptTimely | client/mysqldump.c:6403-6556 | Each command of a dump is sent under the locks it needs; in a transaction no lock is held while tables are read and no table read stays closed to alterations; in the end only the lock of all tables is held; logs are flushed once under the lock, or once for each database where nothing is consistent |
| DumpOrder.RunAgrees | client/mysqldump.c:6403-6556 | The locks told from the commands are those of the server in every run |
| DumpOrder.SlaveStarted | client/mysqldump.c:5465-5494 | After a dump replication runs exactly if it ran before or --dump-slave was given |
| DumpOrder.StoppedSlaveStarted | client/mysqldump.c:5465-5494 | A replication that was stopped is started by a dump with --dump-slave |
| DumpTheorems.DumpReadsAllTables | client/mysqldump.c:4894-5005 | Every table of every database is read once, in order, in every mode |
| DumpTheorems.CoordinatesWritten | client/mysqldump.c:5967-6105 | The GTID set, master and slave positions are written exactly when the options ask for them |
| DumpProgram.Dumper.GetOptions | client/mysqldump.c:1070-1093 | Rewriting the option globals in order accepts and normalises as specified |
| DumpProgram.Dumper.Open | client/mysqldump.c:6403-6450 | The opening commands, with the flush flag cleared once the logs are flushed |
| DumpProgram.Dumper.DumpAllTablesInDb | client/mysqldump.c:4894-5005 | The commands for one database with the flags as main left them |
| DumpProgram.Dumper.SendAll | client/mysqldump.c:6403-6556 | main sends exactly the specified commands |
| DumpProgram.SameCommands | client/mysqldump.c:6420-6440 | With the cleared flag the logs are flushed per database only when they were not flushed before |
| InsertPacking.PackAllSplits | client/mysqldump.c:4220-4246 | Packing keeps all rows once and in order, and every group fits by the accounting |
| InsertPacking.StatementBelowLimit | client/mysqldump.c:3991-3994 | The accounting never counts less than is written: a statement with two or more rows is shorter than the limit in bytes |
| InsertPacking.TextOfThree | client/mysqldump.c:4220-4246 | The text of two statements, one of two rows |
| InsertPacking.GreedyIsAhead | client/mysqldump.c:4220-4246 | Against every other split the packing is never behind, row by row |
| InsertPacking.FewestStatements | client/mysqldump.c:4220-4246 | No order-keeping split under the same accounting uses fewer statements |
| InsertPacking.WriteRow | client/mysqldump.c:4220-4246 | One row: joined or new statement, from the running length alone |
| InsertPacking.WriteRows | client/mysqldump.c:3991-4254 | The loop writes the text of the packing, closed at the end |
| SqlQuoting.QuotedNameMatchesOnlyItself | client/mysqldump.c:1873-1892 | The quoted name lexes as one literal whose value, as a LIKE pattern, matches the name and nothing else, within four bytes a character and two |
| SqlQuoting.LikeLexes | client/mysqldump.c:1873-1892 | The body between the quotes lexes to the pattern |
| SqlQuoting.PatternMatchesOnly | client/mysqldump.c:1873-1892 | The pattern matches a text if and only if it is the name |
| SqlQuoting.QuoteForLike | client/mysqldump.c:1873-1892 | The character loop writes the quoted name and a NUL within the buffer |
| SqlQuoting.FieldLexes | client/mysqldump.c:3696-3724 | For every option string the escaped text between quotes is exactly one literal, whatever follows, with the value the user meant |
| SqlQuoting.FieldLength | client/mysqldump.c:3696-3724 | It is at most twice as long as the input |
| SqlQuoting.DumpFieldEscape | client/mysqldump.c:3696-3724 | The version of mysqldump writes that text between quotes |
| SqlQuoting.ImportFieldEscape | client/mysqlimport.c:595-616 | The version of mysqlimport writes the same text behind what is in the buffer, within the buffer |
| ImportThreads.StepSafe | client/mysqlimport.c:618-757 | Every step of every thread keeps: mutexes are held exactly in their sections, the counter counts the slots and is within the limit, and once it was seen at zero all workers are through |
| ImportThreads.LimitKept | client/mysqlimport.c:618-757 | In every interleaving the counter is the number of slots reserved and not released, at most the limit, and when a mutex or the condition is destroyed every worker is past its last use |
| ImportTheorems.StepSound | client/mysqlimport.c:618-757 | Every step also keeps the accounts: every table begun has one outcome or one worker that will bring it, and the exit code follows the refused tables |
| ImportTheorems.ExitCode | client/mysqlimport.c:618-757 | On return the exit code is non-zero exactly if a table was refused, and every table has an outcome; an early end has code 1, for a refused table or a missing session |
| ImportForce.DiesIff | client/mysqlimport.c:512-545 | In every interleaving a step ends the process early exactly if it is that of a worker without a connection, or of one whose character set or table was refused, without --force or when some worker has got no connection |
| ImportForce.ErrorsIgnoredIff | client/mysqlimport.c:512-545 | Errors are passed over exactly with --force and as long as every worker that asked has got its connection |
| ImportForce.ForceGoesOn | client/mysqlimport.c:512-545 | With --force refused tables never end the process: only a missing connection does |
| ImportForce.ReturnsClean | client/mysqlimport.c:512-545 | Without --force an import that returns has refused no table and found a session for every worker |
| ImportTheorems.ZeroMeansLoadedIff | client/mysqlimport.c:643-757 | With exit code 0 all tables were loaded if and only if every thread could be created and initialised, got its handle and could set its character set |
| ImportTheorems.TroubleIff | client/mysqlimport.c:643-757 | In every run a table is lost, or about to be, exactly if one of these calls was answered no |
| ImportTheorems.LostTableGoesUnnoticed | client/mysqlimport.c:722-731 | A thread that cannot be created loses its table and the exit code is 0 |
| ImportTheorems.NoConnectionEndsAll | client/mysqlimport.c:512-519 | A worker without a connection ends the process with 1, also with --force and no table refused |
| ImportTheorems.JoinedOnce | client/mysqlimport.c:748-754 | Handles stay within the array; every created thread is joined once, in order, when it is through |
| ImportTheorems.HolderRuns | client/mysqlimport.c:618-757 | A worker that cannot go on waits for a mutex whose holder can |
| ImportTheorems.NoDeadlock | client/mysqlimport.c:618-757 | Until the process ends some thread can take a step |
| ImportTheorems.BoundedWork | client/mysqlimport.c:618-757 | However scheduled, all steps but the polling of the main thread number at most 25 a table and 31 more |
| LoginText.FindLine | client/mysql_config_editor.cc:1138-1164 | A search for a newline and a text finds the next line that starts with the text |
| LoginText.LocateLine | client/mysql_config_editor.cc:1138-1164 | The path is located at the start of the first line that starts with its header |
| LoginText.LocateIs | client/mysql_config_editor.cc:1138-1164 | On any text the path is located at the first line that starts with its header, and nowhere exactly if there is none |
| LoginText.RemovePathLines | client/mysql_config_editor.cc:1053-1087 | On any text of lines the cut removes the lines of that section and nothing else |
| LoginText.RemoveOptionLines | client/mysql_config_editor.cc:981-1040 | On any text of lines the cut removes the first line of that section that starts with the option and nothing else |
| LoginSections.PathLinesRemoved | client/mysql_config_editor.cc:1053-1087 | On well-formed sections that is the section of that name |
| LoginSections.OptionLinesRemoved | client/mysql_config_editor.cc:981-1040 | On well-formed sections that is the option of that section |
| LoginCommands.PathTextRendered | client/mysql_config_editor.cc:551-589 | What set appends is the new section, rendered |
| LoginCommands.PathTextIs | client/mysql_config_editor.cc:551-589 | The text of a path in which everything is given |
| LoginCommands.SetRefines | client/mysql_config_editor.cc:534-624 | set on the text is set on the sections, which stay well-formed |
| LoginCommands.RemoveRefines | client/mysql_config_editor.cc:951-973 | remove on the text is remove on the sections, which stay well-formed |
| LoginCommands.RunRefines | client/mysql_config_editor.cc:534-676 | Over any run of commands the text is the rendered form of the sections, and their names stay unique |
| LoginCommands.SetMeans | client/mysql_config_editor.cc:534-624 | set replaces the settings of its name, moves it last and leaves all other names as they are |
| LoginCommands.RemoveMeans | client/mysql_config_editor.cc:951-973 | remove drops the named options of its path, or the path if none is named, and leaves all else and the order as it is |
| LoginBuffer.DynamicString.LocateLoginPath | client/mysql_config_editor.cc:1138-1164 | On the NUL-terminated array the path is located where the specification says |
| LoginBuffer.DynamicString.RemoveLoginPath | client/mysql_config_editor.cc:1053-1087 | Closing up or cutting off the array removes the path |
| LoginBuffer.DynamicString.FindOptionLine | client/mysql_config_editor.cc:998-1023 | The line-by-line search with its shrinking length finds the first occurrence within the bound, or none |
| LoginBuffer.DynamicString.RemoveOption | client/mysql_config_editor.cc:981-1040 | The search and the shift to the left remove the option |
| LoginBuffer.LinesEnd | client/mysql_config_editor.cc:981-1040 | In a text that ends with a newline the search for the end of an option stays inside it for whichever options are removed, and what is left ends with a newline |
| LoginBuffer.DynamicString.RemoveOptions | client/mysql_config_editor.cc:951-973 | The options given are removed one after the other, or the path if none is |
| LoginBuffer.SetCommand | client/mysql_config_editor.cc:551-610 | The path is built, the old one removed and the new one appended |
| LoginFile.PaddingWorks | mysys_ssl/my_aes_openssl.cc:272-282 | What is assumed of the cipher is met by the block padding |
| LoginFile.FramesRead | client/mysql_config_editor.cc:1183-1305 | Whatever text a C string can hold was to be written, either reader returns its lines up to the first that is too long or has no newline |
| LoginFile.LongestLine | client/mysql_config_editor.cc:1219-1226 | A line is too long exactly if it has more than 4079 characters with its newline |
| LoginFile.KeptIff | client/mysql_config_editor.cc:1219-1226 | All complete lines are kept exactly if none is too long |
| LoginFile.CompleteIs | client/mysql_config_editor.cc:1208-1217 | The complete lines are the text up to its last newline |
| LoginFile.RoundTripIff | client/mysql_config_editor.cc:1183-1305 | Writing and reading back is the identity if and only if no line is too long and the text is empty or ends with a newline; the two readers agree on every file written |
| LoginFile.UnfinishedLineLost | client/mysql_config_editor.cc:1208-1217 | A line without a newline at the end is not read back |
| LoginFile.LongLineLost | client/mysql_config_editor.cc:1219-1226 | A line of 4080 characters is not read back, nor the short one behind it |
| LoginFile.HeaderIs | client/mysql_config_editor.cc:1370-1391 | The header is four zero bytes and the key, and the frames follow it |
| LoginFile.FileRoundTrip | client/auth_utils.cc:84-119 | From the whole file, with the key taken from its header, both readers recover such a text |
| LoginFile.LoginStore.EncryptAndWriteFile | client/mysql_config_editor.cc:1183-1248 | The nested loops write header and frames; failure exactly if a line is too long, and then the lines before it are all that is left |
| LoginFile.LoginStore.ReadAndDecryptFile | client/mysql_config_editor.cc:1266-1305 | The loop appends what the frames hold, or fails on a length or cipher that is no good |
| LoginFrames.EveryFileRead | client/mysql_config_editor.cc:1266-1305 | Any bytes are frames that can be decrypted up to a place where they are cut short or broken; their texts, each up to a NUL, are returned together, and the reader fails exactly at a length of more than 4096 or a frame that cannot be decrypted |
| LoginFile.DecryptLoginCnfFile | client/auth_utils.cc:84-119 | The second reader, with its stop at a length of zero |
| LoginFrames.EveryFileDecrypted | client/auth_utils.cc:84-119 | The same for the second reader, which ends at a length of zero and fails also at a frame that is cut short or holds nothing |
| LoginEditor.SomeWork | mysys_ssl/my_aes_openssl.cc:272-282 | There are ciphers that meet the assumptions under every key |
| LoginEditor.RunCommand | client/mysql_config_editor.cc:534-676 | A whole call on the store reads, edits in place and rewrites the file as specified, and fails exactly if the file cannot be read or a line is too long |
| LoginEditor.StoredText | client/mysql_config_editor.cc:1183-1248 | Sections whose lines fit a frame make a text that is written and read back whole |
| LoginEditor.CallsKeep | client/mysql_config_editor.cc:470-676 | Over any number of calls, each of which decrypts and rewrites the file, and of resets with new keys, the file is the encrypted form of the sections the calls meant |
| CnfParser.Stream.GetLine | client/auth_utils.cc:44-78 | Reading up to a delimiter: what is taken, what is left, and whether the text ended |
| CnfParser.ParseCnfFile | client/auth_utils.cc:44-78 | The two stream loops return the code and the options of the specification |
| CnfTheorems.TrimSame | client/auth_utils.cc:36-42 | A value comes through trim unchanged if and only if it has no white space |
| CnfTheorems.SpacesAre | client/auth_utils.cc:36-42 | What counts as white space |
| CnfTheorems.ParseReturnsSection | client/auth_utils.cc:44-78 | On the text of any well-formed configuration the parser returns the options of the chosen section and no other, or that there is no such section; a name with white space is never found |
| CnfTheorems.EnterIs | client/auth_utils.cc:63-72 | What is returned holds each option of the section with the first word of its value, and nothing else is added |
| CnfTheorems.OptionsKept | client/auth_utils.cc:63-72 | On any text at all what the map already holds stays, and the first entry of a name wins |
| CnfTheorems.CommandsToOptions | client/auth_utils.cc:44-119 | After any number of calls of the editor on the encrypted file, the second reader decrypts it and the parser returns for every name what the calls left under it |

## Left out

- Multi-byte character sets, --binary-mode and collations in the statement reader: characters are single bytes and command names fold as ASCII.
- The last statement that a batch run sends without a delimiter, `com_go` beyond handing the statement over, --one-database, the pager, history and prompt of the mysql client.
- The table of client commands: which names exist, and which of them take arguments, are parameters of the reader.
- Entries of a completion bucket are an immutable list, not cells of an arena; buckets and chains are objects.
- CompletionGenerator.Generator.Generate: a first call with no text, over a table that was emptied while a walk was abandoned, is excluded; the source reads freed memory there.
- The text of printed events, caches of row events and their flushing, raw mode, remote reading and start positions of mysqlbinlog; an event is printed or not, and its effect on transaction and GTID is what is followed.
- Failing file operations of Load_log_processor other than running out of free names.
- RewriteDb.RewriteInBuffer: requires that the event's own name has less than 128 bytes; a longer one reads as negative in the source.
- The server that reads a printed binary log is reduced to what is open in the session and to the GTID that is set; how it understands a text is a parameter, with one reading for texts as a server writes them to the log, and a prepared XA transaction is detached, as for a binlog applier.
- The server in DumpProtocol is reduced to what the protocol relies on: the global read lock stops commits, a consistent snapshot is fixed at its start and lost with an implicit commit.
- Failing queries and --force in mysqldump, dumping of views, triggers, routines and tablespaces, and the building of one row's text.
- SqlQuoting.QuoteForLike: requires the buffer that its callers provide; `create_delimiter` and identifier quoting are not modelled.
- ImportThreads: a mutex operation is one step, and running out of memory for the handles is not modelled.
- LoginBuffer.DynamicString.RemoveOption: requires a newline behind the option it finds; without it the source runs past the text.
- LoginBuffer.DynamicString.RemoveOptions: requires that newline behind each option it finds on the way, and nothing of the rest of the text.
- LoginEditor.RunCommand: requires the same of the text it reads, when it is to remove options.
- The question that set and remove ask before overwriting, printing with masked passwords, file permissions, random keys and AES itself: a cipher is any pair of functions where one undoes the other and lengths are whole blocks.
- LoginFile.LoginStore.ReadAndDecryptFile: a stored length of 2^31 or more, negative in the source, counts as too long.
- LoginFile.DecryptLoginCnfFile: a frame cut short by the end of the file is an error here; in the source the outcome depends on what the buffer held.
- mysqladmin, mysql_plugin, mysql_upgrade, mysql_secure_installation, mysql_install_db, mysqlcheck, mysqlshow and mysqlslap: mostly thin drivers that would only add easy members.
