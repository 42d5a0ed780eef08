# Proofs about the shop back end

This project models the parts of the repository that carry invariants of their own, and proves them in
Dafny. Database tables, the cache and the task queue are maps and sequences; a task, a request or a signal
handler is one atomic step. Where the code changes things in place, a class does so too, each method proved
against a function on values; the theorems are lemmas about these functions. Where a property does not hold
of the code, a lemma says exactly when it does.

`dafny verify dfyconfig.toml` checks everything.

## What is proved

**XML to dictionary and back** (`common/xml2dict.py`). `XmlHandler` is the stack machine over SAX events,
`XmlTree` says on element trees what it computes, `XmlEmit` is the printer, `XmlRoundTrip` and `XmlImage` put
them together. Whatever value is printed, in every white-space layout, parsing gives its reading: scalars as
stripped texts, children by name in order. Normal values read as themselves, and they are, in canonical order,
exactly those that parsing produces; streaming reports each element at the item depth once, in order, until the
callback refuses. An element that is streamed without child elements is reported with any text that was pending
in front of it; `StreamedLeaf` gives the condition.

**Daily sales cascade** (`statistics/tasks.py`). Rows trigger the task of their parent, and tasks run in any
order, overtaking each other. In every reachable state a group is consistent or its task is due; the load of due
tasks falls with every task; and when nothing is due every row at every level is the sum of the order records
below it. Saving one record adds its amount to the rows of its status along its ancestors, and changes no other
row. A record whose date moves leaves the old day wrong once the tasks have run out, exactly when it weighs
something and no task of the old day was due.

**Calendar roll-up** (`statistics/tasks.py`). Weeks, months, quarters and years tile the calendar
(`SaleCalendar`); year rows are the sums of quarter rows, those of month rows, and year rows of days, leap years
included. Saves only make tasks due, and due tasks run in any order (`CalendarQueue`). In every run a week or
month row is right or its task is due, so when nothing is due all of them are exact. Quarters and years are
visited only when a month or quarter was saved. Such a row is *covered* when it is right, or its task is due, or
a stale row below it will be visited. Tasks never change what is covered; a save loses its quarter exactly when
afterwards the quarter row is wrong, no task of it is due and all its month rows match, and its year likewise;
and once the tasks have run out, in whatever order, a row is right exactly when it was covered after the last
save. Saves that find no task due lose nothing. In runs that lose nothing each year row is the sum of its
quarter rows and of its days whenever nothing is due, and each quarter row the sum of its month rows. An
interleaving that does lose a quarter is given, with its condition.

**SQLite dump rewriting** (`tools/sqlite2mysql.py`). The marker round trip holds exactly for dumps without the
marker words. After the first pass every line break lies outside a string and the rewriting keeps the quote
structure, so the second pass treats every line on its own. The six replacements are one pass by the table of
six words. Every dump without marker words comes out as its logical lines, which end only outside strings, each
dropped or else rewritten and re-quoted.

**ORM cache** (`core/ormcache`). Every cached entry equals the current row, in every run of reads, saves,
deletes, updates and evictions; an update keeps this exactly when no changed row falls out of its selection.

**Wallet** (`flashsale/pay`). Budget logs move the stored balance one at a time, and the task recomputes it from
all logs (`Wallet`): the two agree over every run, but for one operation, the confirmation of a payment that had
been canceled. The double-entry book (`WalletBook`) agrees with the logs on cash-outs and rebates in all runs,
holds on every subject the sum of what the operations book on it, and follows the purse exactly for the
operations that have an entry; `WalletTables` updates the tables in place. Three operations that reach the
forgetful case are given. Nothing in the repository starts the recomputing task any more; the incremental
updates do its work, so the agreement is what the periodic check relies on. A log with status canceled is
refused; `task_envelope_create_budgetlog` (flashsale/promotion/tasks_activity.py:119-135) asks for one whenever
it finds none, and so never makes one.

**Batched update** (`core/models.py`), **commissions** (`flashsale/clickrebeta/models.py`), **bills**
(`flashsale/finance/models.py`), **nine cards** and **fans** (`flashsale/promotion/tasks_activity.py`),
**district tree** (`flashsale/pay/services.py`) and **identity-card check character** (`core/ocr/idcard.py`):
refinement of one update by many, aggregates that stay fresh, conservation, invariants over runs, termination
and completeness of the tree, equality with the recursive method of ISO 7064 (MOD 11-2).

## Findings

Where the code does not do what its documentation or its callers expect:

- `task_appdownloadrecord_update_fans` says in its comment that a mama is nobody's fan; the code does not
  check it. `FanWalks.RuleStepIff` says which operations break the rule, and `FanWalks.RuleThroughoutIff` that
  a run keeps it exactly when it has none of them. Referrers may then form a circle (`FanWalks.CircleOfTwo`):
  `FanWalks.StepEndsIff` says which operation closes one, and `FanWalks.RunEndsIff` that it never opens again.
- The row of a quarter or a year can stay wrong although no task is due: when tasks of two saves overtake each
  other and a month comes back to what its row says (`CalendarQueue.StaleQuarterRun`;
  `CalendarQueue.SaveCoveredIff` and `CalendarQueue.CoverageDecides` say exactly when).
- `task_decide_award_winner` counts the cards of all events (`Cards.TwoEventsMakeWinner`), and it counts card 1
  twice for those who have it twice: within one event a customer is recorded without card 9
  (`Cards.OneEventWinner`). `Cards.WinnerHoldsAllIff` says after every run who is recorded without all nine
  cards, and `Cards.RunWinnersIff` that a run has no such winner exactly when it has no such decision.
- A customer who draws card 1 for an invitation before the own activation gets it twice
  (`Cards.ActivateDoublesIff`, `Cards.InvitedFirst`), and from then on `task_generate_red_envelope` raises
  whenever a card is drawn for another friend of theirs (`Cards.DoublesStay`).
- A canceled wallet payment that is confirmed after all is not taken out of the wallet again
  (`Wallet.StepBalance`, `Wallet.ForgottenPayment`).
- `_replaceNewline` turns a user's own marker word into a line break (`Sqlite2Mysql.MarkerRoundTrip`).
- `multi_update` promises up to twenty million keys and drops the rest silently
  (`MultiUpdate.WholeUpdateIff`).
- An order whose commission lines are all refunded comes out as finished (`Commission.SaveLineSpec`), and an
  order that a line leaves is not summed up again (`Commission.MovedLineIff`).

## Model

| member | source | states |
|---|---|---|
| XmlHandler.DictSAXHandler.StartElement | common/xml2dict.py:90-103 | A start tag pushes the open item and its pending text below the item depth and nothing above it |
| XmlHandler.DictSAXHandler.Characters | common/xml2dict.py:131-135 | Character data is joined to pending data with the separator, never to empty data |
| XmlHandler.DictSAXHandler.EndElement | common/xml2dict.py:105-129 | The callback is asked first and may interrupt; then the finished element goes to its parent |
| XmlHandler.DictSAXHandler.Close | common/xml2dict.py:114-129 | The finished value is pushed under its name into the popped item, text is stripped, the path shrinks |
| XmlHandler.Parse | common/xml2dict.py:242-250 | Feeding a fresh handler event by event gives the item, the calls and the interruption of the state machine |
| XmlHandler.RunAppend | common/xml2dict.py:90-135 | Handling two streams one after the other is handling their concatenation |
| XmlTree.WellNestedIsForest | common/xml2dict.py:90-129 | The well-nested event streams are exactly the flattened forests |
| XmlTree.RunElem | common/xml2dict.py:90-153 | Below the item depth a whole element leaves the handler as it was but for its recursive value pushed under its name |
| XmlTree.RunKids | common/xml2dict.py:105-153 | The content of an element leaves exactly its pushed child values and its joined text |
| XmlTree.ParseDocument | common/xml2dict.py:156-250 | A document parses to the one-entry dictionary of its root's value, without callbacks |
| XmlTree.AttribsDropped | common/xml2dict.py:96-101 | Without `xml_attribs` attributes leave no trace |
| XmlTree.AttribsKept | common/xml2dict.py:96-99 | With it an attribute is an entry under its name behind an at sign |
| XmlTree.TextOptions | common/xml2dict.py:116-135 | Two chunks are joined with the separator, an empty first one leaves no trace, and white space around goes if and only if it is to be stripped |
| XmlTree.MixedText | common/xml2dict.py:117-124 | Beside a child element text is an entry of its own behind it, unless it is empty |
| XmlTree.ChunksDoNotMatter | common/xml2dict.py:131-135 | With an empty separator any cutting of character data into chunks ends in the same state |
| XmlTree.ResplitParsesAlike | common/xml2dict.py:131-135 | Two cuts of one document parse alike |
| XmlTree.SeparatorShowsTheCut | common/xml2dict.py:131-135 | A cut goes unnoticed if and only if the separator is empty |
| XmlTree.StackDepth | common/xml2dict.py:94-95 | The stack length is always max(0, path length - item depth) |
| XmlTree.DeliverIsPrefix | common/xml2dict.py:107-113 | The callbacks are the reports of a prefix of the elements, cut only by a refusal |
| XmlTree.StreamElem | common/xml2dict.py:105-129 | Above the item depth nothing is kept between elements but the calls made |
| XmlTree.StreamDocument | common/xml2dict.py:105-113 | Streaming calls back once for each element at the item depth, in document order, until the callback returns false |
| XmlEmit.SortEntries | common/xml2dict.py:277-287 | The loop sorts a dictionary into attributes, children and character data, and keeps their order |
| XmlEmit.Emit | common/xml2dict.py:253-303 | The recursive printer writes exactly the events of the printed nodes of its value |
| XmlEmit.EmitSingle | common/xml2dict.py:270-303 | One element: margin, start tag, children, text and line ends in this order |
| XmlEmit.Unparse | common/xml2dict.py:306-339 | One root is printed; no or several keys, and a root list of two or more, are errors |
| XmlRoundTrip.ScalarEvents | common/xml2dict.py:272-277 | Without a layout a scalar of any type is a start tag, its text as it is, and an end tag |
| XmlRoundTrip.KidsLaidOut | common/xml2dict.py:288-303 | With a layout each child element stands on a line of its own behind the margin of its depth; without one nothing stands between them |
| XmlRoundTrip.ContentLaidOut | common/xml2dict.py:291-301 | With children the content is a line end, the children, the text and the margin; without, the text alone |
| XmlRoundTrip.RootLaidOut | common/xml2dict.py:288-303 | The root stands at the margin and no line end follows it |
| XmlRoundTrip.PrintedScalar | common/xml2dict.py:272-277 | The printed element of any scalar, a string or not, reads as its text without the white space around, or as nothing |
| XmlRoundTrip.PrintedReads | common/xml2dict.py:253-303 | The printed element of any value reads as its attributes, its children by name in order, and its stripped text; scalars, lists and dictionaries at any depth |
| XmlRoundTrip.UnparseReads | common/xml2dict.py:253-303 | Parsing what is written for any value, in every white-space layout, gives that reading under its key |
| XmlRoundTrip.ReadNormal | common/xml2dict.py:253-303 | A normal value reads as itself |
| XmlRoundTrip.PrintedValue | common/xml2dict.py:253-303 | The parser's value of a printed element is the value that was printed |
| XmlRoundTrip.RoundTrip | common/xml2dict.py:253-303 | Parsing the printed events of any normal value gives back the value, in every white-space layout |
| XmlRoundTrip.LayoutDoesNotMatter | common/xml2dict.py:288-303 | Two white-space layouts of any one value parse alike |
| XmlRoundTrip.ParsedElem | common/xml2dict.py:105-153 | Every element parses to a normal value that is already in canonical order |
| XmlRoundTrip.ParseUnparseParse | common/xml2dict.py:156-339 | A parsed document can be printed, and parsing the print gives the same dictionary |
| XmlRoundTrip.WellNestedParsesNormal | common/xml2dict.py:90-153 | Every well-nested stream with valid names parses to a dictionary of normal values |
| XmlRoundTrip.StreamedChildren | common/xml2dict.py:107-111 | For an element with child elements the callback gets exactly the children part of what a whole parse builds |
| XmlRoundTrip.StreamedLeaf | common/xml2dict.py:107-111 | Without child elements it gets the pending text joined with its own; its own if and only if none was pending |
| XmlImage.CanonIsSameValue | common/xml2dict.py:280-287 | The canonical order changes no plain dictionary: every key keeps its value |
| XmlImage.ImageOfParse | common/xml2dict.py:105-153 | A value is the value of some element if and only if it is normal and in canonical order |
| SaleStats.FindParentRecordType | statistics/tasks.py:182-187 | The parent type is the least type above; there is none only for the snapshot |
| SaleStats.GenStatusDataMap | statistics/tasks.py:170-179 | All five statuses have an entry: the query's total, or nothing |
| SaleStats.UniKeyInjective | statistics/tasks.py:165-167 | The joined key determines its five parts, though SKU ids contain slashes |
| SaleStats.UniKeyIsJoined | statistics/tasks.py:165-167 | They stand in the order date, id, record type, time type, status |
| SaleStats.WriteRowIff | statistics/tasks.py:209-235 | A written row is right if and only if there was one, or the total has pieces, or it is nothing |
| SaleStats.TaskKeepsInvariant | statistics/tasks.py:190-235 | A task repairs its own group and makes due the parent of every row it saves; all other groups stay consistent or due |
| SaleStats.TaskKeepsGroup | statistics/tasks.py:413-485 | After a task each group is consistent as before unless its own task is due |
| SaleStats.AddKeepsInvariant | statistics/models/models.py:54-60 | A new order record only unsettles its SKU's group, whose task becomes due |
| SaleStats.SetStatusKeepsInvariant | statistics/tasks.py:134-152 | So does a change of a record's status |
| SaleStats.RunKeepsInvariant | statistics/tasks.py:155-485 | In every run of saves and tasks in any order each group is consistent or its task is due |
| SaleStats.TaskLowersLoad | statistics/tasks.py:182-187 | Every task lowers the load of due tasks, since what it makes due has a strictly higher type |
| SaleStats.TasksEnd | statistics/tasks.py:182-187 | Without new saves a run of tasks has at most as many steps as the load at its start |
| SaleStats.QuietMeansExact | statistics/tasks.py:155-485 | When no task is due every row at every level equals the sum of the order records below it, a missing row counting as zero |
| SaleStats.CascadeIsExact | statistics/tasks.py:155-485 | From empty tables, through any run that has become quiet, the whole hierarchy is exact |
| SaleStats.MovedRecordIsLost | statistics/tasks.py:137-151 | After any tasks and other saves but none of the old day, once nothing is due, the SKU rows of the old day are right if and only if their task was due at the move or the record weighs nothing |
| SaleStats.SavedRecordShows | statistics/tasks.py:155-235 | From a quiet state, saving a record and running tasks in any order until nothing is due adds its amount to the row of its status of its SKU and of all its ancestors, and changes no other row |
| SaleStats.ChangedStatusShows | statistics/tasks.py:134-152 | A change of status moves the amount from the old status rows to the new ones, of the SKU and of all its ancestors |
| SaleStats.MovedRecordShows | statistics/tasks.py:134-152 | A record that changes its day shows on its new day in the same way, and on no third one |
| SaleStats.SaleStatsStore.SaveNew | statistics/models/models.py:54-60 | Saving a record appends it and makes the task of its SKU due |
| SaleStats.SaleStatsStore.SaveStatus | statistics/tasks.py:134-152 | An unchanged status saves nothing |
| SaleStats.SaleStatsStore.PerformTask | statistics/tasks.py:190-235 | The loop over the statuses creates, updates or leaves rows and makes the parent due once for each save |
| SaleCalendar.DaysBeforeYearClosed | statistics/tasks.py:357-394 | The days before a year, added up year by year with their leap days, are the closed form that Python's dates count with |
| SaleCalendar.RangeIsMonths | statistics/tasks.py:368-393 | The ranges of month, quarter and year are stretches of whole months |
| SaleCalendar.SamePeriod | statistics/tasks.py:357-394 | A date lies in the range of another if and only if both have the same range; every range contains its date |
| SaleCalendar.WeeksStartOnMonday | statistics/tasks.py:363-366 | The week of a date is the seven days from a Monday to a Sunday that contain it |
| SaleCalendar.FirstDay | statistics/tasks.py:363-366 | Day 1 of the count, a Monday, is the first of January of year 1 |
| SaleCalendar.MonthTable | statistics/tasks.py:367-372 | The days of a year before each month |
| SaleCalendar.MonthBorders | statistics/tasks.py:368-372 | A month goes from its first day to the day before the next month |
| SaleCalendar.QuarterBorders | statistics/tasks.py:373-390 | A quarter starts with January, April, July or October and ends with the day before the next one |
| SaleCalendar.YearBorders | statistics/tasks.py:392-394 | A year goes from its first of January to the day before the next one |
| SaleCalendar.OrdinalInjective | statistics/tasks.py:357-394 | Different dates have different day numbers |
| SaleCalendar.QuarterIsMonths | statistics/tasks.py:368-390 | The sum over a quarter is the sum over its three months |
| SaleCalendar.YearIsQuarters | statistics/tasks.py:373-393 | The sum over a year is the sum over its four quarters |
| SaleCalendar.DaySumUpdate | statistics/tasks.py:397-403 | A changed day moves the sums of the ranges that contain it, and no other |
| SaleCalendar.RefreshSpec | statistics/tasks.py:492-546 | One task brings its own period row up to date and leaves all others alone |
| SaleCalendar.RefreshIff | statistics/tasks.py:517-546 | The task's row is then up to date if and only if there was one, or the days have pieces, or they have nothing |
| CalendarQueue.SaveIsSound | statistics/models/models.py:191-197 | After a save every week and month row is right or its task is due |
| CalendarQueue.PerformIsSound | statistics/tasks.py:492-546 | A task keeps this, whichever of the due ones it is |
| CalendarQueue.WeeksAndMonthsAreExact | statistics/models/models.py:191-206 | In every run of saves and tasks in any order, whenever nothing is due all week and month rows are right |
| CalendarQueue.PerformQuarterIff | statistics/models/models.py:199-202 | No task changes whether a quarter is covered |
| CalendarQueue.PerformYearIff | statistics/models/models.py:199-202 | Nor whether a year is |
| CalendarQueue.SavedQuarterIff | statistics/models/models.py:191-202 | After a save its quarter is covered if and only if the save does not lose it: quarter row wrong, no task of it due, all month rows matching |
| CalendarQueue.SaveCoveredIff | statistics/models/models.py:191-202 | A save keeps every row covered if and only if it loses neither its quarter nor its year |
| CalendarQueue.CoverageDecides | statistics/tasks.py:492-546 | When the tasks have run out after a save, in whatever order, the row of a quarter or a year is right if and only if it was covered after that save |
| CalendarQueue.QuietIsUpToDate | statistics/models/models.py:191-206 | From empty tables, in every run whose saves lose nothing, all period rows are right whenever nothing is due |
| CalendarQueue.QuarterAddsUpIff | statistics/tasks.py:492-546 | In every run, whenever nothing is due, a quarter row is the sum of its month rows if and only if it is right |
| CalendarQueue.RowsAddUp | statistics/tasks.py:492-546 | In every run whose saves lose nothing, whenever nothing is due, quarter rows are the sums of their month rows and year rows those of their quarter rows and of their days |
| CalendarQueue.OneSaveAtATime | statistics/models/models.py:191-206 | A save into right tables with nothing due, then its tasks in any order, leaves all period rows right |
| CalendarQueue.SavedDayShows | statistics/tasks.py:492-546 | Such a save moves the rows of the periods of its day by the change of the day, and no other row |
| CalendarQueue.SerialLosesNothing | statistics/models/models.py:191-206 | Runs whose saves each find nothing due lose nothing |
| CalendarQueue.OvertakingSaveLosesIff | statistics/models/models.py:191-202 | A day is changed and changed back; if a task of another month updates the quarter in between, the last save loses the quarter if and only if the day had really changed |
| CalendarQueue.OvertakenQuarterIsStale | statistics/models/models.py:191-202 | In whatever order the remaining tasks run, the quarter row then stays wrong if and only if the day had really changed |
| CalendarQueue.StaleQuarterRun | statistics/models/models.py:191-202 | A whole run from empty tables, three saves and eight tasks, after which nothing is due and the quarter row is wrong |
| CalendarQueue.PerformLowersLoad | statistics/models/models.py:199-202 | A task makes due at most one task of a longer period, so the load of due tasks falls |
| CalendarQueue.PerformsEnd | statistics/tasks.py:492-546 | Without new saves a run of tasks has at most as many steps as the load at its start |
| SaleCalendar.QuarterRowIsMonthRows | statistics/tasks.py:492-546 | Over right month rows a quarter row is their sum if and only if it is right |
| SaleCalendar.YearRowIsQuarterRows | statistics/tasks.py:492-546 | Over right quarter rows a year row is their sum if and only if it is right |
| SaleCalendar.YearRowIsDays | statistics/tasks.py:492-546 | A year row is the sum of the 365 or 366 days of the year if and only if it is right |
| CalendarQueue.CalendarStore.UpdateAgg | statistics/tasks.py:492-546 | The stored row is created if it counts pieces, saved if it changes, and left alone otherwise |
| CalendarQueue.CalendarStore.SaveDaily | statistics/models/models.py:191-197 | Saving a day makes its week and month task due |
| CalendarQueue.CalendarStore.PerformJob | statistics/models/models.py:199-202 | One due task is performed, and the next longer period made due if it saved its row |
| Sqlite2Mysql.RemoveNewline | tools/sqlite2mysql.py:81-97 | The character loop encodes exactly the line breaks inside strings and returns the quote state |
| Sqlite2Mysql.NewlinePass | tools/sqlite2mysql.py:105-111 | Carrying the state from line to line encodes the lines as the one text they form |
| Sqlite2Mysql.ReplaceNewline | tools/sqlite2mysql.py:99-103 | Each line is decoded by two replacements |
| Sqlite2Mysql.Backticks | tools/sqlite2mysql.py:39-61 | A double quote outside strings becomes a backtick, every other character stays |
| Sqlite2Mysql.Process | tools/sqlite2mysql.py:63-79 | The preamble, then each line rewritten or dropped outside strings and re-quoted with the carried state |
| Sqlite2Mysql.MarkerRoundTrip | tools/sqlite2mysql.py:81-111 | Encoding, writing, reading by line and decoding returns the text if and only if it contains neither marker word |
| Sqlite2Mysql.NoMatchAcrossBorder | tools/sqlite2mysql.py:91-103 | No marker is found across the border of an inserted marker and the user's text |
| Sqlite2Mysql.BreaksAreOutside | tools/sqlite2mysql.py:89-95 | After the first pass every line break lies outside a string |
| Sqlite2Mysql.LinesEndOutside | tools/sqlite2mysql.py:105-111 | So every line but the last ends outside a string |
| Sqlite2Mysql.RewriteKeepsQuotes | tools/sqlite2mysql.py:27-36 | The six replacements keep the quote state at the end of any line |
| Sqlite2Mysql.StagesAreOnePass | tools/sqlite2mysql.py:27-36 | Replacing words one after the other is replacing all of them in one pass, if none can begin in another one or in what took its place |
| Sqlite2Mysql.RewriteIsOnePass | tools/sqlite2mysql.py:27-36 | So the six replacements are one pass over the line by the table of six words and their six replacements |
| Sqlite2Mysql.OtherLinesStay | tools/sqlite2mysql.py:27-36 | A line without any of the six words stays as it is |
| Sqlite2Mysql.OneWordReplaced | tools/sqlite2mysql.py:27-36 | A word that stands alone in a line is replaced by its own replacement, the rest of the line stays |
| Sqlite2Mysql.DroppedLines | tools/sqlite2mysql.py:19-29 | A line is dropped if and only if it begins with one of the five texts |
| Sqlite2Mysql.TickedAppend | tools/sqlite2mysql.py:72-79 | Re-quoting piece by piece with the carried state is one run over the whole text |
| Sqlite2Mysql.TickedAt | tools/sqlite2mysql.py:51-60 | The character at each place depends on the quote state in front of it |
| Sqlite2Mysql.LinesAreIndependent | tools/sqlite2mysql.py:72-79 | If all lines start outside strings the second pass treats each line on its own |
| Sqlite2Mysql.SecondPassStartsOutside | tools/sqlite2mysql.py:72-127 | After the first pass they do, for every dump |
| Sqlite2Mysql.Convert | tools/sqlite2mysql.py:113-129 | Both passes and the decoding chained, line by line |
| Sqlite2Mysql.LogicalLinesSpec | tools/sqlite2mysql.py:81-97 | The logical lines make up the dump, each but the last ends with a break outside strings, and all their other breaks lie inside |
| Sqlite2Mysql.OneLineEach | tools/sqlite2mysql.py:81-122 | The file between the passes has one line for each logical line, which is its encoding |
| Sqlite2Mysql.ReplaceEncoded | tools/sqlite2mysql.py:27-36 | Replacing in an encoded text is encoding the replaced text, for every word that no marker can touch |
| Sqlite2Mysql.RewriteEncoded | tools/sqlite2mysql.py:27-36 | So the six replacements do to an encoded line what they do to the line, and they create no marker word |
| Sqlite2Mysql.IgnoredEncoded | tools/sqlite2mysql.py:19-29 | An encoded line is dropped if and only if the line would be |
| Sqlite2Mysql.ConvertDump | tools/sqlite2mysql.py:113-129 | Every dump without marker words comes out as its logical lines, each dropped or else rewritten and re-quoted on its own |
| Sqlite2Mysql.ConvertPlainDump | tools/sqlite2mysql.py:113-129 | A dump whose logical lines need no rewriting comes out unchanged but for its backticks, multi-line strings included |
| OrmCache.BaseGetByPk | core/ormcache/queryset.py:31-65 | Where the cache is consulted the plain query can only find the row of the key |
| OrmCache.BaseGetFinds | core/ormcache/queryset.py:47-53 | The plain get finds a row if and only if it is the only one selected that meets the arguments |
| OrmCache.NegatedSelects | core/ormcache/queryset.py:37-45 | A negated queryset selects what the other does not |
| OrmCache.KeyOfArguments | core/ormcache/queryset.py:47-64 | Of several spellings of the primary key the first counts, in the order of the code; without any, and with deferred columns, the cache is not asked |
| OrmCache.GetAgrees | core/ormcache/queryset.py:25-80 | In a coherent state get agrees with the plain query if and only if it misses or the cached row meets all its arguments |
| OrmCache.GetByPk | core/ormcache/queryset.py:56-80 | get by primary key returns the stored row, or that there is none, whatever is cached |
| OrmCache.UpdateCoherentIff | core/ormcache/queryset.py:111-119 | An update keeps the cache coherent if and only if no changed cached row falls out of the selection |
| OrmCache.DisjointKeepsSelection | core/ormcache/queryset.py:111-119 | It does when no column it sets is one it filters on |
| OrmCache.StaleAfterUpdate | core/ormcache/queryset.py:111-119 | A row saved, read, and then updated in a column that the update also filters on: get goes on returning the old row |
| OrmCache.RunCoherentIff | core/ormcache/queryset.py:25-139 | The cache is coherent throughout a run if and only if no update lets a changed cached row fall out of its selection |
| OrmCache.RunKeepsCoherence | core/ormcache/queryset.py:25-139 | Every run of reads, saves, deletes, such updates and evictions keeps each entry equal to its row |
| OrmCache.CachedQuerySet.Get | core/ormcache/queryset.py:25-80 | The result and the new cache, for hit, miss, bypass and a cache that is down |
| OrmCache.CachedQuerySet.FromIds | core/ormcache/queryset.py:82-102 | The stored rows of the ids in their order, repeats kept, missing ids dropped, whatever was cached |
| OrmCache.CachedQuerySet.ReadThrough | core/ormcache/queryset.py:85-100 | The dictionary holds exactly the stored rows of the ids, and the missing ones are cached |
| OrmCache.CachedQuerySet.DropFromCache | core/ormcache/queryset.py:121-139 | One entry is removed and no other |
| OrmCache.CachedQuerySet.Save | core/ormcache/mixins.py:77-78 | Writing a row and its hook keep the cache coherent |
| OrmCache.CachedQuerySet.Delete | core/ormcache/mixins.py:80-81 | So do deleting and its hook |
| OrmCache.CachedQuerySet.Update | core/ormcache/queryset.py:111-119 | The ids are read after the write and invalidated one by one |
| WalletTables.Account.CreateLog | flashsale/pay/models/user.py:610-675 | A new log, the balance it moves and its two entries; a canceled one is refused and changes nothing |
| WalletTables.Account.ConfirmLog | flashsale/pay/models/user.py:740-779 | What confirming does for each direction, kind and former status |
| WalletTables.Account.ConfirmCharge | flashsale/pay/models/user.py:377-389 | A canceled payment is confirmed as if it were pending |
| WalletTables.Account.CancelLog | flashsale/pay/models/user.py:781-818 | What canceling gives back, for each direction, kind and status |
| WalletTables.Account.UpdateBudget | flashsale/pay/tasks.py:476-520 | The loop over the grouped totals sets the balance to what the logs say and books the difference |
| WalletTables.Account.CheckBudget | flashsale/pay/tasks.py:1013-1030 | The check compares the stored amount with what the logs say |
| WalletTables.SumRecords | flashsale/pay/tasks.py:482-490 | The loop adds up confirmed income and all outgoing totals |
| WalletTables.RecordsTotal | flashsale/pay/tasks.py:479-491 | The grouped totals add up to confirmed income and to non-canceled expense |
| Wallet.CreateBalance | flashsale/pay/models/user.py:617-641 | Creating keeps balance and logs in agreement, and fails if and only if the status is canceled |
| Wallet.CreatedLog | flashsale/pay/models/user.py:611-670 | The new log is the last one, with the direction, kind, amount and status asked for; the budget moves by exactly that amount or not at all, by direction and status |
| Wallet.ConfirmedLog | flashsale/pay/models/user.py:740-779 | Confirming changes the status and the balance of one log, and moves the budget by its amount or not at all |
| Wallet.CanceledLog | flashsale/pay/models/user.py:781-818 | So does canceling, which takes back what the log has counted for |
| Wallet.RevisedLog | flashsale/pay/models/user.py:819-828 | Only a pending income is revised, and only in its amount |
| Wallet.StepBalance | flashsale/pay/models/user.py:377-818 | Each operation keeps the agreement if and only if it is not the confirmation of a canceled outgoing payment |
| Wallet.ForgottenPayment | flashsale/pay/models/user.py:377-389 | A payment opened, canceled and confirmed in an empty wallet leaves it in agreement if and only if it was of nothing |
| Wallet.LogsShowLastBalance | flashsale/pay/models/user.py:657-817 | Over every run each log keeps the balance as it was right after the last operation that made it or changed its status |
| Wallet.RunBalance | flashsale/pay/tasks.py:476-520 | Over any run without that case the amount is confirmed income less non-canceled expense, and the check passes |
| Wallet.BalancedThroughoutIff | flashsale/pay/models/user.py:377-818 | Balance and logs agree throughout a run if and only if that case does not occur in it |
| Wallet.TaskRepairs | flashsale/pay/tasks.py:501-520 | From any balance the task restores the agreement and books the difference; run again it does nothing; an agreeing budget is left alone |
| Wallet.TasksTelescope | flashsale/pay/tasks.py:509-516 | The signed purse entries of all tasks add up to the last amount less the first |
| WalletBook.StepBooked | flashsale/pay/models/user.py:610-818 | Each operation keeps the book's pending and paid cash-outs and rebates equal to those of the logs, and the book at zero |
| WalletBook.RunBooked | flashsale/pay/models/user.py:610-818 | So does every run, the forgetful confirmation included |
| WalletBook.StepBooks | flashsale/pay/models/user.py:622-818 | What each operation books on each of the seven subjects but the purse |
| WalletBook.RunBooks | flashsale/pay/models/user.py:622-818 | Over every run each of them holds the sum of what the operations are to book on it |
| WalletBook.PurseFollows | flashsale/pay/models/user.py:638-818 | The book's purse moves with the balance if and only if the operation is not one that has no entry |
| MultiUpdate.TwoUpdatesAreOne | core/models.py:97-106 | Two updates of disjoint keys are one, though the condition is read again after the first |
| MultiUpdate.Table.MultiUpdate | core/models.py:76-106 | The batches leave the table as one update with the first twenty million keys; no keys is an error |
| MultiUpdate.WholeUpdateIff | core/models.py:79-96 | That is the whole update if and only if no key behind the limit would change a row; always with at most that many |
| IdCard.VerifyIsStandard | core/ocr/idcard.py:17-19 | An eighteen-character number passes if and only if it meets the recursive method of ISO 7064 MOD 11-2 |
| IdCard.WeightIsPower | core/ocr/idcard.py:18 | The seventeen weights are the powers of two modulo 11 |
| IdCard.VerifyLength | core/ocr/idcard.py:19 | Shorter numbers fail; longer ones are judged by seventeen characters and their last |
| IdCard.WrongDigitIsFound | core/ocr/idcard.py:17-19 | Changing any one body digit is found |
| IdCard.WrongCheckIsFound | core/ocr/idcard.py:17-19 | Changing the check character is found |
| IdCard.SwapIsFoundIff | core/ocr/idcard.py:17-19 | Swapping two body digits is found if and only if they differ and do not stand ten places apart |
| Cards.LeftSpec | flashsale/promotion/tasks_activity.py:45-47 | The removals succeed if and only if the hand has no doubles, and leave exactly the missing cards |
| Cards.GenPairSpec | flashsale/promotion/tasks_activity.py:35-48 | A draw raises if and only if a card is drawn to a hand with doubles; a card drawn is a missing one |
| Cards.GenEnvelopeTypeValuePair | flashsale/promotion/tasks_activity.py:35-48 | The removing loop and the draw |
| Cards.InviterIsGiven | flashsale/promotion/tasks_activity.py:74-84 | The inviter is given a single envelope: a missing card if a card is drawn and there are fewer than nine, and cash of a listed amount otherwise |
| Cards.CustomerIsGiven | flashsale/promotion/tasks_activity.py:86-95 | The customer is given card 1, once for each event |
| Cards.EnvelopeTables.GenerateRedEnvelope | flashsale/promotion/tasks_activity.py:54-95 | The inviter's envelope, then card 1 for the own activation, each once; an exception leaves both out |
| Cards.ActivateDoublesIff | flashsale/promotion/tasks_activity.py:75-93 | An activation brings doubles if and only if card 1 is new and its owner already holds one or draws one in the same call |
| Cards.InvitedFirst | flashsale/promotion/tasks_activity.py:75-93 | Two activations after which a customer holds card 1 twice and the next card drawn for a friend raises |
| Cards.DoublesStay | flashsale/promotion/tasks_activity.py:45-47 | Over every run a hand with doubles keeps them; an invitation by that customer raises if and only if a card is drawn, the friend is new and there are fewer than nine cards |
| Cards.ActivateInOrder | flashsale/promotion/tasks_activity.py:54-95 | With inviters activated before, nothing raises and no hand has doubles |
| Cards.NineAreAll | flashsale/promotion/tasks_activity.py:177-179 | A hand without doubles has at most nine cards, and nine are all |
| Cards.RunTidy | flashsale/promotion/tasks_activity.py:45-93 | Over every run, of all events and in any order, no hand has doubles but of card 1, and that at most twice |
| Cards.WinnerHoldsAllIff | flashsale/promotion/tasks_activity.py:176-194 | After every run, whoever is recorded next holds all nine cards of the event if and only if card 1 and eight others of it are opened; within a single event that fails if and only if just nine are opened and card 1 is there twice |
| Cards.StepWinnersIff | flashsale/promotion/tasks_activity.py:54-194 | All winners hold all nine cards after an operation if and only if it does not record somebody without card 1 or eight others |
| Cards.RunWinnersIff | flashsale/promotion/tasks_activity.py:54-194 | They do throughout a run if and only if no operation of it does so |
| Cards.OneEventWinner | flashsale/promotion/tasks_activity.py:75-194 | A whole run within one event: eight friends invited before the own activation, cards 1 to 8 and card 1 again, recorded without card 9 |
| Cards.TwoEventsMakeWinner | flashsale/promotion/tasks_activity.py:177 | A whole run: m cards of one event and n of another, n below nine but nine together, record a winner of the second with n cards, without doubles |
| Cards.EnvelopeTables.DecideAwardWinner | flashsale/promotion/tasks_activity.py:176-194 | A winner is recorded for nine opened cards, once for each event |
| Cards.RunKeepsInvariant | flashsale/promotion/tasks_activity.py:35-194 | In every run of one event in that order no draw raises, no hand has doubles, and every winner holds all nine cards and is recorded once |
| Fans.UpdateKeeps | flashsale/promotion/tasks_activity.py:248-300 | One record for each fan, nobody's own fan, each record founded on the referrer as mama or on an older record |
| Fans.BindKeeps | flashsale/xiaolumm/models/models_fans.py:57-71 | Binding a fan by hand keeps this too |
| Fans.UpdateFields | flashsale/promotion/tasks_activity.py:275-300 | The record names fan and referrer, and the referrer as mama or the mama of the referrer's first record |
| Fans.BindFields | flashsale/xiaolumm/models/models_fans.py:57-71 | Who is refused by hand, and the record of who is not |
| Fans.RunKeepsInvariant | flashsale/promotion/tasks_activity.py:248-300 | The invariant holds over every run, whatever accounts the referrers have at each moment |
| Fans.FollowEndsAtMama | flashsale/promotion/tasks_activity.py:275-287 | Following the referrers of a fan passes the stored mama, after at most one step more than there are older records |
| FanWalks.EndsAtIff | flashsale/promotion/tasks_activity.py:275-287 | Whether and where the walk along the referrers ends is seen after as many steps as there are records |
| FanWalks.StepEndsIff | flashsale/promotion/tasks_activity.py:248-300 | After an update or a binding all walks end if and only if they did before and it makes no record whose referrer's walk arrives at the fan |
| FanWalks.RunEndsIff | flashsale/promotion/tasks_activity.py:248-300 | After a run all walks end if and only if they did before and none of its operations closed a circle |
| FanWalks.CircleOfTwo | flashsale/promotion/tasks_activity.py:248-300 | By two updates two mamas become each other's fan, which closes a circle, though each record is founded |
| FanWalks.RuleStepIff | flashsale/promotion/tasks_activity.py:248-300 | No mama is a fan after an operation if and only if it is no referral of a mama that all of the task's tests let pass, and no account opened for a fan |
| FanWalks.RuleThroughoutIff | flashsale/promotion/tasks_activity.py:248-300 | The rule holds throughout a run if and only if no operation of it breaks it |
| Fans.FanTable.UpdateFans | flashsale/promotion/tasks_activity.py:248-300 | The task adds the record that is due, or none |
| Commission.RebateTables.WriteLine | flashsale/clickrebeta/models.py:147-164 | Saving an existing line sums up its order with the loop over normal lines, and saves it |
| Commission.RebateTables.WriteOrder | flashsale/clickrebeta/models.py:217-239 | Saving an order overwrites its agent's row of the day, if there is one, with the aggregate |
| Commission.SaveLineSpec | flashsale/clickrebeta/models.py:147-164 | The order's totals equal the sums over its non-refunded lines; finished if and only if no line waits; the day's row is fresh; other orders stay |
| Commission.OrderSumsSnoc | flashsale/clickrebeta/models.py:151-160 | One more line adds its amount and its commission to what its order is to hold, unless it is refunded |
| Commission.NewLineCountsIff | flashsale/clickrebeta/models.py:149-150 | A new line leaves the totals right if and only if it counts for nothing |
| Commission.MovedLineIff | flashsale/clickrebeta/models.py:147-164 | A line that changes its order leaves the totals of the one it left right if and only if it counted for nothing and does not leave only finished lines behind |
| Commission.RunKeepsFresh | flashsale/clickrebeta/models.py:147-239 | Over every run of saves each existing day row equals the fresh aggregate |
| Commission.DayRowSnoc | flashsale/clickrebeta/models.py:226-236 | One more order adds one order, its price, its commission and perhaps a buyer to the row of its agent and day, if it is not refunded and not too late, and nothing otherwise |
| Commission.MovedOrderStaleIff | flashsale/clickrebeta/models.py:219-222 | An order that moves to another agent or day leaves a wrong row if and only if it was counted |
| Commission.CountsAllIff | flashsale/clickrebeta/models.py:227-232 | A row counts all orders of its day if and only if none falls behind 23:59:59 |
| Bills.CheckMerge | flashsale/finance/models.py:90-101 | Which error is raised for which bills, and none if and only if all four tests pass |
| Bills.BillTables.MergeBills | flashsale/finance/models.py:103-127 | The loops build the net bill and merge each bill into it |
| Bills.BillTables.MergeTo | flashsale/finance/models.py:129-138 | The bill's relations are moved and the bill is void |
| Bills.BillTables.SplitBill | flashsale/finance/models.py:139-152 | A copy with part of the amount; the bill keeps the rest |
| Bills.MergeConserves | flashsale/finance/models.py:103-138 | A merge changes the sum of type times plan over all bills by exactly what the list names again, so by nothing if it has no repeats, net zero included; it voids every input and changes no other bill |
| Bills.MergedFields | flashsale/finance/models.py:104-138 | The new bill is pending if and only if an input was pending or delayed; its supplier, method, type and amounts; of the inputs only the type changes |
| Bills.MergeRelationsSpec | flashsale/finance/models.py:129-136 | Each target of the merged bills is on the new bill exactly once, nothing else is, and old relations stay |
| Bills.MergedTargetsStay | flashsale/finance/models.py:129-136 | So it is after every further run of merges and splits |
| Bills.MergeLiveAmountIff | flashsale/finance/models.py:112-124 | The amounts of live bills keep their sum if and only if the inputs' amounts add up to zero |
| Bills.SplitTotals | flashsale/finance/models.py:139-152 | A split keeps the sum of the amounts and adds the plan once more |
| Bills.SplitFields | flashsale/finance/models.py:139-152 | The copy is like the bill but for the amount, which is taken off the bill; nothing else changes |
| Bills.SplitBalanceIff | flashsale/finance/models.py:140-146 | So it keeps the balance if and only if the bill has no part in it |
| Bills.RunConserves | flashsale/finance/models.py:103-152 | Over any run the amounts keep their sum and the balance moves by what the splits copy |
| Districts.PathBound | flashsale/pay/services.py:18-29 | No path from the root is longer than the table, so the recursion ends for any parents |
| Districts.OnePath | flashsale/pay/services.py:31-36 | There is at most one path to a district |
| Districts.ForestListsReachable | flashsale/pay/services.py:31-39 | The forest lists each district that can be reached from 0 exactly once and nothing else, below its own parent, siblings in query order |
| Districts.KidsInOrder | flashsale/pay/services.py:31-37 | Of two children the one that the query lists first comes first |
| Districts.GroupByParent | flashsale/pay/services.py:35-37 | The loop groups the districts by parent and keeps their order |
| Districts.AppendChildren | flashsale/pay/services.py:18-29 | The recursion builds the tree below the end of a path, and ends |
| Districts.GetDistrictJsonData | flashsale/pay/services.py:31-39 | The forest below the root, without repeats |

## Left out

- expat, XMLGenerator and encodings: the model starts and ends at SAX events.
- Namespaces, pre- and postprocessors, `force_cdata`, other prefixes and keys than the defaults.
- XmlEmit.SortEntries: attribute values and character data that are no strings; XMLGenerator prints or refuses them by their type.
- XmlEmit.Emit: lists directly inside lists, which Python prints by their `unicode` text.
- XmlEmit.EmitSingle: values that hold such lists or attribute values.
- XmlEmit.Unparse: values that hold such lists or attribute values.
- `core/utils/xmltodict.py` repeats the XML file.
- XmlHandler.DictSAXHandler.Close: dictionaries are values, so a callback that keeps and changes the item it was given is not modelled.
- Statistics: names, pictures, weekly and snapshot rows outside the daily table, `create_snapshot_record`,
  the tags of the period totals. Payments are whole cents.
- SaleStats.RunKeepsInvariant: records have no money without pieces; `SaleStats.WriteRowIff` says what happens to a total that has. SaleCalendar asks the same of the days (`SaleCalendar.RefreshIff`).
- SaleStats.AddKeepsInvariant: a record has no money without pieces.
- CalendarQueue.SaveIsSound: a day has no money without pieces; the same holds of all runs of that module.
- SaleStats.CascadeIsExact: the catalogue is fixed during a run, as a product that changes its model or buyer would move sums that no task recomputes.
- CalendarQueue.WeeksAndMonthsAreExact: daily rows of one id, type and status below the total level; for the total level the key is a tag, and `%W` gives one week two tags across New Year.
- Sqlite2Mysql.Convert: the trailing space logic of `print line,` and the options' parsing are not modelled.
- OrmCache.RunKeepsCoherence: each operation is atomic; a miss followed by a late `cache.set` of another process is not modelled. md5 is taken to be injective, and `from_ids` is modelled with its default lookup on an unfiltered queryset.
- WalletTables.Account.CreateLog: one customer; uniqueness of `uni_key` and dates are left out, and all account subjects are taken to exist, as `AccountEntry.create` silently writes nothing for a missing one.
- WalletTables.Account.UpdateBudget: the unfreezing of coupons before the sums are stored is left out, and the customer is taken to exist.
- MultiUpdate.Table.MultiUpdate: key and value column are different columns, and the statement text is not modelled.
- IdCard.Verify: only the ASCII digits are digits.
- Cards.EnvelopeTables.GenerateRedEnvelope: the joined keys are taken to be injective, draws are arguments, pushes are left out.
- Fans.FanTable.UpdateFans: how customer and referrer are looked up, and `change_mama`, which gives a fan another mama without a new referrer.
- Commission.RebateTables.WriteLine: a line always has an order; day rows are made elsewhere, so rows are only updated.
- Bills.BillTables.MergeBills: names, notes, accounts, attachments and creators; money is cents where the code has floats.
- Districts.AppendChildren: a leaf is a node without children instead of one without the `childs` key; names and codes are left out. Ids are unique and not 0, as an auto-incremented key is.
- `tasks_update_sale_trade_status` and the integral tasks, `refund_rebeta_takeoff`, the `tongji_*` functions:
  they depend on models that are not part of this model.
- Views, serializers, settings, logistics, push, SMS and identity-card recognition.
