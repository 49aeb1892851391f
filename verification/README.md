# A verified model of TinyObs

TinyObs is a small metrics server: clients batch metrics and histograms, an ingest handler guards
cardinality, two stores keep the samples, a compactor folds them to five minutes and then to hours,
and a PromQL-like language queries them.  This project models the parts whose correctness is not
settled by reading one function, and proves what they are for:

- **Query language** (`Tokens`, `Lexer`, `LexerRoundTrip`, `Ast`, `Duration`, `Parser`,
  `ParserRoundTrip`, `Precedence`, `QueryRoundTrip`): the byte cursor and the two-token
  recursive-descent parser are classes that change their fields, proved to compute functions on
  positions and token lists.  Rendering and lexing, printing and parsing, and text and trees are
  inverse; parsing ends on every input and consumes each token at most once, and operators bind in
  their order.
- **Stores** (`Metrics`, `Calendar`, `SeriesKeys`, `MemoryStorage`, `BadgerKey`, `BadgerStorage`):
  the text keys of series and what they determine, the appending store as reference, the key codec
  with its 16-bit offsets, and the keyed store, whose prefix scans and deletions agree with the
  reference on its contents.
- **Compaction** (`FixedPoint`, `Aggregates`, `Compactor`, `Statistics`, `CompactionLaws`,
  `CompactionRuns`, `LateRuns`, `Cleanup`, `KeyedCompaction`, `Collision`): the folds, what their
  buckets hold, their order independence, the fold homomorphism from five minutes to hours with its
  rounding error, runs interleaved with writes as a state machine, and idempotence on the keyed
  store.
- **Query execution** (`Values`, `Selection`, `Rates`, `Grouping`, `Aggregation`, `Scalar`,
  `Execution`, `Arithmetic`): the sliding window of `rate` against the search it replaces, grouping
  as a partition, the laws of nested aggregation, and the execution of whole trees on either store,
  on results that are changed and closed in place, with values in real arithmetic.
- **Client and server edges** (`Batcher`, `Cardinality`, `Ingest`, `Overshoot`, `Downsample`,
  `Histogram`): the lock and compare-and-swap protocol over all interleavings, the counters that
  over-approximate a set, chart downsampling, and histogram buckets.

`Decimal`, `Strings`, `Collections`, `Options`, `Integers` and `Instants` hold what several of these
share.  Instants are UTC nanoseconds, sample values are reals, text is a sequence of bytes written
as characters below 256, and the series hash is a parameter.

Where the code falls short of its documentation, the model follows the code and theorems say
when:

- compaction twice over a range is compaction once on the keyed store, unless groups of samples
  whose labels differ in metadata alone are written alike with different averages
  (`KeyedCompaction.RawTwiceExactly`, `Collision.SecondRunChanges`); on the appending store it is so
  only when there is nothing to fold (`KeyedCompaction.AppendingTwice`);
- samples are counted once in the aggregates until a deletion leaves one exactly on the cutoff or a
  run gives up between writing and deleting (`CompactionRuns.Conservation`), and when runs lie far
  apart a deletion loses those that no run has folded (`LateRuns.LostExactly`);
- downsampling returns at most the wanted number of points if and only if that number divides the
  number given (`Downsampling.WantedNumber`);
- a full buffer is left waiting if and only if an Add lost its compare-and-swap at a full buffer
  that has not been emptied since (`Batching.QuietButFull`);
- the cardinality limits hold to within one request while no cleanup drops a series that an earlier
  check of the same request let pass as seen (`Ingest.ServedWithin`), and otherwise need not
  (`Overshoot.MovingClockOvershoots`); counts cover a name's series if and only if it has no comma
  (`Cardinality.CoveredExactly`);
- flushing a histogram panics if and only if unlabelled observations are pending
  (`Histograms.PanicsExactly`), and its `+Inf` bucket is complete if and only if nothing is above
  ten seconds (`Histograms.LastBucketIsAll`);
- storage keys read back if and only if the name has at most 65517 bytes (`BadgerKey.KeyRoundTrips`)
  and the nanoseconds fit int64 (`BadgerKey.InstantRoundTrips`), and series keys are unique only for
  unlabelled series without a comma and later an equals sign in the name
  (`SeriesKeys.SharedExactly`);
- lexing panics if and only if the text ends in a backslash inside a string
  (`Lexing.PanicsExactlyOnDanglingEscape`);
- operators bind in their order where all parentheses are closed (`Precedence.TreeIsWellBound`); one
  left open at the end of a query is forgotten (`Precedence.UnclosedExactly`).

`dafny verify dfyconfig.toml` checks the whole project.

## Model

| member | source | states |
|---|---|---|
| Durations.ParseDuration | pkg/query/parser.go:374-404 | the digit loop and the unit switch compute the value in wrapping 64-bit arithmetic |
| Durations.DigitsWrapped | pkg/query/parser.go:379-385 | the digit loop yields the decimal value of the leading digits modulo 2^64 and stops behind them, however many digits there are |
| Durations.ParseNumberAndUnit | pkg/query/parser.go:374-404 | a number with a unit parses to its exact product if and only if the product is below 2^63 nanoseconds |
| Durations.UnitsDenote | pkg/query/parser.go:387-402 | a number with s, m, h, d, w or y denotes that many times 1, 60, 3600, 86400, 604800 or 31536000 thousand million nanoseconds, below 2^63 |
| Durations.NoUnit | pkg/query/parser.go:400-402 | text that does not end in one of the six units after its digits denotes nothing |
| Lexing.Next | pkg/query/lexer.go:43-145 | every call moves on by at least one byte, and from the end of the input on it yields end of input |
| Lexing.StringOverruns | pkg/query/lexer.go:211-224 | the scan of a string body passes the end of the input if and only if the text is unterminated and ends in a backslash that escapes nothing |
| Lexing.PanicsExactlyOnDanglingEscape | pkg/query/lexer.go:211-224 | a call slices out of range if and only if the next token is such a string |
| Lexing.NeverPanics | pkg/query/lexer.go:43-224 | a query that does not end in a backslash is lexed without a slice out of range, however many tokens are pulled |
| Lexing.SymbolsRead | pkg/query/lexer.go:50-78 | each of the fourteen symbols reads as its token, which is one byte long |
| Lexing.OperatorsRead | pkg/query/lexer.go:79-118 | the six operators of two bytes read as such, and `=`, `<` and `>` alone otherwise |
| Lexing.BlanksSkipped | pkg/query/lexer.go:148-159 | any run of blanks, tabs and line ends between tokens plays no part |
| Lexing.CommentSkipped | pkg/query/lexer.go:148-159 | a comment from a hash to the end of its line plays none either |
| Tokens.AggregationsRead | pkg/query/lexer.go:237-270 | the words sum, avg, max, min and count name their aggregations, in whatever case |
| Tokens.ClausesRead | pkg/query/lexer.go:237-270 | the words by, without, and, or and unless are read as such, in whatever case |
| Tokens.LowerExactly | pkg/query/lexer.go:266 | the case of the letters A to Z alone is dropped |
| Lexing.Lexer.constructor | pkg/query/lexer.go:17-21 | the cursor starts on the first byte |
| Lexing.Lexer.ReadChar | pkg/query/lexer.go:24-32 | moves the cursor one byte and keeps `ch` the byte under it, 0 past the end |
| Lexing.Lexer.SkipWhitespace | pkg/query/lexer.go:148-159 | stops exactly behind the blanks and comments, whose nesting is a recursive call in the source |
| Lexing.Lexer.ReadIdentifier | pkg/query/lexer.go:162-168 | returns the longest identifier at the cursor and stops behind it |
| Lexing.Lexer.ReadNumber | pkg/query/lexer.go:171-199 | returns digits, optional fraction and optional exponent and stops behind them |
| Lexing.Lexer.ReadDurationUnit | pkg/query/lexer.go:202-208 | returns the letters at the cursor and stops behind them |
| Lexing.Lexer.ReadString | pkg/query/lexer.go:211-224 | stops on the closing quote or at the end; the slice is out of range exactly when the scan went past the end |
| Lexing.Lexer.ReadOperator | pkg/query/lexer.go:79-118 | one- and two-byte operators, the cursor left on the last byte |
| Lexing.Lexer.ReadToken | pkg/query/lexer.go:50-144 | the switch computes the token function at the cursor, with its literal, the position after it and whether it panics |
| Lexing.Lexer.NextToken | pkg/query/lexer.go:43-145 | the cursor machine computes the same token and next position as the function on positions |
| LexerRoundTrip.NextText | pkg/query/lexer.go:43-145 | any renderable token followed by a space is read back with its type and literal |
| LexerRoundTrip.LexRender | pkg/query/lexer.go:43-224 | lexing the space-separated rendering of any list of renderable tokens returns exactly that list, then end of input |
| LexerRoundTrip.RenderNeverPanics | pkg/query/lexer.go:211-224 | no call on a rendering slices out of range |
| LexerRoundTrip.RenderInjective | pkg/query/lexer.go:43-224 | two renderable token lists with the same text are the same list |
| Parsing.ParseLevel | pkg/query/parser.go:46-154 | for every token list the level ends with a suffix of it: tokens are consumed in order, each at most once, never past the end; terminates by tokens left, then level |
| Parsing.ParseRight | pkg/query/parser.go:47-142 | the operator loop of a level leaves a suffix of the tokens |
| Parsing.ParsePrimary | pkg/query/parser.go:157-172 | a primary leaves a suffix of the tokens, also where it consumes nothing |
| Parsing.ParseArguments | pkg/query/parser.go:288-308 | the argument loop ends on every token list, malformed ones included, with a suffix of it |
| Parsing.ParseMatchers | pkg/query/parser.go:225-266 | the matcher loop leaves a suffix of the tokens at each of its breaks |
| Parsing.ParseLabels | pkg/query/parser.go:340-360 | the label loop leaves a suffix of the tokens |
| Parsing.ParseAggregation | pkg/query/parser.go:311-337 | an aggregation leaves a suffix of the tokens |
| Parsing.Parser.constructor | pkg/query/parser.go:17-23 | after two pulls `current`, `peek` and the lexer's position hold the whole token stream of the query |
| Parsing.Parser.NextToken | pkg/query/parser.go:35-38 | one token fewer is left, and tokens pulled plus tokens left stay constant |
| Parsing.Parser.Parse | pkg/query/parser.go:26-32 | reports the tree, the literal of a leftover token, or the lexer's panic |
| Parsing.Parser.ParseExpression | pkg/query/parser.go:42-44 | computes the loosest level on the tokens left, keeping pulled plus left constant |
| Parsing.Parser.ParseOrExpression | pkg/query/parser.go:47-58 | the left-associative loop computes its level on the tokens left |
| Parsing.Parser.ParseAndExpression | pkg/query/parser.go:61-72 | the left-associative loop computes its level on the tokens left |
| Parsing.Parser.ParseUnlessExpression | pkg/query/parser.go:75-86 | the left-associative loop computes its level on the tokens left |
| Parsing.Parser.ParseComparisonExpression | pkg/query/parser.go:89-100 | at most one operator; computes its level on the tokens left |
| Parsing.Parser.ParseAdditiveExpression | pkg/query/parser.go:103-114 | the left-associative loop computes its level on the tokens left |
| Parsing.Parser.ParseMultiplicativeExpression | pkg/query/parser.go:117-128 | the left-associative loop computes its level on the tokens left |
| Parsing.Parser.ParsePowerExpression | pkg/query/parser.go:131-142 | recursion on the right; computes its level on the tokens left |
| Parsing.Parser.ParseUnaryExpression | pkg/query/parser.go:145-154 | nested signs; computes its level on the tokens left |
| Parsing.Parser.ParsePrimaryExpression | pkg/query/parser.go:157-172 | dispatch on the token, with the dummy zero that consumes nothing |
| Parsing.Parser.ParseParenExpression | pkg/query/parser.go:182-191 | a missing closing parenthesis yields the inner tree without a ParenExpr |
| Parsing.Parser.ParseVectorOrFunction | pkg/query/parser.go:194-205 | a call or a selector, by the token after the name |
| Parsing.Parser.ParseSelector | pkg/query/parser.go:208-222 | optional matchers, then an optional range |
| Parsing.Parser.ParseLabelMatchers | pkg/query/parser.go:225-266 | the loop with its three breaks computes the matcher function |
| Parsing.Parser.ParseRangeSelector | pkg/query/parser.go:269-285 | a range, or the plain selector when no duration follows |
| Parsing.Parser.ParseFunctionCall | pkg/query/parser.go:288-308 | the argument loop computes the argument function and skips the closing parenthesis |
| Parsing.Parser.ParseAggregationExpression | pkg/query/parser.go:311-337 | keyword, optional grouping, optional operand |
| Parsing.Parser.ParseGroupingClause | pkg/query/parser.go:317-325 | the optional `by` or `without` clause |
| Parsing.Parser.ParseAggregatedExpression | pkg/query/parser.go:328-334 | the optional parenthesised operand, absent when no parenthesis follows |
| Parsing.Parser.ParseGroupingLabels | pkg/query/parser.go:340-360 | the label loop computes the label function and skips the closing parenthesis |
| Parsing.ParseQuery | pkg/query/parser.go:17-32 | parsing a text gives what the level functions make of its token stream |
| ParserRoundTrip.LevelBack | pkg/query/parser.go:46-154 | at every level, parsing the printed tokens of a tree of that level in front of any token that does not join it gives the tree back and leaves the rest |
| ParserRoundTrip.SpineBack | pkg/query/parser.go:47-128 | at a left-associative level the printed tokens lead the loop to the tree whatever operator of the level follows |
| ParserRoundTrip.OperandBack | pkg/query/parser.go:89-142 | the same for the non-associative comparison and the right-associative power level |
| ParserRoundTrip.PrimaryBack | pkg/query/parser.go:157-337 | the same for selectors, calls, aggregations, numbers and parentheses |
| ParserRoundTrip.ArgumentsBack | pkg/query/parser.go:288-308 | printed arguments parse back to the list of arguments |
| ParserRoundTrip.BracesBack | pkg/query/parser.go:225-266 | printed label matchers parse back to the matchers |
| ParserRoundTrip.RangeBack | pkg/query/parser.go:269-285 | a printed range parses back to the selector and its duration, through the duration parser |
| ParserRoundTrip.GroupingBack | pkg/query/parser.go:317-325 | a printed grouping clause parses back to its labels and kind |
| ParserRoundTrip.ParsePrinted | pkg/query/parser.go:26-360 | printing any grammar tree without added parentheses and parsing it gives exactly the tree and leaves no token |
| ParserRoundTrip.PrintInjective | pkg/query/parser.go:26-360 | no two grammar trees print alike |
| Precedence.TreeIsWellBound | pkg/query/parser.go:42-360 | for every token list, where the tokens of the tree close all the parentheses they open: every operand without parentheses binds tighter than its operator, or equally on the side to which it associates, in the order or, and, unless, comparisons, + -, * / %, ^; a sign has no binary operand |
| Precedence.QueryIsWellBound | pkg/query/parser.go:26-32 | the same for every query that parses and holds as many closing as opening parentheses |
| Precedence.UnclosedExactly | pkg/query/parser.go:182-191 | a parenthesis left open at the end is accepted and forgotten: `n op ( x` parses to a tree whose operand fits if and only if x would fit without the parenthesis |
| Precedence.ShapeIs | pkg/query/parser.go:42-360 | the trees of the grammar are exactly the well-bound ones with proper leaves |
| Precedence.WellBoundParses | pkg/query/parser.go:42-360 | every such tree is what its printed tokens parse to |
| Precedence.ClauseSays | pkg/query/parser.go:317-325 | a grouping clause drops its labels if and only if it says `without` |
| Precedence.EmptyIsZero | pkg/query/parser.go:169-171 | a query without a token parses to the number zero |
| QueryRoundTrip.PrintRenderable | pkg/query/parser.go:26-360 | every token of a printed tree is one the lexer reads back |
| QueryRoundTrip.ParseQueryText | pkg/query/parser.go:17-404 | parsing the rendered text of a grammar tree succeeds with exactly that tree, range durations included |
| QueryRoundTrip.QueryTextInjective | pkg/query/parser.go:17-404 | distinct grammar trees have distinct texts |
| Strings.Sort | pkg/storage/badger/badger.go:611-615 | insertion sort of distinct keys gives the one ascending list of their set |
| Strings.SortedList | pkg/storage/badger/badger.go:611-615 | whatever order the map is ranged over, the sorted key list is the same |
| SeriesKeys.SeriesKeyString | pkg/storage/badger/badger.go:605-623 | the key is the name followed by the labels in key order |
| SeriesKeys.ParseSeriesKey | pkg/storage/badger/badger.go:605-623 | from names and labels without separators the key can be read back to the name and the label map |
| SeriesKeys.SeriesKeyInjective | pkg/storage/badger/badger.go:605-623 | two separator-free series have the same key if and only if name and labels agree |
| SeriesKeys.SharedExactly | pkg/storage/badger/badger.go:605-623 | some other series has the key of a series if and only if the series has labels or its name holds a comma and later an equals sign |
| SeriesKeys.IngestSeriesKey | pkg/ingest/cardinality.go:191-219 | the ingest key leaves out labels that start with an underscore |
| SeriesKeys.UserLabelsAre | pkg/ingest/cardinality.go:200-208 | exactly the labels that do not start with an underscore count, with their values |
| SeriesKeys.IngestKeyInjective | pkg/ingest/cardinality.go:191-219 | ingest keys agree if and only if names and labels without underscore agree |
| SeriesKeys.IngestKeyName | pkg/ingest/cardinality.go:143-147 | what stands before the first comma of an ingest key is the name, when that has no comma |
| SeriesKeys.LabelKeyInjective | pkg/query/executor.go:633-646 | executor keys agree if and only if the label sets do |
| Calendar.DateOf | pkg/compaction/compactor.go:260-261 | the date of an instant: a day of a month of the Gregorian calendar, with exactly that many days from 1970 up to it |
| Calendar.MonthsFormula | pkg/compaction/compactor.go:260-261 | the days before a month are those of the usual formula (153 m + 2) / 5, counted from March |
| Calendar.YearsFormula | pkg/compaction/compactor.go:260-261 | the days before a year are 365 for each plus the leap days: every fourth year but of the centuries only every fourth |
| Calendar.Rfc3339Injective | pkg/compaction/compactor.go:260-261 | the RFC 3339 text of a bucket time determines its second, in any year |
| SeriesKeys.AggregateKeyString | pkg/compaction/compactor.go:260-277 | the aggregate key is the series key with the bucket time in RFC 3339 form in the name |
| SeriesKeys.AggregateKeyInjective | pkg/compaction/compactor.go:260-277 | aggregate keys agree if and only if name, labels and bucket time do |
| FixedPoint.Rounded | pkg/compaction/types.go:51-54 | the number `%f` writes is within half a millionth of the value |
| FixedPoint.RoundedExact | pkg/compaction/types.go:51-54 | whole millionths are written exactly |
| FixedPoint.ScanFormat | pkg/compaction/types.go:87-98 | scanning a written float gives the rounded number, for every real |
| FixedPoint.ScanDigits | pkg/compaction/types.go:52-90 | a count below 2^64 is read back exactly |
| Aggregates.EncodeAggregate | pkg/compaction/types.go:41-63 | the label loop and the metadata assignments build the encoded metric |
| Aggregates.DecodeAggregate | pkg/compaction/types.go:75-118 | the scans and the label loop decode a metric, or report none where a scan fails |
| Aggregates.DecodeEncode | pkg/compaction/types.go:41-118 | decoding an encoded aggregate keeps name, timestamp, resolution and count, drops exactly the labels that are empty or start with an underscore, and rounds sum, minimum and maximum to millionths |
| Aggregates.LabelsSurvive | pkg/compaction/types.go:100-106 | all labels survive if and only if none is empty or starts with an underscore |
| Aggregates.DecodeEncodeExact | pkg/compaction/types.go:41-118 | an aggregate in whole millionths with user labels comes back unchanged |
| MemoryStorage.Storage.Write | pkg/storage/memory/memory.go:38-58 | appends the whole batch, or refuses it and changes nothing when the capacity would be exceeded |
| MemoryStorage.Storage.Query | pkg/storage/memory/memory.go:61-110 | returns the matching metrics in order, cut at the limit |
| MemoryStorage.Storage.Delete | pkg/storage/memory/memory.go:113-144 | keeps in order exactly the metrics whose time is not before the given one and, when a resolution is given, those that carry another |
| MemoryStorage.LimitCuts | pkg/storage/memory/memory.go:103-106 | a limit cuts the answer to its first metrics, and zero is none |
| MemoryStorage.SelectCounts | pkg/storage/memory/memory.go:61-110 | a selection holds each matching metric as often as the store and no other |
| MemoryStorage.RemainingCounts | pkg/storage/memory/memory.go:113-144 | what a deletion leaves holds each staying metric as often as before and no other |
| MemoryStorage.DeletionLeaves | pkg/storage/memory/memory.go:113-144 | a deletion leaves a metric, as often as it is there, if and only if its time is not before the given one or a resolution is given that is not its own |
| Compactor.RoundTo5Minutes | pkg/compaction/compactor.go:239-248 | the last five-minute boundary not after the instant, also before 1970 |
| Compactor.RoundTo1Hour | pkg/compaction/compactor.go:251-257 | the last full hour not after the instant |
| Compactor.BucketRaw | pkg/compaction/compactor.go:64-103 | the fold loop of `Compact5m` computes the bucket function |
| Compactor.BucketFive | pkg/compaction/compactor.go:146-178 | the fold loop of `Compact1h` computes the bucket function |
| Compactor.AbsorbInto | pkg/compaction/compactor.go:81-102 | an existing bucket is merged with, a new one created |
| Compactor.ListBuckets | pkg/compaction/compactor.go:106-109 | each bucket is encoded once, in the order the map is ranged over |
| Compactor.Compactor.Compact5m | pkg/compaction/compactor.go:46-118 | an error leaves the store as it was; otherwise the aggregates of the raw samples in the window are appended |
| Compactor.Compactor.Compact1h | pkg/compaction/compactor.go:127-193 | the same from five-minute aggregates to hourly ones |
| Compactor.Compactor.CompactAndCleanup | pkg/compaction/compactor.go:197-236 | the four steps in order and where a failure leaves the store; success takes away no hourly aggregate and no five-minute one of the last seven days |
| Cleanup.CleanedExactly | pkg/compaction/compactor.go:197-236 | metric by metric: raw samples of the last six hours stay and older ones go, five-minute aggregates of the last seven days stay with the new ones and older ones go, everything else stays with the new hourly aggregates |
| Cleanup.FoldedExactly | pkg/compaction/compactor.go:200-222 | a run folds exactly the samples from twelve to six hours ago, and the five-minute aggregates from seven to two days ago, bounds included |
| CompactionLaws.FoldTotals | pkg/compaction/compactor.go:81-102 | every bucket holds the merge of exactly the contributions with its key, and only keys of contributions have buckets |
| Statistics.RawStatistics | pkg/compaction/compactor.go:64-103 | a five-minute bucket exists for every key of a raw sample and holds the number, the sum, the least and the greatest of the values with that key |
| Statistics.HourStatistics | pkg/compaction/compactor.go:64-103 | the same for samples folded straight into hours, which by HourlyIsDirect is what both compactions give |
| Statistics.FiveStatistics | pkg/compaction/compactor.go:146-178 | an hourly bucket holds the counts and sums of its five-minute aggregates, the least of their minima and the greatest of their maxima |
| Statistics.WrittenMean | pkg/compaction/types.go:41-72 | the metric written for a five-minute bucket has the mean of its samples as value, and their number, sum, least and greatest as labels |
| CompactionLaws.FoldPermutes | pkg/compaction/compactor.go:62-103 | folding contributions does not depend on their order |
| CompactionLaws.FiveMinuteFoldPermutes | pkg/compaction/compactor.go:62-103 | the five-minute aggregates do not depend on the order of the samples |
| CompactionLaws.HourlyFoldPermutes | pkg/compaction/compactor.go:143-178 | nor do the hourly ones |
| CompactionLaws.BucketsFoldToHours | pkg/compaction/compactor.go:143-178 | folding the five-minute buckets gives, for every series and hour, the aggregate of the raw samples folded directly (a fold homomorphism) |
| CompactionLaws.HourlyIsDirect | pkg/compaction/compactor.go:46-193 | compacting a store of raw samples in whole millionths over a window with an aligned start to five minutes and then to hours gives exactly the hourly aggregates of the raw samples |
| CompactionLaws.HourlyIsNear | pkg/compaction/compactor.go:46-193 | for arbitrary values: same hours and counts, the sum within half a millionth per merged aggregate, the bounds within half a millionth |
| CompactionLaws.FoldConserves | pkg/compaction/compactor.go:62-103 | over all buckets the counts add up to the number of samples and the sums to their sum |
| CompactionLaws.HoursConserve | pkg/compaction/compactor.go:143-178 | the same over all hours for samples folded directly to hours |
| CompactionLaws.BothFoldsConserve | pkg/compaction/compactor.go:46-193 | after both compactions of a window the hourly counts add up to the number of raw samples in it and the hourly sums to their sum |
| CompactionRuns.NextKeeps | pkg/compaction/compactor.go:197-236 | every step of a run, interleaved with late writes and aborts, keeps the invariant |
| CompactionRuns.RunKeeps | pkg/compaction/compactor.go:197-236 | the invariant holds in every reachable state |
| CompactionRuns.RawDeletionIs | pkg/compaction/compactor.go:209-216 | the store's deletion of raw samples before the cutoff, applied to all the store holds, takes away exactly those samples and no aggregate |
| CompactionRuns.FiveDeletionIs | pkg/compaction/compactor.go:226-233 | its deletion of five-minute aggregates takes away no raw sample and no hourly aggregate |
| CompactionRuns.DeletionsAreSafe | pkg/compaction/compactor.go:209-233 | in every run a raw sample that is deleted was folded into a written five-minute aggregate, a five-minute aggregate that is deleted was folded into a written hourly one by an earlier run, and no hourly aggregate is ever deleted |
| CompactionRuns.Conservation | pkg/compaction/compactor.go:197-236 | at every state of every run, samples written = samples present + counts of all five-minute aggregates written, if and only if no earlier deletion left a sample of its batch exactly on the cutoff, no run gave up between writing the aggregates of a batch and deleting it, and none stands at that point now |
| CompactionRuns.WholeRun | pkg/compaction/compactor.go:197-236 | from every idle state that keeps the invariant, with the last run at most six hours ago, all six steps of a run can follow, so the theorems about runs speak of something |
| CompactionRuns.RawDeletionHappens | pkg/compaction/compactor.go:209-216 | a run in which a raw sample is deleted |
| CompactionRuns.FiveDeletionHappens | pkg/compaction/compactor.go:226-233 | a run in which a five-minute aggregate is deleted, many runs after it was written |
| CompactionRuns.CutoffSampleCountsTwice | pkg/compaction/compactor.go:202-216 | when a deletion leaves a sample of its batch that stands exactly on the cutoff, the equation fails in every later state |
| CompactionRuns.CutoffHappens | pkg/compaction/compactor.go:202-216 | a whole run in which that happens, from a store with one sample |
| LateRuns.RunIsAny | pkg/compaction/compactor.go:197-236 | the runs above are among those in which samples of any age arrive at any moment and runs lie as far apart as they may |
| LateRuns.FoldedExactly | pkg/compaction/compactor.go:103-110 | in such runs a sample is among the folded ones if and only if some earlier write folded it |
| LateRuns.LostExactly | pkg/compaction/compactor.go:200-216 | in such runs a deletion removes a sample that no write has folded if and only if the sample stands before the cutoff, before the window of the deleting run or arrived after it had begun, and no earlier write folded it |
| LateRuns.LossHappens | pkg/compaction/compactor.go:200-216 | a run in which that happens: a first run thirteen hours after the sample |
| BadgerKey.PutBigEndian | pkg/storage/badger/badger.go:528-537 | writes the low bytes of a number in big-endian order and leaves the rest of the buffer alone |
| BadgerKey.FillKey | pkg/storage/badger/badger.go:517-540 | filling the buffer field by field yields length, name, hash and timestamp in sequence |
| BadgerKey.ParseMadeKey | pkg/storage/badger/badger.go:517-559 | for names of at most 65517 bytes the key gives back the name and the wrapped count of nanoseconds, for every label set and hash |
| BadgerKey.KeyRoundTrips | pkg/storage/badger/badger.go:517-559 | all instants of the int64 range come back if and only if the name has at most 65517 bytes; beyond, the 16-bit offsets wrap |
| BadgerKey.InstantRoundTrips | pkg/storage/badger/badger.go:517-559 | for such names an instant comes back if and only if its nanoseconds fit int64 |
| BadgerKey.PrefixIsName | pkg/storage/badger/badger.go:170-181 | a key starts with the length-prefixed name if and only if its metric has that name |
| BadgerKey.KeysInTimeOrder | pkg/storage/badger/badger.go:517-540 | the keys of one series stand in the order of time, from 1970 on |
| BadgerStorage.ScanPrefix | pkg/storage/badger/badger.go:182-232 | seeking to a prefix and going on while keys have it finds every matching metric under the prefix, in key order, up to the limit |
| BadgerStorage.PastPrefix | pkg/storage/badger/badger.go:184-186 | keys with a prefix stand together in key order |
| BadgerStorage.Storage.Write | pkg/storage/badger/badger.go:104-145 | the transaction leaves the batch written in order, the last metric of a key staying |
| BadgerStorage.Storage.Query | pkg/storage/badger/badger.go:148-320 | one scan per requested name, or a full scan, cut at the limit across names |
| BadgerStorage.Storage.Delete | pkg/storage/badger/badger.go:323-406 | keeps exactly the metrics whose key holds a time not before the given one and, when a resolution is given, those that carry another, unless parsing a key panics |
| BadgerStorage.KeyTimeIs | pkg/storage/badger/badger.go:362-380 | for names of at most 65517 bytes the time in the key is the metric's own, up to wrapping |
| BadgerStorage.PrefixScanAgrees | pkg/storage/badger/badger.go:172-298 | for distinct names below 65536 bytes the prefix scans return the same multiset as the full scan filtered by `matchesQuery` |
| BadgerStorage.PrefixScanCounts | pkg/storage/badger/badger.go:172-298 | for any list of names below 65536 bytes the prefix scans find each metric as often as its name is in the list times as often as the filtered full scan finds it |
| BadgerStorage.DeleteAgrees | pkg/storage/badger/badger.go:323-406 | for names of at most 65517 bytes and timestamps in the int64 range a deletion leaves exactly what the reference store's deletion leaves of the contents, in the same order |
| BadgerStorage.DeletionsAgreeExactly | pkg/storage/badger/badger.go:323-406 | for such names every deletion agrees with the reference if and only if all timestamps lie in that range |
| BadgerStorage.FilterAgrees | pkg/storage/badger/badger.go:148-320 | two databases that agree on the metrics that pass a filter answer it with the same list |
| KeyedCompaction.KeyedCompactor.Compact5m | pkg/compaction/compactor.go:46-118 | on the keyed store: an error changes nothing; otherwise the aggregates of the window are put under their keys |
| KeyedCompaction.KeyedCompactor.Compact1h | pkg/compaction/compactor.go:127-193 | the same for hourly aggregates |
| KeyedCompaction.RawTwiceExactly | pkg/compaction/doc.go:170 | on the keyed store, with a key that separates the metrics at hand, a second `Compact5m` over the same range always leaves the store as after the first, whatever order the buckets are written in, if and only if no two groups of raw samples in the window have one name and five minutes, labels that differ in metadata alone, statistics that read alike in millionths, and different averages |
| Collision.SecondRunChanges | pkg/compaction/types.go:38-70 | a store with two samples on which that fails: values 0 and 0.0000001 under labels that differ in `__sum__` alone |
| KeyedCompaction.RawTwiceIsOnce | pkg/compaction/doc.go:170 | when no two buckets are written with the same name, labels and time but different averages, a second run changes nothing |
| KeyedCompaction.PlainSamplesAgree | pkg/compaction/compactor.go:62-118 | raw samples that carry no metadata label never make two such buckets |
| KeyedCompaction.FiveTwiceIsOnce | pkg/compaction/doc.go:170 | a second `Compact1h` over the same range changes nothing, without such a condition, because decoding drops metadata labels |
| KeyedCompaction.AppendingTwice | pkg/compaction/doc.go:170 | on the appending store a second `Compact5m` appends the same buckets again, so it changes nothing if and only if no raw sample stands in the window |
| KeyedCompaction.AppendingHoursTwice | pkg/compaction/doc.go:170 | the same for `Compact1h`: if and only if no metric in the window decodes as a five-minute aggregate |
| KeyedCompaction.SourcesStay | pkg/storage/badger/badger.go:104-135 | a write of aggregates overwrites no metric of another resolution |
| Selection.LabelKeyString | pkg/query/executor.go:633-646 | the executor's series key: the labels in key order |
| Selection.CollectedAre | pkg/query/executor.go:166-180 | each entry of the series map stands for one label set and holds exactly its samples |
| Selection.SortByTime | pkg/query/executor.go:185-189 | sorts by time and keeps every sample |
| Selection.SelectedSeries | pkg/query/executor.go:164-196 | for separator-free labels a selector yields one series for each label set, with exactly the samples of the metrics that carry it, in time order |
| Selection.SelectsPermute | pkg/query/executor.go:164-196 | the order in which a store returns the metrics plays no part |
| Selection.RequestMatches | pkg/query/executor.go:145-158 | the storage request of a selector matches a metric if and only if it lies in the window, has the name, and carries the value of each equality matcher that is the last one of its label; matchers of other kinds play no part |
| Selection.Executor.ExecuteVectorSelector | pkg/query/executor.go:143-199 | asks either store for the window, name and equality matchers, counts the samples loaded, fails if the store does or beyond the limit, and returns the grouped and sorted series |
| Selection.Executor.ExecuteRangeSelector | pkg/query/executor.go:202-207 | the same with the window widened by the range |
| Selection.Executor.ExecuteRate | pkg/query/executor.go:507-564 | fails unless the one argument is a range; else asks for the widened window, and every series is replaced by its rates, its labels kept |
| Selection.LimitExactly | pkg/query/executor.go:166-172 | samples are loaded if and only if the store answers and, these included, they are not more than the limit |
| Rates.LastBeforeIs | pkg/query/executor.go:541-546 | what the search finds: the last sample strictly before the range, none if there is none |
| Rates.BaselineIs | pkg/query/executor.go:541-548 | the baseline of a positive range is an earlier sample, out of the range or on its start, with no later sample before the range; there is none if and only if the series starts inside the range |
| Rates.RateSeries | pkg/query/executor.go:537-559 | the sliding window emits exactly the points of the naive search, for any range, and its start advances fewer than n times in all |
| Rates.RateIsPerSecond | pkg/query/executor.go:534-556 | for a positive range the rates stand at exactly the points that have an increase, and each times the range in nanoseconds is the increase times a thousand million |
| Rates.RateOfPoint | pkg/query/executor.go:534-556 | each rate r belongs to a point i and the point k that it is compared with, and r times the range in nanoseconds is max(0, v_i - v_k) times a thousand million |
| Rates.ScaleInPlace | pkg/query/executor.go:584-589 | every point is multiplied where it stands |
| Rates.IncreaseSeries | pkg/query/executor.go:567-592 | increase is the rate series scaled by the range |
| Rates.IncreaseIs | pkg/query/executor.go:567-592 | for a positive range it equals max(0, v_i - v_k) at exactly the points where rate has a value |
| Rates.NegativeRangeIsEmpty | pkg/query/executor.go:541-548 | a negative range, as an overflowing duration yields, has no rates |
| Grouping.OrderedIsSorted | pkg/query/executor.go:367-368 | the grouping names are visited in order, repetitions kept |
| Grouping.SortStrings | pkg/query/executor.go:368 | the grouping list is sorted where it stands in the tree |
| Grouping.SameKey | pkg/query/executor.go:343-407 | sorting the list changes no key and no group label, so the series after the first, and later executions, are grouped alike |
| Grouping.BuildGroupKey | pkg/query/executor.go:343-377 | the two loops build the group key; a `by` list is left sorted, a `without` list untouched |
| Grouping.ExtractGroupLabels | pkg/query/executor.go:380-407 | the two loops build the restricted or reduced label map |
| Grouping.GroupLabelsAre | pkg/query/executor.go:380-407 | `by` keeps exactly the labels that are named and `without` exactly the others, with their values |
| Grouping.GroupKeyInjective | pkg/query/executor.go:343-407 | group keys agree if and only if group labels do, for `by` with repeated names and for `without` |
| Grouping.GroupSeries | pkg/query/executor.go:314-340 | the loop fills the group map in the order of the series, grouped by the list as it was given |
| Grouping.SameGroups | pkg/query/executor.go:314-340 | the list as execution leaves it groups every list of series as the given one does |
| Grouping.GroupsAre | pkg/query/executor.go:314-340 | a group holds exactly the series of its key, in order, under the labels they share |
| Grouping.SameGroup | pkg/query/executor.go:314-340 | two series stand in the same group if and only if their group labels agree |
| Grouping.GroupsPartition | pkg/query/executor.go:314-340 | the groups together hold every series exactly as often as it was given |
| Aggregation.Sum | pkg/query/executor.go:453-459 | the loop computes the sum, undefined as soon as a value is |
| Aggregation.Avg | pkg/query/executor.go:461-466 | the loop and the division compute the average |
| Aggregation.AverageIs | pkg/query/executor.go:461-466 | the average is a number if and only if there are values and all are numbers, and times their count it is their sum |
| Aggregation.AverageBetween | pkg/query/executor.go:461-492 | the average of numbers lies between their minimum and their maximum |
| Aggregation.Max | pkg/query/executor.go:468-479 | the loop computes the maximum with comparisons that fail on undefined values |
| Aggregation.Min | pkg/query/executor.go:481-492 | the same for the minimum |
| Aggregation.MaxIs | pkg/query/executor.go:468-479 | the maximum of numbers is one of them and none exceeds it |
| Aggregation.MinIs | pkg/query/executor.go:481-492 | the minimum of numbers is one of them and none is below it |
| Aggregation.ExtremesUndefined | pkg/query/executor.go:468-492 | for some values maximum and minimum are undefined if and only if the first value is: an undefined value neither replaces one nor is replaced, so the result depends on the order |
| Aggregation.CollectTimes | pkg/query/executor.go:415-421 | the time map holds, for every instant, the values of all series there |
| Aggregation.AggregateGroup | pkg/query/executor.go:410-450 | one point for each instant of a member with the aggregated values there, in strictly increasing time order |
| Aggregation.TimesAreUnion | pkg/query/executor.go:410-450 | the instants of the result are the union of the members' instants |
| Aggregation.AggregateMeans | pkg/query/executor.go:423-437 | at each instant of a group: the sum, mean, greatest, least or number of the values there, by the name of the operation; a sum or mean with an undefined value is undefined, and so is an unknown operation |
| Aggregation.ExecuteAggregate | pkg/query/executor.go:282-305 | a series for each group with the group's labels and aggregated points; of the tree at most the grouping list is sorted |
| Aggregation.NestedAggregation | pkg/query/executor.go:282-450 | for any grouping, `by` or `without`: sum of sums = sum, sum of counts = count, max of maxima = max, min of minima = min, as whole results at every instant |
| Values.PointsUnique | pkg/query/executor.go:445-447 | points in strictly increasing order are determined by what stands at each instant |
| Scalars.StepsAre | pkg/query/executor.go:598 | the step grid has floor((end - start) / step) + 1 instants: exactly those the loop condition admits |
| Scalars.EndsExactly | pkg/query/executor.go:598 | the loop over the instants ends if and only if the step is positive or the window is empty |
| Scalars.JoinedGrids | pkg/query/executor.go:240-249 | two results on the same grid join to one on that grid, holding the combined value |
| Scalars.JoinedAt | pkg/query/executor.go:240-249 | an instant of the left side is in the result if and only if the right side has it too, with the left value first |
| Scalars.Result.Close | pkg/query/executor.go:90-104 | drops the references and changes no point and no label map |
| Scalars.ExecuteNumberLiteral | pkg/query/executor.go:595-610 | a fresh unlabelled series with the constant at every instant of the grid |
| Scalars.NegateInPlace | pkg/query/executor.go:620-626 | every point is negated where it stands |
| Scalars.NegateAll | pkg/query/executor.go:621-625 | the nested loops negate the points of every series, since no two series share them |
| Scalars.ApplyBinaryOp | pkg/query/executor.go:230-256 | a fresh series of the points joined by time, or the error when a side is not a single series |
| Scalars.CombineAndClose | pkg/query/executor.go:210-227 | the combined result is unaffected by closing both operands, whose label map it shares; their references are dropped |
| Execution.ExecuteExpr | pkg/query/executor.go:119-140 | every tree is executed to one of its outcomes: the series in a result of its own, or an error, and the samples loaded; changing and closing operands in place leaves no trace in it |
| Execution.ExecuteSelector | pkg/query/executor.go:143-207 | a selector or range yields the series of what the store finds, or an error |
| Execution.ExecuteCall | pkg/query/executor.go:495-592 | `rate` and `increase` of one range yield its rates or increases; every other call is an error |
| Execution.ScaleAll | pkg/query/executor.go:582-589 | `increase` scales the rates of each series where they stand |
| Execution.ExecuteUnary | pkg/query/executor.go:613-630 | a minus negates what the operand yields, where it stands |
| Execution.ExecuteBinary | pkg/query/executor.go:210-227 | the two results are joined and closed; an error on either side is one of the whole |
| Execution.ExecuteAggregate | pkg/query/executor.go:282-305 | what the operand yields is grouped and aggregated, and closed; without an operand it is an error |
| Execution.Execute | pkg/query/executor.go:60-79 | the same from zero samples loaded, with the points of all series counted |
| Execution.ScalarExecutes | pkg/query/executor.go:119-256 | a tree of numbers, signs, parentheses and binary operators has one outcome: an unlabelled series on the grid that holds the value of the tree at every instant |
| Execution.DoubleMinus | pkg/query/executor.go:613-630 | two minus signs cancel: both trees have the same outcomes |
| Execution.NestedQueries | pkg/query/executor.go:119-450 | `sum(sum by (x) (e))` and `sum(e)` have the same outcomes for every tree e, grouping, `by` or `without`, and so have `sum(count by (x) (e))` and `count(e)`; where e yields numbers only, also maximum of maxima and minimum of minima |
| Execution.SelectorExecutes | pkg/query/executor.go:143-199 | a selector as executed, for separator-free labels: a series for each label set with its samples in time order |
| Execution.IncreaseExecutes | pkg/query/executor.go:507-592 | `increase` of a positive range as executed: for each series max(0, v_i - v_k) at exactly the points that have a baseline |
| Execution.RateExecutes | pkg/query/executor.go:507-564 | `rate` of a positive range as executed, for separator-free labels: for each series the rise per second at exactly the points that have a baseline |
| Arithmetic.ArithmeticExecutes | pkg/query/executor.go:119-279 | a query of literals, parentheses, signs and + - * / executes to its value in the arithmetic of the reals, at every instant of the grid; the value is undefined if and only if something is divided by zero |
| Arithmetic.OperatorsExecute | pkg/query/executor.go:259-279 | power and remainder take the left value first; comparisons and set operators yield undefined values, and so does every other operator on an undefined value |
| Execution.StoresAgree | pkg/storage/interface.go:19-27 | a query has the same outcomes on the keyed store as on the appending store with the same contents, for separator-free labels and names below 65536 bytes |
| Batching.Buffer.constructor | pkg/sdk/batch/batch.go:35-42 | an empty buffer of the configured capacity |
| Batching.Buffer.Append | pkg/sdk/batch/batch.go:54-58 | appends to the buffer, growing it when full, and changes no batch handed out |
| Batching.Buffer.Take | pkg/sdk/batch/batch.go:71-81 | hands out a copy and truncates the buffer, or nothing when it is empty |
| Batching.StepKeeps | pkg/sdk/batch/batch.go:54-136 | every step of Add, flush, the loop, Flush and Stop keeps conservation and exclusion |
| Batching.RunKeeps | pkg/sdk/batch/batch.go:54-136 | in every interleaving the batches in the order taken, followed by the buffer, are the metrics in the order added; no batch is empty; the flag is set if and only if one thread, and only one, is between its compare-and-swap and its store |
| Batching.BatchesStay | pkg/sdk/batch/batch.go:71-84 | a batch once taken is in every later state |
| Batching.DrainedAll | pkg/sdk/batch/batch.go:71-97 | when the flush of Flush or Stop has taken its batch, everything added before has been handed out |
| Batching.LoopStaysEnded | pkg/sdk/batch/batch.go:87-119 | once the loop has ended it takes no further step, so Stop flushes after the last tick |
| Batching.AddFlushes | pkg/sdk/batch/batch.go:54-67 | an Add goes on to flush if and only if the buffer then holds the wanted number of metrics |
| Batching.QuietButFull | pkg/sdk/batch/batch.go:54-81 | when nothing is under way the buffer is full if and only if some Add lost its compare-and-swap while the buffer was full and nothing has emptied the buffer since |
| Batching.FullBufferMayWait | pkg/sdk/batch/batch.go:62-67 | a run in which that happens: the second Add loses to a flush that has already taken its batch |
| Cardinality.Tracker.Check | pkg/ingest/cardinality.go:53-79 | cleans up first, then admits seen series and new ones below both limits |
| Cardinality.Tracker.Record | pkg/ingest/cardinality.go:83-99 | refreshes the series and counts it if it is new |
| Cardinality.Tracker.CleanupOldSeries | pkg/ingest/cardinality.go:104-134 | at most once an hour drops the series not seen for a day, and rebuilds the counters only above a thousand |
| Cardinality.JudgedExactly | pkg/ingest/cardinality.go:60-78 | a check admits a series that was seen, and another one only below 100000 series in all and 10000 of its name |
| Cardinality.CleanedExactly | pkg/ingest/cardinality.go:104-134 | from an hour after the last cleanup on it drops exactly the series not seen for a day, and rebuilds the counters from those left only when it drops more than a thousand |
| Cardinality.Tracker.RebuildCounts | pkg/ingest/cardinality.go:138-151 | counts every remaining key once under the name in front of its first comma |
| Cardinality.CountedSum | pkg/ingest/cardinality.go:138-151 | rebuilt counts sum to the number of keys |
| Cardinality.CleanedCounting | pkg/ingest/cardinality.go:104-151 | cleanup and rebuild keep the counts summing to the total, whatever the names |
| Cardinality.CleanedTotal | pkg/ingest/cardinality.go:104-151 | they never raise the total |
| Cardinality.CleanedKeeps | pkg/ingest/cardinality.go:104-151 | where the counts cover the series of each name, cleanup and rebuild keep them covering |
| Cardinality.CleanedWithin | pkg/ingest/cardinality.go:104-151 | and raise no count |
| Cardinality.RecordedCovers | pkg/ingest/cardinality.go:83-99 | recording keeps the counts covering the series of each name, for names without a comma |
| Cardinality.CoveredExactly | pkg/ingest/cardinality.go:83-147 | after the first record the counts cover the series of each name if and only if the recorded name has no comma |
| Ingest.Handler.HandleIngest | pkg/ingest/handler.go:62-131 | all metrics are checked before any is written, only written metrics are recorded, and every other outcome leaves store and counters as the checks left them, the clock being read anew by each check and each record |
| Ingest.Handler.CheckLoop | pkg/ingest/handler.go:100-118 | fills in missing timestamps and stops at the first invalid or refused metric; each check may clean up at its own reading of the clock |
| Ingest.StampsFill | pkg/ingest/handler.go:102-106 | a timestamp that is given is kept, a missing one becomes the clock reading, and nothing else of a metric changes |
| Ingest.ValidExactly | pkg/ingest/limits.go:50-75 | a valid metric has a name of 1 to 256 bytes and at most 20 labels, with keys up to 256 and values up to 1024 bytes |
| Ingest.AnswersExactly | pkg/ingest/handler.go:74-131 | a request succeeds if and only if it holds at most a thousand metrics, the store is not full, every metric is valid and admitted and the write succeeds; a refusal names the first metric that is not |
| Ingest.OnlyWrittenRecorded | pkg/ingest/handler.go:108-131 | a request that fails adds no series to the tracker; one that succeeds adds those of its metrics and no other |
| Ingest.NextCounts | pkg/ingest/handler.go:74-131 | whatever the names and clock readings, every request keeps the counts summing to the total, which is at least the number of series seen |
| Ingest.NextCovers | pkg/ingest/handler.go:74-131 | for names without a comma, whatever the clock readings, every request keeps each count at least the number of series seen of its name |
| Ingest.NextTotal | pkg/ingest/handler.go:74-131 | a request in which no cleanup drops a series that an earlier check of it let pass as seen overshoots the total limit by less than one request |
| Ingest.NextWithin | pkg/ingest/handler.go:74-131 | and each count's limit, where the counts cover the names |
| Ingest.QuietIsSteady | pkg/ingest/handler.go:100-118 | no cleanup after the first check is enough for that |
| Ingest.ServedWithin | pkg/ingest/handler.go:74-131 | in every state a sequence of requests reaches, with any clock readings, the counts sum to the total and the series seen are at most the total, and if no name has a comma the series seen of each name are at most its count; if no cleanup drops a series that an earlier check of the same request let pass as seen, the total is at most 100999 and, without commas, each count at most 10999 |
| Overshoot.MovingClockOvershoots | pkg/ingest/cardinality.go:53-134 | a sequence of requests with clock readings that never go back reaches a total of 100999, and one more, in which the second check drops the series that the first let pass as seen, passes it |
| Downsampling.DownsamplePoints | pkg/ingest/dashboard.go:244-284 | returns short inputs unchanged, averages long ones in buckets of floor(n / maxPoints), panics for maxPoints below one |
| Downsampling.AverageBucket | pkg/ingest/dashboard.go:263-280 | the inner loop yields the first timestamp and the mean of the bucket |
| Downsampling.DownsampledLength | pkg/ingest/dashboard.go:244-284 | at least maxPoints and at most 2 * maxPoints - 1 points |
| Downsampling.WantedNumber | pkg/ingest/dashboard.go:244-284 | at most maxPoints points come back if and only if maxPoints divides the number of points given |
| Downsampling.BoundReached | pkg/ingest/dashboard.go:244-284 | the upper bound is reached |
| Downsampling.AveragedAt | pkg/ingest/dashboard.go:258-280 | point k carries the timestamp of input point k * bucketSize: a subsequence that starts with the first |
| Downsampling.WeightedTotal | pkg/ingest/dashboard.go:258-280 | bucket sizes times averages add up to the sum of all values |
| Histograms.JoinLabels | pkg/sdk/metrics/histogram.go:157-170 | joins the labels with commas |
| Histograms.SplitLabels | pkg/sdk/metrics/histogram.go:173-185 | splits a key into pairs, dropping an odd label at the end |
| Histograms.KeyRoundTrip | pkg/sdk/metrics/histogram.go:157-185 | the key of a comma-free label list gives back the map of its pairs |
| Histograms.PairsExactly | pkg/sdk/metrics/histogram.go:173-185 | a key of the map has the value behind its last place among the pairs |
| Histograms.BucketSet.constructor | pkg/sdk/metrics/histogram.go:34-41 | a set with no observations |
| Histograms.BucketSet.Observe | pkg/sdk/metrics/histogram.go:44-54 | bucket i counts exactly the observations at most bound i, before and after |
| Histograms.BucketSet.Reset | pkg/sdk/metrics/histogram.go:57-63 | all counts, the sum and the count are zero again |
| Histograms.DefaultCumulative | pkg/sdk/metrics/histogram.go:11-24 | default bucket counts do not decrease and never exceed the number of observations |
| Histograms.LastBucketIsAll | pkg/sdk/metrics/histogram.go:208-211 | the bucket labelled `+Inf` holds all observations if and only if none is above ten |
| Histograms.Histogram.Observe | pkg/sdk/metrics/histogram.go:86-102 | adds the observation to the set of its label key and to no other |
| Histograms.Histogram.SendSet | pkg/sdk/metrics/histogram.go:113-150 | skips an empty set, else sends its buckets, sum and count and resets it |
| Histograms.SetSends | pkg/sdk/metrics/histogram.go:113-150 | what is sent for a key: for each bound the number of observations not above it, labelled with the bound, then their sum and their number under `_sum` and `_count` |
| Histograms.SumGrows | pkg/sdk/metrics/histogram.go:44-47 | each observation is added to the sum |
| Histograms.Histogram.Flush | pkg/sdk/metrics/histogram.go:106-154 | sends every set with observations once and resets it; panics if and only if unlabelled observations are pending |
| Histograms.PanicsExactly | pkg/sdk/metrics/histogram.go:86-154 | a run of observations and flushes panics if and only if a flush comes after an unlabelled observation |
| Histograms.SentAndPending | pkg/sdk/metrics/histogram.go:86-154 | in every run that has not panicked the observations sent, followed by those pending, are all observations of the key, in order |
| Histograms.BucketsConserve | pkg/sdk/metrics/histogram.go:86-154 | in every run that has not panicked and for every bound, bucket counts sent plus pending are the observations at most the bound |

## Left out

- QueryRoundTrip.ParseQueryText: a number literal keeps its text; the float that `strconv.ParseFloat` makes of it is not modelled, nor are token positions.
- Lexing.PanicsExactlyOnDanglingEscape: a panic is recorded in a field instead of unwinding the stack; afterwards nothing is observed.
- Durations.ParseNumberAndUnit: the product is wrapped once instead of factor by factor, which is the same value.
- Calendar.Rfc3339Injective: instants are in UTC, so the text ends in `Z`; other zones are not modelled.
- FixedPoint.ScanFormat: scanning covers sign, digits and fraction, which is what `%f` writes; exponents, infinities and NaN are not modelled.
- CompactionLaws.HourlyIsDirect: labels are assumed free of separators and of leading underscores, values to be whole millionths; HourlyIsNear drops the last assumption.
- CompactionRuns.DeletionsAreSafe: samples arrive at most six hours late and completed runs start at most six hours apart (LateRuns.LostExactly says what is lost otherwise); one run is under way at a time; the store of the state machine appends; fewer than 2^64 samples arrive, so that no count wraps.
- BadgerKey.ParseMadeKey: the capacity of a key slice is taken to be its length; Go would let a slice reach into spare capacity.
- BadgerStorage.Storage.Write: each transaction is one step; BadgerDB's own limits on key and transaction size, and JSON encoding, which is taken to give back the metric, are not modelled; outside int64, where the documentation of `UnixNano` leaves the result open, nanoseconds wrap as its implementation does.
- KeyedCompaction.RawTwiceIsOnce: when two buckets are written alike with different averages the order of a map range decides, and a second run may change the store (KeyedCompaction.RawTwiceExactly).
- Selection.SelectedSeries: `!=`, `=~` and `!~` matchers are parsed but not applied by the executor (Selection.RequestMatches); whether a store reports an error is a parameter, a function of the request.
- Rates.RateSeries: a zero range gives an infinity or an undefined value; other infinities do not arise from real samples.
- Aggregation.NestedAggregation: the maximum and minimum laws assume every value to be a number; sums are exact, without floating-point rounding.
- Execution.ExecuteExpr: the number a literal denotes, power and modulo are parameters; the quotients of a rate by a zero range, infinite or undefined, are left open; label maps are never changed, so which results share one is not tracked; with a step that is not positive and a window that is not empty a number never ends (Scalars.EndsExactly), and such trees are excluded.
- Batching.RunKeeps: hand-over to the transport is where the model ends; `Stop` cancels the context its last send uses, so delivery is not claimed.
- Ingest.ServedWithin: requests follow one another; two requests handled at the same time are not modelled.
- Histograms.BucketSet.Observe: counters are unbounded; the text of a bucket bound other than `+Inf` is a parameter.
- Histograms.SentAndPending: a panicking flush ends the program, so what it had taken by then and what a caller that recovers would see are not modelled.
- HTTP handlers, JSON and CSV encoding, WebSocket, routing, configuration, logging, contexts and timeouts: input and output.
- Store statistics, storage and compaction monitors, counters, gauges and import batching: each is settled by reading a branch or two.
- Set operators and comparisons at execution time and vector matching: parsed, but the executor does not implement them; a comparison of two single series yields undefined values, as here.
- Nil and empty label maps are identified, except where closing a result or flushing an unlabelled histogram tells them apart.
- Lower-casing of keywords is ASCII only, which agrees with the source on every identifier the lexer can delimit.
