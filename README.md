# Bank statement transaction pipeline, modelled in Dafny

This project models the transaction pipeline in `backend/` of a bank-statement extractor. Statement text goes
through these stages:

1. It is split into lines and classified by `TransactionExtractor`. The classifier recognises:
   - section headers (deposits and credits versus withdrawals and debits);
   - single-line transactions, where a date and an amount share one line, plus continuation lines added to the
     open one;
   - stacked transactions, where a date line is followed by description lines and closed by an amount line.
2. It is checked by `TransactionValidator`. Four checks run in a fixed order, per-kind counters are kept, and an
   optional strict mode raises on the first failure.
3. It is split into keyword (bank) buckets. Each transaction goes to the first keyword its description mentions.
4. It is narrowed to an inclusive `YYYY-MM` range.
5. It is grouped as bank → month → deposits/withdrawals, with no empty level.

The model also covers:
- the pure helpers around the PDF report (truncation, month headings, the order of banks, months and tables in
  the story, the input guards);
- the upload check of `Config`;
- the argument checks of `BankStatementExtractor._validate_inputs`.

Modules follow the source files:

- `FinancialRules`: `extractors/financial_rules.py`.
- `StatementPatterns`: the regular expressions of `extractors/regex_extractor.py`, as hand-written matchers.
- `RegexExtractor`: the rest of `extractors/regex_extractor.py`.
- `ExtractorProperties`: the lemmas about `RegexExtractor`.
- `AnchorExamples`: two anchor lines from a statement, parsed step by step.
- `Strptime`: `datetime.strptime` for the formats the code uses.
- `FinancialValidator`: `validators/financial_validator.py`.
- `TransactionFilter`, `TransactionGrouper`, `PipelineInputs`: `main.py`.
- `ReportWriter`: `output/writer.py`.
- `Config`: `config.py`.
- `Text`, `Seqs`, `Ordering`, `Wrappers`: Python's string methods, list comprehensions, `sorted` and `Option`/`Result`.

Where the source mutates objects, the model is imperative:
- `CategoryState`, `TransactionExtractor` and `TransactionValidator` are classes with the source's fields.
- `extract_transactions`, `validate_transactions`, `filter_by_keywords`, `filter_by_date_range`,
  `group_by_month`, `group_by_bank_month_type` and the report builders are methods with loops.
- Each method is proved equal to a function of its inputs or of the old state. The lemmas state the source's
  promises about those functions.

Values the source takes from outside become parameters:
- `currentYear`: the year of `datetime.now()`;
- `generated`: the report timestamp text;
- `pdfExists`: the result of `Path(pdf_path).exists()`.

Amounts are integer cents.

## Model

| member | source | states |
|---|---|---|
| `FinancialRules.HeaderSetsDisjoint` | backend/extractors/financial_rules.py:27-46 | No line is both a credit header and a debit header. |
| `FinancialRules.HeaderType` | backend/extractors/financial_rules.py:54-82 | Credit exactly when the stripped, lower-cased line is in `CREDIT_HEADERS`. Debit exactly when it is in `DEBIT_HEADERS`. Never Unknown. |
| `FinancialRules.HeaderIgnoresCaseAndSpace` | backend/extractors/financial_rules.py:63-66 | Any line that equals a header up to case, with any surrounding whitespace, is classified as that header. |
| `Text.StripPadded` | backend/extractors/financial_rules.py:63 | `strip()` removes any whitespace padding on both sides and nothing else. |
| `Text.LowerStrip` | backend/extractors/financial_rules.py:63 | Lower-casing and stripping commute. |
| `FinancialRules.UpdateView` | backend/extractors/financial_rules.py:54-82 | Reports a change exactly for category lines. On a header it sets the type and the stripped label and appends a `CREDIT` or `DEBIT` entry with that label to the history. Otherwise nothing changes. |
| `FinancialRules.IsCategoryLine` | backend/extractors/financial_rules.py:157-169 | Holds exactly when the header sets recognise the line, which is exactly when `update_state` would report a change. |
| `FinancialRules.CategoryState.constructor` | backend/extractors/financial_rules.py:48-52 | Starts Unknown, with no category and an empty history. |
| `FinancialRules.CategoryState.UpdateState` | backend/extractors/financial_rules.py:54-82 | On a credit or debit header: sets state and label and appends the history entry. Returns whether the line was a header. On any other line the state is unchanged. |
| `FinancialRules.CategoryState.IsValidState` | backend/extractors/financial_rules.py:84-91 | Holds exactly when the state is credit or debit. |
| `FinancialRules.CategoryState.Reset` | backend/extractors/financial_rules.py:101-105 | Restores Unknown and no category, keeps the history, and leaves the state invalid. |
| `FinancialRules.ApplySignToAmount` | backend/extractors/financial_rules.py:112-135 | The magnitude is kept. Only debits of a non-zero amount come out negative. Credits are never negative and debits never positive. |
| `FinancialRules.FormatAmountDisplay` | backend/extractors/financial_rules.py:138-154 | The text starts with `+` exactly for amounts ≥ 0 and `-` otherwise, followed by a digit run, a point and two digits. |
| `FinancialRules.DisplayRoundTrip` | backend/extractors/financial_rules.py:138-154 | Reading the displayed text back gives the amount to the cent. |
| `StatementPatterns.DateMatch` | backend/extractors/regex_extractor.py:60-67 | The matched prefix is in the language of `DATE_PATTERN`'s group (MM/DD/YYYY, MM/DD/YY, YYYY/MM/DD or MM/DD, with `/` or `-`). It starts with a digit and holds a separator. |
| `StatementPatterns.DateMatchSound` | backend/extractors/regex_extractor.py:60-67 | A match is what the regex engine picks: the first alternative in pattern order with a match, at its longest. |
| `StatementPatterns.RegexDateMatchUnique` | backend/extractors/regex_extractor.py:60-67 | That choice picks at most one prefix length. |
| `StatementPatterns.DateMatchIsRegexMatch` | backend/extractors/regex_extractor.py:60-67 | The matcher returns length `n` exactly when `n` is the regex engine's choice, in both directions. |
| `StatementPatterns.DateMatchNoneMeansNoDate` | backend/extractors/regex_extractor.py:60-67 | No match exactly when no prefix of the line is a date token in any alternative. |
| `StatementPatterns.AmountAt` | backend/extractors/regex_extractor.py:73 | A match starts and ends at word boundaries and spans a thousands-grouped amount with two decimals. |
| `StatementPatterns.AmountAtComplete` | backend/extractors/regex_extractor.py:73 | Every amount token between word boundaries is found by the matcher. |
| `StatementPatterns.AmountMatches` | backend/extractors/regex_extractor.py:73 | `finditer`: the matches are real, ordered and do not overlap. No match starts before the first one, between two of them or after the last one. |
| `StatementPatterns.ScanUnique` | backend/extractors/regex_extractor.py:73 | Any list with those four properties is the scan's list, so the properties determine `finditer`'s result. |
| `StatementPatterns.NoAmountToken` | backend/extractors/regex_extractor.py:73 | Where no match starts, there is no amount token between word boundaries. |
| `StatementPatterns.LastAmount` | backend/extractors/regex_extractor.py:284-291 | `matches[-1]`: the last element of the scan, None exactly when the scan is empty. The token lies between word boundaries and no amount token comes after it. None means the text holds no amount token. |
| `StatementPatterns.UngroupedThousandsIsNoAmount` | backend/extractors/regex_extractor.py:73 | `1200.11` holds no amount match. |
| `StatementPatterns.AmountOnlyMatch` | backend/extractors/regex_extractor.py:185 | The captured text is a grouped amount with optional decimals. |
| `StatementPatterns.ParseGroupedInt` | backend/extractors/regex_extractor.py:442-463 | A grouped integer parses to its digits without commas, in cents. |
| `StatementPatterns.ParseDecimalAmount` | backend/extractors/regex_extractor.py:442-463 | A grouped amount with two decimals parses to its whole part times 100 plus its cents. |
| `RegexExtractor.NewTransaction` | backend/extractors/regex_extractor.py:19-32 | Keeps date, amount, type and category. Strips the description. The amount display is `format_amount_display` of the amount and reads back to it. |
| `RegexExtractor.FinalizeCurrent` | backend/extractors/regex_extractor.py:413-430 | An open draft is appended as a transaction and counted. Without one nothing changes. |
| `RegexExtractor.FinalizePending` | backend/extractors/regex_extractor.py:432-440 | Drops the pending date and description and changes nothing else. |
| `RegexExtractor.AppendToDescription` | backend/extractors/regex_extractor.py:406-411 | The open draft's description gets a space and the stripped line. The merge counter goes up by one. Nothing else changes. |
| `RegexExtractor.StackedDescription` | backend/extractors/regex_extractor.py:191-194 | A stacked description is never empty (it is `[No description]` when there are no parts). |
| `RegexExtractor.CloseStacked` | backend/extractors/regex_extractor.py:185-227 | The stacked draft is cleared, and the open single-line draft stays open. One transaction is appended when the amount parses, none otherwise, and the earlier ones are kept. |
| `RegexExtractor.AnchorDraft` | backend/extractors/regex_extractor.py:262-343 | A draft starts with the matched date and takes the current polarity and label. Its description is stripped, at least 3 long and free of summary keywords. Its amount's sign agrees with the polarity. |
| `RegexExtractor.ParseAnchor` | backend/extractors/regex_extractor.py:262-343 | A dropped anchor leaves the state as it was. An accepted one becomes the open draft. |
| `RegexExtractor.ExtractView` | backend/extractors/regex_extractor.py:89-149 | Empty or blank text returns nothing and changes nothing. Otherwise, after the line loop, the open draft is finalized and appended and the pending stacked draft is discarded; the list returned is the extractor's final `transactions`. |
| `RegexExtractor.TransactionExtractor.constructor` | backend/extractors/regex_extractor.py:75-87 | A fresh extractor: no transactions, no drafts, zero counters, a fresh category state. |
| `RegexExtractor.TransactionExtractor.GetStats` | backend/extractors/regex_extractor.py:465-467 | The counters of the current state. |
| `RegexExtractor.TransactionExtractor.FinalizeTransaction` | backend/extractors/regex_extractor.py:413-430 | The new state is `FinalizeCurrent` of the old one. |
| `RegexExtractor.TransactionExtractor.FinalizePendingTransaction` | backend/extractors/regex_extractor.py:432-440 | The new state is `FinalizePending` of the old one. |
| `RegexExtractor.TransactionExtractor.AppendLineToDescription` | backend/extractors/regex_extractor.py:406-411 | The new state is `AppendToDescription` of the old one. |
| `RegexExtractor.TransactionExtractor.ParseTransactionAnchor` | backend/extractors/regex_extractor.py:262-343 | The new state is `ParseAnchor` of the old one. |
| `RegexExtractor.TransactionExtractor.IsContinuationLine` | backend/extractors/regex_extractor.py:345-404 | True exactly when the line qualifies as a continuation: no date start, no header, no standalone `$` amount, no stop keyword, an ASCII letter, a word character first. The category state is updated only when the test reaches `update_state`. |
| `RegexExtractor.TransactionExtractor.ProcessLine` | backend/extractors/regex_extractor.py:151-246 | The new state is `ProcessLineView` of the old one: the priority order of `_process_line`. |
| `RegexExtractor.TransactionExtractor.ProcessContentLine` | backend/extractors/regex_extractor.py:176-246 | The date-only, amount-only, pending and single-line branches. |
| `RegexExtractor.TransactionExtractor.CloseStackedTransaction` | backend/extractors/regex_extractor.py:185-227 | The new state is `CloseStacked` of the old one. |
| `RegexExtractor.TransactionExtractor.ProcessSingleLine` | backend/extractors/regex_extractor.py:234-246 | An anchor finalizes the open draft and opens a new one. A continuation extends the open draft. |
| `RegexExtractor.TransactionExtractor.ExtractTransactions` | backend/extractors/regex_extractor.py:89-149 | New state and result are `ExtractView` of the old state and the text. |
| `RegexExtractor.ExtractTransactionsFromText` | backend/extractors/regex_extractor.py:470-481 | The list a fresh extractor returns. |
| `ExtractorProperties.InitialViewIsGood` | backend/extractors/regex_extractor.py:75-87 | A fresh extractor satisfies the invariant: only well-formed transactions, a good draft, `transactions_found` matching the list. |
| `ExtractorProperties.FinalizedDraftIsWellFormed` | backend/extractors/regex_extractor.py:413-430 | A finalized good draft is a well-formed transaction: credit or debit, sign agreeing with type, non-empty stripped description, display equal to `format_amount_display(amount)` and reading back to the amount. |
| `ExtractorProperties.FinalizeCurrentIsGood` | backend/extractors/regex_extractor.py:413-430 | Finalizing keeps the invariant. |
| `ExtractorProperties.CloseStackedIsGood` | backend/extractors/regex_extractor.py:185-227 | Closing a stacked transaction in a section keeps the invariant. |
| `ExtractorProperties.ProcessLineIsGood` | backend/extractors/regex_extractor.py:151-246 | Every line keeps the invariant. |
| `ExtractorProperties.ContentLineIsGood` | backend/extractors/regex_extractor.py:176-246 | The content branches keep the invariant. |
| `ExtractorProperties.SingleLineIsGood` | backend/extractors/regex_extractor.py:234-246 | The anchor and continuation branches keep the invariant. |
| `ExtractorProperties.ProcessLinesIsGood` | backend/extractors/regex_extractor.py:111-118 | The line loop keeps the invariant. |
| `ExtractorProperties.ExtractKeepsInvariant` | backend/extractors/regex_extractor.py:89-149 | After extraction the invariant holds and every returned transaction is well-formed. |
| `ExtractorProperties.ExtractFromTextIsWellFormed` | backend/extractors/regex_extractor.py:470-481 | Every emitted transaction is well-formed. |
| `ExtractorProperties.StepOnlyAppends` | backend/extractors/regex_extractor.py:151-246 | A line never removes or changes an emitted transaction. |
| `ExtractorProperties.ContentLineAppends` | backend/extractors/regex_extractor.py:176-246 | The content branches only append. |
| `ExtractorProperties.SingleLineAppends` | backend/extractors/regex_extractor.py:234-246 | The single-line branches only append. |
| `ExtractorProperties.ProcessLinesOnlyAppends` | backend/extractors/regex_extractor.py:111-118 | The emitted list only grows, keeping its prefix. |
| `ExtractorProperties.IgnoredLinesChangeNothing` | backend/extractors/regex_extractor.py:153-161 | Blank lines and column titles only raise `lines_processed`. |
| `ExtractorProperties.NothingOutsideSections` | backend/extractors/regex_extractor.py:171-173 | Before the first section header no line records or opens anything. |
| `ExtractorProperties.HeaderLineEffect` | backend/extractors/regex_extractor.py:164-168 | A header switches polarity and label, drops the stacked draft, keeps the open anchor and emitted list, and counts one category change. |
| `ExtractorProperties.TitlesAreNoHeaders` | backend/extractors/regex_extractor.py:159-161 | No column title is a section header. |
| `ExtractorProperties.DigitLineIsNoTitle` | backend/extractors/regex_extractor.py:159-168 | A line starting with a digit is neither a column title nor a header. |
| `ExtractorProperties.WordsStartWithLetter` | backend/extractors/financial_rules.py:27-46 | The titles and the header words all start with a letter. |
| `ExtractorProperties.GroupedIntChars` | backend/extractors/regex_extractor.py:185 | A grouped integer is digits and commas, with a digit first. |
| `ExtractorProperties.AmountIsNoDate` | backend/extractors/regex_extractor.py:176-185 | An amount-only line never matches as a date. |
| `ExtractorProperties.DateLineOpensStacked` | backend/extractors/regex_extractor.py:176-182 | Inside a section, a date-only line opens a new stacked draft and discards the previous one. |
| `ExtractorProperties.PendingTakesLine` | backend/extractors/regex_extractor.py:230-232 | While a stacked draft is open, any line that is not a header, title, date or amount is added to its description, even an anchor line. |
| `ExtractorProperties.AmountLineClosesStacked` | backend/extractors/regex_extractor.py:185-227 | An amount-only line closes the open stacked draft. |
| `ExtractorProperties.AmountLineShape` | backend/extractors/regex_extractor.py:159-185 | An amount-only line is no title, header or date, and the amount group captures all of it. |
| `ExtractorProperties.PendingCollects` | backend/extractors/regex_extractor.py:230-232 | Description lines pile up, stripped and in order, while nothing is emitted. |
| `ExtractorProperties.StackedPrefix` | backend/extractors/regex_extractor.py:176-182 | A date line and its description lines leave the date pending with those lines. |
| `ExtractorProperties.StackedClose` | backend/extractors/regex_extractor.py:185-227 | The amount line emits one transaction: the date, with the year added to `MM/DD`; the joined description; the amount signed by polarity. The open anchor stays open, so it is emitted later. |
| `ExtractorProperties.StackedTransaction` | backend/extractors/regex_extractor.py:176-232 | Date line, description lines and amount line together emit exactly that transaction. |
| `ExtractorProperties.ProcessLinesConcat` | backend/extractors/regex_extractor.py:111-118 | Reading `a + b` is reading `a` and then `b`. |
| `ExtractorProperties.AnchorTakesLastAmount` | backend/extractors/regex_extractor.py:275-301 | The anchor's amount is the last `finditer` match after the date, signed by polarity. No amount token follows it. The description is the stripped text before it. |
| `RegexExtractor.NoLetterLIsNeverSkipped` | backend/extractors/regex_extractor.py:311-317 | Every summary keyword contains `l`, so a description without that letter is never skipped as a total or balance. |
| `AnchorExamples.CardPurchaseAmounts` | backend/extractors/regex_extractor.py:73 | In `CHECK CARD PURCHASE STORE #4521 54.23 1200.11`, `finditer` finds only `54.23`. Neither `4521` nor `1200.11` is an amount. |
| `AnchorExamples.CardPurchaseAnchor` | backend/extractors/regex_extractor.py:262-343 | `03/14/2026 CHECK CARD PURCHASE STORE #4521 54.23 1200.11` in a debit section becomes a draft dated `03/14/2026` with description `CHECK CARD PURCHASE STORE #4521` and amount -54.23. |
| `AnchorExamples.DepositAnchor` | backend/extractors/regex_extractor.py:262-343 | `01/15/2024 DIRECT DEPOSIT 6,000.00` in a credit section becomes a draft with description `DIRECT DEPOSIT` and amount +6000.00. |
| `ExtractorProperties.ContinuationAppends` | backend/extractors/regex_extractor.py:245-246 | A continuation line extends the open anchor's description with one space, counts one multi-line merge and emits nothing. |
| `Strptime.DaysInMonth` | backend/validators/financial_validator.py:160-165 | Between 28 and 31. It is 29 exactly for February of a leap year. |
| `Strptime.MonthField` | backend/validators/financial_validator.py:151-158 | `%m`: one or two digits from 1 to 12. |
| `Strptime.DayField` | backend/validators/financial_validator.py:151-158 | `%d`: one or two digits from 1 to 31, or a space and a digit. |
| `Strptime.FullYearField` | backend/validators/financial_validator.py:151-158 | `%Y`: exactly four digits. |
| `Strptime.ShortYearField` | backend/validators/financial_validator.py:151-158 | `%y`: two digits, 69-99 to 19xx and 00-68 to 20xx. |
| `Strptime.Parse` | backend/validators/financial_validator.py:160-165 | Whatever parses is a real calendar date. |
| `Strptime.RoundTrip` | backend/validators/financial_validator.py:151-165 | A date written in a format parses back to itself, with the format's missing fields defaulted. |
| `FinancialValidator.AmountAccepted` | backend/validators/financial_validator.py:169-192 | Zero is rejected unless allowed. There is no upper bound. |
| `FinancialValidator.DescriptionAccepted` | backend/validators/financial_validator.py:194-214 | The stripped description is non-empty and at least `min_description_length` long. |
| `FinancialValidator.TypeAccepted` | backend/validators/financial_validator.py:216-240 | Only `credit` and `debit` pass. A missing category does not matter. |
| `FinancialValidator.TypeChecked` | backend/validators/financial_validator.py:216-240 | A transaction's type passes exactly when it is not Unknown. |
| `FinancialValidator.FirstFailure` | backend/validators/financial_validator.py:53-109 | The checks run date → amount → description → type. The failure reported is the first that fails. None exactly when the transaction is valid. |
| `FinancialValidator.Count` | backend/validators/financial_validator.py:53-109 | `total_validated` goes up by one, and `valid` or `invalid` goes up by one. `total == valid + invalid` and `invalid == sum of kinds` are kept. |
| `FinancialValidator.Verdict` | backend/validators/financial_validator.py:53-109 | True exactly for a valid transaction. Raises exactly in strict mode on a failure, naming that failure. |
| `FinancialValidator.FailureIsFinal` | backend/validators/financial_validator.py:111-133 | Once strict validation raises, later transactions change nothing. |
| `FinancialValidator.ScanConsistent` | backend/validators/financial_validator.py:111-133 | The loop keeps the counter identities. |
| `FinancialValidator.LenientKeepsPassing` | backend/validators/financial_validator.py:111-133 | In lenient mode the result is exactly the passing transactions in order, and every transaction is counted. |
| `FinancialValidator.FirstRejected` | backend/validators/financial_validator.py:111-133 | The index of the first transaction that fails. |
| `FinancialValidator.StrictStopsAtFirstRejected` | backend/validators/financial_validator.py:111-133 | Strict mode raises exactly when some transaction fails. It raises with that first failure, after counting it. Otherwise it returns the whole list. |
| `FinancialValidator.LenientKeepsValid` | backend/validators/financial_validator.py:111-133 | `validate_transactions` returns exactly the valid transactions, as a subsequence. |
| `FinancialValidator.StrictRaisesAtFirstInvalid` | backend/validators/financial_validator.py:111-133 | Everything before the first invalid transaction is valid. The raise carries that transaction's first failing check. |
| `FinancialValidator.ValidateAllConsistent` | backend/validators/financial_validator.py:111-133 | The counter identities hold after any run. |
| `FinancialValidator.FullDatesAccepted` | backend/validators/financial_validator.py:151-167 | Any calendar date written as `%m/%d/%Y`, `%m-%d-%Y` or `%Y-%m-%d` is accepted. |
| `FinancialValidator.SlashedYearFirstRejected` | backend/validators/financial_validator.py:151-167 | `YYYY/MM/DD` is rejected. |
| `FinancialValidator.YearlessLeapDayRejected` | backend/validators/financial_validator.py:151-167 | `02/29` is rejected, since `%m/%d` uses the year 1900. |
| `FinancialValidator.TransactionValidator.constructor` | backend/validators/financial_validator.py:22-51 | It keeps its settings, and all counters start at zero. |
| `FinancialValidator.TransactionValidator.ValidateDate` | backend/validators/financial_validator.py:135-167 | True exactly when a format parses the date. |
| `FinancialValidator.TransactionValidator.ValidateTransaction` | backend/validators/financial_validator.py:53-109 | The counters advance by `Count` and the result is the `Verdict` of the first failure. |
| `FinancialValidator.TransactionValidator.ValidateTransactions` | backend/validators/financial_validator.py:111-133 | New counters and result are `ValidateAll` of the old counters and the list. |
| `FinancialValidator.TransactionValidator.ResetStats` | backend/validators/financial_validator.py:246-256 | All seven counters become zero. |
| `FinancialValidator.ValidateTransactionsWith` | backend/validators/financial_validator.py:259-271 | A default validator in the given mode. |
| `TransactionFilter.FilterByKeyword` | backend/main.py:47-54 | An empty keyword keeps everything. Otherwise it keeps, in order, exactly the transactions whose description contains the keyword, ignoring case, with every copy of each. |
| `Seqs.FilterCounts` | backend/main.py:51-54 | A list comprehension with a condition keeps every copy of a selected element and no copy of the others. |
| `TransactionFilter.FirstMatch` | backend/main.py:87-92 | The index of the first keyword the description mentions, or the number of keywords. |
| `TransactionFilter.MatchedBuckets` | backend/main.py:79-92 | Exactly the keywords are keys. |
| `TransactionFilter.MatchedBucketsAreFilters` | backend/main.py:79-92 | A keyword's bucket holds, in order, the transactions whose first mentioned keyword it is. |
| `TransactionFilter.InMatchedPositions` | backend/main.py:80-90 | `matched_indices` holds exactly the positions of transactions that mention some keyword. |
| `TransactionFilter.FindKeyword` | backend/main.py:87-92 | The inner loop stops at the first match. |
| `TransactionFilter.FileMatched` | backend/main.py:79-92 | The outer loop builds the buckets and the matched positions. |
| `TransactionFilter.CollectUnmatched` | backend/main.py:95-98 | The unmatched list is, in order, the transactions that mention no keyword. |
| `TransactionFilter.FilterByKeywords` | backend/main.py:76-109 | The method returns `{'All': input}` for no keywords, and otherwise the keyword buckets plus `Unmatched` when needed. |
| `TransactionFilter.KeywordBucketsKeys` | backend/main.py:76-101 | Every keyword is a key. The only other key is `Unmatched`, present exactly when some transaction matches none. |
| `TransactionFilter.BucketIsItsTransactions` | backend/main.py:76-101 | Each bucket is exactly its transactions, as a subsequence of the input. |
| `TransactionFilter.BucketsPartition` | backend/main.py:83-101 | With no keyword named `Unmatched`, the bucket sizes sum to the input length. |
| `TransactionFilter.PyIntTwo` | backend/main.py:182 | `int()` of two characters: their value for two digits, and otherwise at most a signed digit. |
| `TransactionFilter.Zfill` | backend/main.py:188 | `str.zfill`: pads with zeros after any sign, up to the width. |
| `TransactionFilter.ShortYearMonth` | backend/main.py:175-188 | A two-digit year maps 00-49 to 20xx and 50-99 to 19xx. The month is zero-padded. |
| `TransactionFilter.BadShortYearNoMonth` | backend/main.py:179-199 | A two-character year that is not a number gives no month. |
| `TransactionFilter.LongYearMonth` | backend/main.py:175-188 | Any other year is kept as written, and the first field is taken as the month. |
| `TransactionFilter.YearlessMonth` | backend/main.py:190-193 | `MM/DD` uses the current year. |
| `TransactionFilter.DashedMonth` | backend/main.py:163-167 | A dashed date not starting with `20` is read like the slashed one. |
| `TransactionFilter.SlashedParts` | backend/main.py:163-164 | A slashed date is read from its three fields. |
| `TransactionFilter.DashedParts` | backend/main.py:166-167 | A dashed date not starting with `20` is read from its three fields. |
| `TransactionFilter.IsoMonth` | backend/main.py:169-171 | A dashed date starting with `20` gives its first seven characters. |
| `TransactionFilter.NoSeparatorNoMonth` | backend/main.py:172-173 | No `/` and no `-` gives no month. |
| `TransactionFilter.WrongPartCountNoMonth` | backend/main.py:195 | More than three slashed fields give no month. |
| `TransactionFilter.FilterByDateRange` | backend/main.py:128-141 | The loop keeps exactly what the range function keeps. |
| `TransactionFilter.DateRangeKeeps` | backend/main.py:128-135 | It keeps, in order, exactly the transactions with a month `m` and `start ≤ m ≤ end` as text, with every copy of each. |
| `TransactionFilter.InvertedRangeKeepsNothing` | backend/main.py:134 | With `end < start` nothing is kept. |
| `TransactionFilter.WiderRangeKeepsMore` | backend/main.py:134 | Widening the range loses nothing. |
| `TransactionGrouper.MonthGroupsAreFilters` | backend/main.py:216-224 | The month keys are non-empty and are exactly the months that occur. Each group is, in order, the transactions of its month. |
| `TransactionGrouper.MonthGroupOf` | backend/main.py:216-224 | The same, for one month. |
| `TransactionGrouper.AddToMonthAt` | backend/main.py:219-221 | A transaction is filed under its own month only. |
| `TransactionGrouper.MonthGroupsComplete` | backend/main.py:216-224 | Every transaction with a month is in that month's group. |
| `TransactionGrouper.GroupByMonth` | backend/main.py:216-224 | The loop builds the month groups. |
| `TransactionGrouper.SplitMonth` | backend/main.py:252-260 | One month's split into deposits and withdrawals. |
| `TransactionGrouper.SplitMonths` | backend/main.py:251-263 | The months with data, each split. |
| `TransactionGrouper.GroupByBankMonthType` | backend/main.py:239-272 | The loops build the bank → month → type nesting. |
| `TransactionGrouper.TypeSplitShape` | backend/main.py:252-260 | Only `deposits` and `withdrawals` keys. Each is present exactly when its list would be non-empty, and is exactly the credits or the debits. |
| `TransactionGrouper.NoEmptyLevels` | backend/main.py:239-272 | No bank, month or type entry is empty. |
| `TransactionGrouper.DepositsAndWithdrawals` | backend/main.py:248-258 | A month's deposits are, in order, the bank's credits of that month. Its withdrawals are the bank's debits of that month. |
| `TransactionGrouper.FiledUnderItsMonth` | backend/main.py:239-272 | A typed transaction with a month is filed under its bank, its month and its type. |
| `TransactionGrouper.OnlyFiledTransactions` | backend/main.py:239-272 | Whatever is filed comes from that bank, has that month and has that type. |
| `PipelineInputs.YearMonthMeans` | backend/main.py:317-321 | `%Y-%m` takes four digits from 0001, a dash, and a month of one or two digits. |
| `PipelineInputs.AcceptedInputs` | backend/main.py:298-330 | The inputs pass exactly when all of these hold: a PDF path that exists; non-blank keywords; two parsable months in order; an output path ending in `.pdf`. |
| `PipelineInputs.FirstFailureReported` | backend/main.py:298-330 | The first failing check's message is the one raised. |
| `PipelineInputs.BlankKeywordRejected` | backend/main.py:307-308 | A blank keyword is rejected. |
| `PipelineInputs.InvertedRangeRejected` | backend/main.py:323-324 | `start_month > end_month` is rejected. |
| `PipelineInputs.PaddedMonthIsFormat` | backend/main.py:317-321 | The padded `YYYY-MM` text is what `%Y-%m` writes. |
| `PipelineInputs.PaddedMonthAccepted` | backend/main.py:317-321 | The padded month passes the format check. |
| `PipelineInputs.PaddedOrderIsChronological` | backend/main.py:323 | For padded months, text order is calendar order. |
| `PipelineInputs.UnpaddedBoundMisordered` | backend/main.py:317-324 | A one-digit month passes the format check, yet sorts after its own zero-padded form. |
| `PipelineInputs.UnpaddedStartDropsItsMonth` | backend/main.py:134 | Such a start bound drops every transaction of the month it names. |
| `PipelineInputs.UnpaddedRangeRejected` | backend/main.py:323-324 | A one-digit start month before a two-digit end month of the same year is rejected as inverted. |
| `PipelineInputs.PaddedRejectsUnpadded` | backend/main.py:316-321 | The corrected check refuses one-digit months. |
| `PipelineInputs.PaddedBoundsAreChronological` | backend/main.py:316-324 | Under the corrected check, passing bounds are in calendar order. A month passes the range comparison exactly when it lies between them in the calendar. |
| `ReportWriter.TruncateDescription` | backend/output/writer.py:627-640 | Unchanged when short enough. Otherwise exactly `max_length` long, keeping the first `max_length - 3` characters and ending in `...`. |
| `ReportWriter.FormatMonthHeading` | backend/output/writer.py:610-624 | Text that is not `YYYY-MM` comes back unchanged. |
| `ReportWriter.PaddedMonthHeading` | backend/output/writer.py:610-624 | `YYYY-MM` becomes the full month name and the year, written as four zero-padded digits. |
| `ReportWriter.RowOf` | backend/output/writer.py:342-347 | The cells are never empty. The description is at most 60 long. Present values are kept. |
| `ReportWriter.CreateTransactionTable` | backend/output/writer.py:311-357 | An empty list gives the placeholder table. Otherwise there is one row per transaction, and the TOTAL cell reads back to the sum of the amounts. |
| `ReportWriter.TotalDisplayReadsBack` | backend/output/writer.py:352-354 | The TOTAL text is the amount display of the sum, and it reads back to the sum to the cent. |
| `ReportWriter.CreateMonthSectionMulti` | backend/output/writer.py:561-607 | Deposits table, then withdrawals table, each only when present and non-empty, then a page break. |
| `ReportWriter.TypeTablePicked` | backend/output/writer.py:581-602 | One type's part holds its table exactly when that type has transactions. |
| `ReportWriter.MonthSectionTables` | backend/output/writer.py:561-607 | A month's tables come in deposits-then-withdrawals order, with one page break. |
| `ReportWriter.CreateMonthSections` | backend/output/writer.py:542-544 | The months of a bank in sorted order. |
| `ReportWriter.MonthSectionsPicked` | backend/output/writer.py:542-544 | The tables come month by month in sorted order, with one page break per month. |
| `ReportWriter.CreateBankSection` | backend/output/writer.py:514-559 | The spacer, the months, the last page break removed, then totals and a page break. |
| `ReportWriter.BankSectionLayout` | backend/output/writer.py:514-559 | A bank's tables in month order, one totals table for that bank, one page break per month, and the closing. |
| `ReportWriter.BankOrder` | backend/output/writer.py:212-214 | Lists exactly the banks. |
| `ReportWriter.BankOrderLists` | backend/output/writer.py:212-214 | Each bank once: the others in sorted order, then `Unmatched` last if present. |
| `ReportWriter.CreateBankSections` | backend/output/writer.py:216-220 | The banks' sections in that order, skipping empty banks. |
| `ReportWriter.BankSectionsTotals` | backend/output/writer.py:216-220 | One totals table per non-empty bank, in bank order. |
| `ReportWriter.MultiBankBodyTotals` | backend/output/writer.py:205-220 | The body's totals follow the bank order, skipping empty banks. |
| `ReportWriter.MultiBankTotalsOrder` | backend/output/writer.py:195-220 | The story starts with the header. It holds one totals table per non-empty bank, in bank order. With no data it says that nothing was found. |
| `ReportWriter.GenerateMultiBankReport` | backend/output/writer.py:157-243 | A missing dictionary raises before any output. Otherwise the story is built. |
| `ReportWriter.GeneratePdfReport` | backend/output/writer.py:643-669 | The same as the multi-bank report. |
| `ReportWriter.CreateHeader` | backend/output/writer.py:245-273 | Seven elements, starting with the title. |
| `ReportWriter.CreateMonthSection` | backend/output/writer.py:275-309 | One month's heading and table. |
| `ReportWriter.MonthSectionHeading` | backend/output/writer.py:275-309 | A month section has exactly one heading, its own. |
| `ReportWriter.CreateDatedSections` | backend/output/writer.py:130-134 | The month sections in sorted order, skipping empty months. |
| `ReportWriter.DatedSectionsHeadings` | backend/output/writer.py:130-134 | The headings are those of the non-empty months, in sorted order. |
| `ReportWriter.HeaderHasNoHeadings` | backend/output/writer.py:245-273 | The header holds no month heading. |
| `ReportWriter.StoryHeadings` | backend/output/writer.py:119-134 | The story's headings are its non-empty months, in sorted order. |
| `ReportWriter.ReportHeadingsOrder` | backend/output/writer.py:119-134 | The same, with the real header. |
| `ReportWriter.GenerateReport` | backend/output/writer.py:70-155 | None raises before any output. Otherwise the story is header and sections. |
| `Ordering.SortedStrings` | backend/output/writer.py:130 | `sorted()` of a set of strings: strictly increasing and listing exactly the set. |
| `Config.RoundHalfEven` | backend/config.py:82-83 | The nearest integer to the quotient, ties to even. |
| `Config.MegabytesText` | backend/config.py:82-83 | Two decimals after a point. |
| `Config.WholeMegabytes` | backend/config.py:82-83 | A whole number of megabytes shows `.00`. |
| `Config.MegabytesTextReadsBack` | backend/config.py:82-83 | The text is a digit run, a point and two digits. Read back, it is the size in megabytes rounded half-to-even to two decimals. |
| `Config.ValidateFile` | backend/config.py:69-89 | Valid exactly when there is no message. |
| `Config.FirstFailure` | backend/config.py:77-89 | No message exactly when every check passes. Otherwise the message of the first check that fails. |
| `Config.ValidateFileIsFirstFailure` | backend/config.py:69-89 | The checks run type → size → empty. A file passes exactly when it ends in `.pdf` in any case, is not over the limit and is not empty. |
| `Config.ExtensionCaseIgnored` | backend/config.py:77-78 | `.PDF` and `.pdf` are judged alike. |
| `Config.NegativeSizePasses` | backend/config.py:81-87 | A negative size is not rejected. |

## Left out

- PDF text loading, the HTTP API, the Streamlit UI, logging and files on disk are left out, because they are I/O. Also left out: `BankStatementExtractor.process` and `main()`, which only chain the modelled stages with file loading.
- Report rendering is left out: reportlab styles, `Table`/`TableStyle` layout, `doc.build` and directory creation. Tables are modelled by their context line, their rows and their TOTAL cell, with the sum in integer cents.
- The float sums in the month totals and bank totals tables are left out. They appear only as placeholder elements.
- The write-error `try`/`except` paths of the report writers are left out, because they concern the file system.
- Amounts are integer cents, not floats. Commas are dropped when parsing.
- FormatAmountDisplay: integers have no `-0.0`, so a zero debit shows `+0.00`. Python's `-abs(0.0)` would give `+-0.00`.
- `datetime.now()` is left out. The current year and the report's timestamp text are parameters.
- `str.lower`, `\w` and `[a-zA-Z]` are modelled over ASCII only, because the model has no Unicode tables.
- `\d` and `int()` are modelled as ASCII digits only. Python also accepts other Unicode decimal digits. This affects the date and amount matchers, the `Strptime` fields and `TransactionFilter.PyIntTwo`.
- The regular expressions are hand-written matchers for the patterns the extractor uses. There is no general regex engine.
- ReportWriter.FormatMonthHeading: `%B` is taken in the C locale (English month names).
- ReportWriter.FormatMonthHeading: `%Y` is written as four zero-padded digits, as `Strptime` writes it. This is the CPython behaviour on platforms that pad the year; a C library that writes years below 1000 unpadded (`999` instead of `0999`) is not modelled.
- The exception handlers around each line in `extract_transactions` and around each row in `_create_transaction_table` are left out. No modelled operation raises on typed input.
- The `isinstance` checks are not modelled, because Dafny's types already give every argument its declared type. A `None` dictionary in the report writers is modelled by `Option`.
- Python dict insertion order is not modelled; maps are unordered. Every place that orders keys does so through `sorted`, which is modelled.
- MegabytesText: exact only for sizes below 2^53 bytes, where the float division is exact.
- The environment-variable settings of `Config` are constants at their defaults.
- `CategoryState.get_state`, `get_category` and `get_history` are plain field reads. They are functions without contracts.
- TransactionFilter.BucketsPartition: assumes no keyword is literally `Unmatched`. Otherwise the source overwrites that keyword's bucket with the unmatched list.

## Findings

| source | as written | input that shows it | evidently intended | confidence | as-written member | corrected member |
|---|---|---|---|---|---|---|
| backend/main.py:317-324 | `strptime(month, '%Y-%m')` also accepts a one-digit month. The bounds are then compared as text with the zero-padded months `_extract_month` produces. | `start_month = "2025-9"`, `end_month = "2025-10"` is rejected as inverted. `start_month = "2025-1"` drops every transaction dated in January 2025, whose month is `"2025-01"`. | Accept only zero-padded `YYYY-MM`, so that text order is calendar order. | not executed | `PipelineInputs.UnpaddedRangeRejected`, `PipelineInputs.UnpaddedStartDropsItsMonth` | `PipelineInputs.PaddedBoundsAreChronological` |

Two readings of a two-digit year also disagree. The validator's `%y` maps 00-68 to 20xx. `_extract_month` maps only 00-49 to 20xx (backend/main.py:179-186). So `01/15/55` is validated as 2055 and grouped under 1955-01. `Strptime.ShortYearField` and `TransactionFilter.ShortYearMonth` state the two mappings.
