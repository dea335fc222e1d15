# pdf-aggregator in Dafny

pdf-aggregator reads bank statements (PDF files) and collects the balances and
operations they mention into a JSON ledger of accounts. Bank-specific
configuration files ("confs") describe how to do this with regular expressions.
The plotting side then reads that ledger back and resolves each account's
balance over time.

This project models the pure logic beneath the PDF, matplotlib and command-line
plumbing:

- **Matching confs to a document.** A conf applies when every mandatory pattern
  it defines is found in the document's text.
- **Extracting fields from the text.** The account comes from the first match.
  The amounts and the date come from the last match, with separators deleted,
  formatted through a `str.format` template and parsed.
- **Accumulating the ledger.** Each record is written under the id
  `bank-name-account`. The ledgers of several files are merged by a recursive
  `update`, and date keys are rewritten to and from ISO strings around JSON.
- **The balance timeline.** An account's amounts are scaled by its share, or
  rebuilt from its operations by a running sum. They are looked up step-wise or
  interpolated, can be reset every January 1st, and several accounts can be
  aligned on a common set of dates.

The package (`aggregator/aggregate.py`, `aggregator/plot.py`) is the main
subject. The three root-level scripts are modelled as siblings, because their
behaviour differs from the package:

- `aggregate.py` and `aggregate_accounts.py` take the first matching conf,
  strip whitespace from the account, read credits with a decimal comma and keep
  only balances.
- `plot.py` looks balances up step-wise and applies no account-type defaults.

Modules:

| module | covers |
|---|---|
| `Results`, `Values` | exceptions as `Result`; Python values and dicts (`map<Key, Value>`, keys are names or dates); `get`, `pop`, `update` |
| `Dates` | `datetime.date` as validated triples; `toordinal`, `toTimestamp`, `replace(month=1, day=1)`, `- timedelta(days=1)`, `isoformat` |
| `Patterns` | the regex, `float` and `dateutil` oracles; `search` and `findall` over alternative patterns; how a `findall` item unpacks |
| `Template` | the subset of `str.format` the package uses: literals, `{{`/`}}`, `{}` and `{n}` fields |
| `Matching` | `parse_pdf`'s parser lookup, `is_valid_conf`, `find_confs` |
| `Extraction` | `extract_pattern`, `parse_bank_extract` of the package |
| `Ledger` | the account id, writing a dated cell, the recursive `update` |
| `Aggregation` | `aggregate_pdf` and `aggregate_pdfs` of the package |
| `Json` | `toJSON.replace_keys` and `fromJSON.replace_keys`, and their round trip |
| `Scripts` | the parts the two root aggregation scripts share: `find_conf`, the account, amount and ledger steps |
| `RootAggregate` | `aggregate.py`'s `find_conf`, `aggregate_pdf`, `aggregate_pdfs` |
| `AccountsExtract` | `aggregate_accounts.py`'s `parse_bank_extract` and `extract` |
| `Timeline` | `get_account_properties`, `get_balance_exact`, `get_balance`, `get_yearly_balance`, `get_account_balances` |
| `Portfolio` | `get_account_balance`, `get_accounts_balances`, `filter_accounts`, `group_accounts` |
| `RootPlot` | `plot.py`'s `get_account_balance` |

Some source functions are the same code in several files, and each is modelled
once:

- The root scripts' `search`, `findall`, `update` and `toJSON` are
  `Patterns.Search`, `Patterns.FindAll`, `Ledger.Update` and `Json.ToJson`.
- The date step of the scripts is `Extraction.DateStage`.
- `plot.py`'s `fromJSON` is `Json.FromJson`.
- `plot.py`'s `get_account_properties` is `Timeline.AccountEntry`: one
  redirection and no type defaults. The package adds the defaults in
  `Timeline.Properties`.

Documented quirks of the code are modelled as they are written:

- The `bank-name` guard never rejects a conf.
- A single-group match is unpacked character by character.
- `'account' in locals()` sees an account bound by an earlier conf.
- Account ids can collide.
- Dicts nested in metadata break `update`.
- `aggregate.py` refers to an undefined `pdf_path`: when no conf fits, and,
  with a positive verbosity, before storing any balance.

## Model

| member | source | states |
|---|---|---|
| Values.Pop | aggregator/aggregate.py:140-141 | the key is gone and every other key keeps its presence and value |
| Values.Assign | aggregator/aggregate.py:257 | `dict.update`: keys are the union, the update's values win, the other keys keep theirs |
| Dates.TimestampOrder | aggregator/plot.py:103-104 | timestamps order dates exactly as date comparison does (both directions), and equal timestamps mean equal dates |
| Dates.FirstOfYear | aggregator/plot.py:148 | January 1st of the same year, not after the day, and equal to it exactly on January 1st |
| Dates.LastOfPreviousYear | aggregator/plot.py:198-199 | exists exactly when the year is after 1; it lies in the previous year, before January 1st |
| Dates.DayBeforeNewYear | aggregator/plot.py:199 | subtracting `timedelta(days=1)` from January 1st gives the calendar day exactly one ordinal earlier |
| Dates.IsoFormat | aggregator/aggregate.py:297 | `isoformat()` is ten characters with dashes at positions 4 and 7 |
| Dates.IsoFormatInjective | aggregator/aggregate.py:296-297 | distinct dates have distinct ISO strings, so rewriting date keys never merges two of them |
| Patterns.SearchAlternatives | aggregator/aggregate.py:60-69 | None exactly when every alternative misses; otherwise the groups of the first alternative that matches; a non-string alternative reached first raises TypeError |
| Patterns.FindAllAlternatives | aggregator/aggregate.py:71-80 | None exactly when every alternative finds nothing; otherwise the non-empty list of the first alternative that finds something; non-string alternatives raise |
| Patterns.BarePattern | aggregator/aggregate.py:65-69 | a pattern that is not a list behaves as the one-element list of it |
| Patterns.Unpack | aggregator/aggregate.py:131-134 | a tuple match yields its groups, and a plain-string match yields its characters one by one |
| Matching.BankNameGuardNeverRejects | aggregator/aggregate.py:99-100 | the chained `"bank-name" not in conf is None` is false for every conf |
| Matching.ParserName | aggregator/aggregate.py:94-95 | the conf's `parser` string, the default when it is missing or None, and none for any other value |
| Matching.ConfText | aggregator/aggregate.py:84-95 | raises TypeError for a parser that is not a string or None; otherwise None for a file that is not a PDF; for a PDF, AttributeError for a parser name the package does not define, and that parser's text otherwise |
| Matching.AllFound | aggregator/aggregate.py:104-106 | true exactly when every mandatory pattern the conf defines is found; raises exactly when one of the searches raises |
| Matching.IsValidConfMeaning | aggregator/aggregate.py:97-112 | `is_valid_conf` is true exactly when the text is non-empty and every defined mandatory pattern matches, and raises exactly when reading the text with the conf's parser raises or a search raises |
| Matching.UnknownParserRaises | aggregator/parsers.py:5-6 | a conf naming a parser the package does not define makes trying it on a PDF raise AttributeError |
| Matching.EmptyTextRejected | aggregator/aggregate.py:101-103 | a document without text is rejected before any search |
| Matching.AllConfs | aggregator/aggregate.py:116-119 | exactly the confs of the readable conf files (order and repeats: the two rows below) |
| Matching.AllConfsAppend | aggregator/aggregate.py:116-119 | the confs of two runs of conf files are the first run's confs followed by the second's, in file order with repeats kept |
| Matching.AllConfsOfOne | aggregator/aggregate.py:117-118 | one readable file contributes its confs in their own order; an unreadable one contributes none |
| Matching.SelectConfs | aggregator/aggregate.py:118-121 | keeps exactly the confs that apply, never more than given; raises exactly when trying some conf raises (order: the rows below) |
| Matching.SelectConfsOne | aggregator/aggregate.py:119-121 | one conf: raises exactly when trying it raises, with that error; otherwise the list holding it when it applies and the empty list when not |
| Matching.SelectConfsCons | aggregator/aggregate.py:118-121 | trying a conf and then the rest gives that conf's outcome followed by the rest's, the first error winning |
| Matching.SelectConfsAppend | aggregator/aggregate.py:118-121 | selecting from `a + b` is selecting from `a` followed by selecting from `b`: input order kept, the first error winning |
| Matching.CollectConfs | aggregator/aggregate.py:114-121 | the confs of all files that apply; raises exactly when a file is unreadable or a conf raises (order: the rows below) |
| Matching.CollectConfsCons | aggregator/aggregate.py:116-121 | a readable first file's applying confs come before those of the later files |
| Matching.CollectConfsUpTo | aggregator/aggregate.py:116-121 | over a readable prefix, the result is the selection from the prefix's confs in file order followed by the rest's result |
| Matching.CollectConfsAllReadable | aggregator/aggregate.py:114-121 | when every file is readable, the result is the selection, in order, from all the files' confs joined in file order |
| Matching.CollectConfsStopsAtUnreadable | aggregator/aggregate.py:116-117 | the first unreadable file raises AttributeError, unless a conf of an earlier file raised first |
| Matching.FindConfsIgnoresVerbosity | aggregator/aggregate.py:122-124 | the verbose retry finds the same confs, in the same order, as a plain pass, which are exactly the confs that apply |
| Template.Format | aggregator/aggregate.py:138 | `str.format`: for a template that parses, the rendering of its pieces, with that rendering's error; a template that does not parse raises |
| Template.FormatParsed | aggregator/aggregate.py:138 | substituting fields while reading the template agrees with parsing it whole and then rendering, from any numbering state; a malformed template raises either way |
| Template.FieldRaisesBeforeBrace | aggregator/aggregate.py:138 | `"{}x}".format()` raises IndexError for its field, although the stray `}` after it makes the template malformed |
| Template.ParseUnparse | aggregator/aggregate.py:138 | every sequence of literals and fields is parsed back from its template text, escapes included |
| Template.DefaultAmountFormat | aggregator/aggregate.py:136-138 | the guessed template joins all groups but the last, then a point, then the last group; one group passes through |
| Template.FormatSingleField | aggregator/aggregate.py:154-155 | `"{}".format(*args)` is the first argument and raises IndexError without arguments |
| Template.FormatReversedDate | aggregator/aggregate.py:215 | `"{2}-{1}-{0}"` gives the third, second and first group joined by dashes; fewer than three groups raise IndexError |
| Template.FormatPointPair | aggregate.py:127 | `"{}.{}"` joins the first two groups with a point; fewer than two raise IndexError |
| Extraction.Remove | aggregator/aggregate.py:134 | the result holds no deleted character, is no longer than the input, and equals it when nothing is deleted |
| Extraction.RemoveAppend | aggregator/aggregate.py:134 | deleting characters distributes over concatenation |
| Extraction.CleanExample | aggregator/aggregate.py:133-134 | the captures "1 234" and "56" clean to "1234" and "56" |
| Extraction.TemplateOf | aggregator/aggregate.py:138 | the conf's `-value` string, or the default when absent; raises exactly when the value is not a string |
| Extraction.ParseNumber | aggregator/aggregate.py:139 | succeeds exactly when `float` accepts the string, with its value |
| Extraction.ParseDay | aggregator/aggregate.py:216 | succeeds exactly when the date parser accepts the string, with its date |
| Extraction.Amount | aggregator/aggregate.py:128-139 | None exactly when `findall` finds nothing; a conf without the pattern makes `re.findall(None, …)` raise TypeError |
| Extraction.ExtractPattern | aggregator/aggregate.py:126-142 | whatever is found, `<name>-pattern` and `<name>-value` are removed from `data` and every other key is kept |
| Extraction.OnlyLastMatchCounts | aggregator/aggregate.py:131 | two texts whose last matches agree give the same amount |
| Extraction.GuessedAmount | aggregator/aggregate.py:134-139 | with several groups and no template, the parsed string is the cleaned groups joined, with a point before the last |
| Extraction.AmountExample | aggregator/aggregate.py:134-139 | ("1 234", "56") becomes 1234.56 |
| Extraction.SingleGroupSplitsCharacters | aggregator/aggregate.py:132-136 | a single-group match of digits is split into characters, so its last digit becomes the fraction |
| Extraction.SingleGroupExample | aggregator/aggregate.py:132-136 | "1234" captured by one group is parsed as "123.4" |
| Extraction.AccountStage | aggregator/aggregate.py:151-160 | touches only the account keys; consumes the pattern keys; `account` is set exactly when it was already there or the search matched |
| Extraction.AccountFromFirstGroup | aggregator/aggregate.py:152-155 | without `account-value` the account is the first group; a match without groups raises IndexError |
| Extraction.AmountStage | aggregator/aggregate.py:163-191 | touches only the amount keys, and is the identity without balance and credit patterns |
| Extraction.BalanceWins | aggregator/aggregate.py:163-174 | with `balance-pattern` the balance is what that pattern finds, the credit and debit are ignored, and its keys are consumed |
| Extraction.CreditStored | aggregator/aggregate.py:180-185 | a credit found is stored positive as the balance, and the debit keys are dropped unread |
| Extraction.DebitNegated | aggregator/aggregate.py:186-191 | when the credit finds nothing, a debit found is stored negated and the credit keys are dropped |
| Extraction.OperationStage | aggregator/aggregate.py:208-211 | touches only the operation keys; an operation found is stored under `operation`, and its pattern keys are consumed |
| Extraction.DateStage | aggregator/aggregate.py:212-220 | touches only the date keys; consumes them; `date` is set exactly when it was there or the pattern found something |
| Extraction.DateFromLastMatch | aggregator/aggregate.py:213-216 | day, month and year groups of the last match give the date parsed from "year-month-day" |
| Extraction.ParseBankExtractKeepsOtherKeys | aggregator/aggregate.py:148-224 | every conf key that no step touches reaches the record with its value, and no other key appears |
| Extraction.ParseBankExtractConsumesPatterns | aggregator/aggregate.py:148-224 | `bank-pattern` is always dropped, and every step that runs consumes its pattern and value keys |
| Ledger.AccountId | aggregator/aggregate.py:240 | the bank name, a dash and the account; KeyError without a bank name, TypeError on a non-string |
| Ledger.AccountIdsCanCollide | aggregator/aggregate.py:240 | ("A-B", "C") and ("A", "B-C") share the id "A-B-C" |
| Ledger.DateKey | aggregator/aggregate.py:242-244 | a date becomes a date key; a list or dict is unhashable and raises TypeError |
| Ledger.WriteCell | aggregator/aggregate.py:242-244 | the cell at the key holds the value, every other cell and section is unchanged, and the shape of the ledger is kept |
| Ledger.MergeValue | aggregator/aggregate.py:272-276 | a non-dict value replaces; only KeyError or TypeError can be raised |
| Ledger.Update | aggregator/aggregate.py:270-277 | keys are the union; untouched keys keep their values; non-dict values of the update win; succeeds exactly when every item merges |
| Ledger.UpdateAtKey | aggregator/aggregate.py:272-276 | each updated key holds the merge of its old and new value |
| Ledger.MergeIntoDict | aggregator/aggregate.py:273-274 | merging a dict into a dict, or into a created entry, updates its fields recursively |
| Ledger.UpdateLastWriteWins | aggregator/aggregate.py:270-277 | every non-dict value of the update is found at its path in the result |
| Ledger.UpdateFrame | aggregator/aggregate.py:270-277 | a path the update does not reach keeps its value |
| Aggregation.ParseFileOfApplicable | aggregator/aggregate.py:144-146 | a selected conf's record is parsed from the text the conf's parser gives |
| Aggregation.Touch | aggregator/aggregate.py:241 | reading `accounts[id]['account']` creates the account and changes no section |
| Aggregation.WriteAmount | aggregator/aggregate.py:237-254 | writes the amount at the record's date in the account's section, binds `account`, removes the amount from the record, and leaves every other cell alone |
| Aggregation.MergeMetadata | aggregator/aggregate.py:255-257 | the bound account's metadata is updated with the rest of the record, and nothing else changes |
| Aggregation.Record | aggregator/aggregate.py:234-258 | an undated record changes nothing; raises exactly when a writing record has a bad id or date; keeps the ledger's shape; the written account becomes the bound one |
| Aggregation.RecordWritesBalance | aggregator/aggregate.py:237-245 | a dated balance lands in the account's `balances` at its date |
| Aggregation.RecordWritesOperation | aggregator/aggregate.py:246-254 | a dated operation lands in the account's `operations` at its date |
| Aggregation.RecordFrame | aggregator/aggregate.py:234-258 | apart from the record's cells and the bound metadata, every section is unchanged |
| Aggregation.RecordMetadata | aggregator/aggregate.py:245-257 | the bound metadata is updated with the record minus its date and amounts |
| Aggregation.LocalsQuirk | aggregator/aggregate.py:255-257 | a dated record without amounts is merged into the metadata of the account an earlier conf bound |
| Aggregation.Accumulate | aggregator/aggregate.py:232-261 | on success every record parsed; the ledger's shape is kept and its accounts only grow |
| Aggregation.AccumulateSplit | aggregator/aggregate.py:232-261 | the loop over the confs is the loop over a prefix, then the loop over the rest from the ledger the prefix left |
| Aggregation.AccumulateLast | aggregator/aggregate.py:232-261 | the last conf's record is stored last, into the ledger the confs before it built |
| Aggregation.AccumulateStopsAt | aggregator/aggregate.py:232-261 | a conf whose record cannot be parsed or stored makes the loop raise |
| Aggregation.AccumulateLastBalance | aggregator/aggregate.py:232-245 | the balance of the last conf's record is in the ledger at its date |
| Aggregation.AccumulateEmpty | aggregator/aggregate.py:232-262 | the ledger stays empty exactly when it started empty and no record writes |
| Aggregation.AggregatePdf | aggregator/aggregate.py:226-265 | raises when finding the confs raises; a result is always a dict of dicts |
| Aggregation.AggregatePdfSingleConf | aggregator/aggregate.py:226-265 | a file one conf fits succeeds exactly when that conf's record is parsed and stored, and its ledger is that record stored into an empty ledger |
| Aggregation.AggregatePdfRecordRaises | aggregator/aggregate.py:232-258 | a conf whose record has no usable account id or date makes the whole file raise |
| Aggregation.AggregatePdfLastBalance | aggregator/aggregate.py:232-245 | the file's ledger holds the last applicable conf's balance at its date, whatever earlier confs wrote there |
| Aggregation.SkippedMeaning | aggregator/aggregate.py:262-264 | "skipped" is reported exactly when no selected conf yields a dated record with a balance or an operation |
| Aggregation.Ledgers | aggregator/aggregate.py:280-284 | one outcome per file, in walk order, each that file's `aggregate_pdf` |
| Aggregation.MergeAll | aggregator/aggregate.py:279-290 | succeeds only when every file did, and any file's exception aborts the batch |
| Aggregation.AggregatePdfs | aggregator/aggregate.py:268-290 | the batch succeeds only when every file does, and an exception in any file aborts it |
| Aggregation.MergeAllAccounts | aggregator/aggregate.py:279-285 | the batch holds exactly the accounts of the files' ledgers |
| Aggregation.MergeFlatSection | aggregator/aggregate.py:272-276 | a section without nested dicts merges into a dict, or into an entry the defaultdict creates |
| Aggregation.MergeFlatLedger | aggregator/aggregate.py:270-285 | merging a ledger of the shape `aggregate_pdf` builds never raises |
| Aggregation.NestedMetadataRaises | aggregator/aggregate.py:273-274 | a dict nested in an account's metadata raises KeyError when merged into a ledger lacking it |
| Aggregation.LastFileWins | aggregator/aggregate.py:280-285 | a value the last file records is the one the batch holds |
| Aggregation.LastFileFrame | aggregator/aggregate.py:280-285 | what the last file does not reach keeps the value the earlier files gave it |
| Json.ToJson | aggregator/aggregate.py:293-302 | one string key per key: dates become ISO strings |
| Json.FromJson | aggregator/plot.py:25-39 | the keys are the parsed keys: a string the date parser accepts becomes a date |
| Json.RoundTripKeys | aggregator/plot.py:25-39 | reading the written ledger gives back exactly its keys |
| Json.RoundTripValues | aggregator/plot.py:25-39 | every key survives the round trip with its value |
| Json.FromJsonInvertsToJson | aggregator/plot.py:24-47 | `fromJSON` inverts `toJSON`, a read-back date key taken as its calendar day, whenever the date parser reads ISO dates back and rejects every name key |
| Scripts.FirstConf | aggregate.py:93-100 | None exactly when no conf fits; otherwise the first that fits, all before it not fitting; a raising search ends the loop |
| Scripts.FirstConfIn | aggregate.py:91-107 | a conf found is one of the files' confs and fits; None means every file was read and no conf fits; an unreadable first file raises |
| Scripts.FirstConfInSkips | aggregate.py:91-100 | files that are read and hold no fitting conf are passed over without effect |
| Scripts.FirstConfInAt | aggregate.py:91-100 | after files without a fit, an unreadable file raises AttributeError, and a file holding a fit (or a raising search) decides the result as its first fit |
| Scripts.NoFitMeansNone | aggregate.py:91-107 | when every file is readable and no conf fits, the result is None |
| Scripts.ReplaceChar | aggregate.py:136 | same length, each occurrence of the character replaced and the rest kept |
| Scripts.StrippedAccountStage | aggregate.py:114-121 | the account is a string without whitespace; pattern keys consumed; no match and no `account` key raise KeyError |
| Scripts.CreditAmount | aggregate.py:136 | a plain match with whitespace deleted and ',' turned into '.' is parsed; a tuple match raises TypeError |
| Scripts.DropCreditDebit | aggregate.py:145-148 | exactly the four credit and debit keys are removed |
| Scripts.ScriptAmountStage | aggregate.py:124-148 | touches only the amount keys; the balance keys, or all four credit and debit keys, are consumed |
| Scripts.BalanceDefaultTemplate | aggregate.py:127-128 | without `balance-value` two groups read as "integer.fraction" with whitespace deleted; fewer raise IndexError |
| Scripts.ScriptBalanceWins | aggregate.py:124-128 | with `balance-pattern` the balance is the amount of its last match |
| Scripts.ScriptCreditStored | aggregate.py:133-136 | a credit found is the balance, whatever the debit pattern would find |
| Scripts.ScriptDebitNegated | aggregate.py:137-140 | a debit is read only when the credit finds nothing, and is stored negated |
| Scripts.CreditCommaExample | aggregate.py:136 | "1 234,56" is parsed as "1234.56" |
| Scripts.RecordBalance | aggregate.py:176-186 | only a record with a date and a balance is stored, raising exactly on a bad id or date; the account gains `balances` and `account` |
| Scripts.OperationsIgnored | aggregate.py:176 | a record with an operation but no balance leaves the ledger as it is |
| Scripts.RecordBalanceWrites | aggregate.py:176-186 | the balance is at its date, the other keys update the metadata, and no other section changes |
| RootAggregate.FindConf | aggregate.py:87-107 | None for a file without text; a conf found fits the text; None for a text means no conf fits |
| RootAggregate.FindConfFirstFit | aggregate.py:91-100 | for a file with text, the first file holding a fit gives its first fitting conf, and an unreadable file reached first raises |
| RootAggregate.FindConfNoFit | aggregate.py:91-107 | for a file with text, all conf files readable and no conf fitting give None |
| RootAggregate.AggregatePdf | aggregate.py:166-187 | no conf raises NameError, and an error finding the conf is passed on; a ledger has at most one account, of the shape defaultdicts give |
| RootAggregate.VerboseStoresNothing | aggregate.py:176-178 | with a positive verbosity a file that does not raise leaves an empty ledger, the one verbosity 0 gives |
| RootAggregate.VerboseReportRaises | aggregate.py:176-178 | a file whose ledger is not empty at verbosity 0 raises NameError at any positive verbosity |
| RootAggregate.RecordIntoEmpty | aggregate.py:176-186 | a record stored in a fresh ledger gives accounts holding only metadata and balances |
| RootAggregate.NoOperations | aggregate.py:166-187 | the script's ledger never holds operations |
| RootAggregate.Ledgers | aggregate.py:201-204 | one `aggregate_pdf` outcome per walked file, in order |
| RootAggregate.AggregatePdfs | aggregate.py:189-207 | succeeds only when every file does; any file's exception aborts |
| RootAggregate.UnmatchedFileAborts | aggregate.py:173-174 | a walked file without text, or one no conf fits, aborts the batch |
| AccountsExtract.ParseText | aggregate_accounts.py:96-151 | None exactly when no conf fits; otherwise the record of the first conf that fits |
| AccountsExtract.ParseTextFirstFit | aggregate_accounts.py:79-99 | when the first fit over the files is conf `c`, the result is the record parsed with `c`, and fails exactly when that parse fails |
| AccountsExtract.ParseTextNoFit | aggregate_accounts.py:79-99 | all conf files readable and no conf fitting give None |
| AccountsExtract.ExtractFile | aggregate_accounts.py:157-175 | files without text and texts no conf fits leave the ledger as it is; its shape is kept |
| AccountsExtract.Extract | aggregate_accounts.py:153-177 | the result is a dict of dicts |
| AccountsExtract.LaterFileOverwrites | aggregate_accounts.py:166-175 | the balance the last file records is the one the ledger holds, and no other account's balances change |
| Timeline.SortedDays | aggregator/plot.py:173 | the keys of a SortedDict are strictly ascending and exactly the keys of the dict |
| Timeline.AscendingUnique | aggregator/plot.py:173 | a set of dates has exactly one ascending order |
| Timeline.Bisect | aggregator/plot.py:114 | `bisect_right`: the keys before the index are not after the day, those from it are after it |
| Timeline.BisectFloor | aggregator/plot.py:114-117 | the key just before the bisection point is the greatest key not after the day |
| Timeline.ExactBalance | aggregator/plot.py:111-118 | IndexError exactly on an empty SortedDict; 0 before the first key; the amount at the greatest key not after the day; the last amount after the end |
| Timeline.StampsIncrease | aggregator/plot.py:107-108 | the timestamps of ascending dates strictly increase |
| Timeline.LinearInterp | aggregator/plot.py:137 | `numpy.interp` with left 0: 0 before the first point, the last amount from the last point on, the amount itself at a sample point |
| Timeline.LinearInterpBetween | aggregator/plot.py:137 | between two sample points the line stays between their amounts |
| Timeline.Resolve | aggregator/plot.py:130-137 | PCHIP is used only inside the range of more than three points, so the boundary cases and the knots of three or fewer points are the linear ones |
| Timeline.Interpolate | aggregator/plot.py:120-137 | 0 before the first date, the last amount after the last date, and a known day's amount with three or fewer dates |
| Timeline.KnownDay | aggregator/plot.py:129-137 | with an interpolator through its knots, a known day's amount is returned for any number of dates |
| Timeline.Balance | aggregator/plot.py:120-137 | raises ValueError exactly on an empty SortedDict, and otherwise interpolates |
| Timeline.YearlyBalance | aggregator/plot.py:147-150 | 0 on January 1st; the full balance when the year starts before the first date |
| Timeline.TypeDefaults | aggregator/plot.py:58-89 | in the table as the package defines it, no type sets `share`; only crowd-funding sets `input`; unknown types have no defaults |
| Timeline.PackageDefaults | aggregator/plot.py:58-89 | the package's table has exactly the seven types, each with the defaults listed for it |
| Timeline.WithInputs | aggregator/plot.py:462-464 | each type given a truthy input reads that input and keeps its other defaults; the other types are unchanged; a type the table lacks raises KeyError |
| Timeline.NoShareKept | aggregator/plot.py:58-89 | the package's table sets no `share`, and overriding inputs keeps it so |
| Timeline.DefaultsOf | aggregator/plot.py:99 | a string type gives its defaults in the table, `{}` when the table lacks it; a list or dict is unhashable and raises TypeError |
| Timeline.Lookup | aggregator/plot.py:95 | `.get` on a dict gives the entry or the default; on anything else it raises AttributeError |
| Timeline.AccountEntry | aggregator/plot.py:95-97 | an unknown id gives `{}`; an own dict is used; a string follows one redirection |
| Timeline.Properties | aggregator/plot.py:91-101 | an empty entry is returned as is; otherwise the entry's keys plus its type's defaults, with the entry's own values winning and the defaults filling the rest |
| Timeline.UnknownAccount | aggregator/plot.py:95-101 | an unknown id has empty properties |
| Timeline.DefaultShare | aggregator/plot.py:169 | with a table that sets no `share`, an entry without `share` scales by 1 |
| Timeline.Share | aggregator/plot.py:169 | the `share` number, 1 when absent |
| Timeline.Scaled | aggregator/plot.py:173 | the same dates, each amount times the share; a value without `items` raises AttributeError |
| Timeline.Seeded | aggregator/plot.py:184-189 | every operation is kept; the only added key is the first balance, added exactly when it is strictly before every operation |
| Timeline.CumulativeSum | aggregator/plot.py:190-192 | same dates, and the amount at the i-th date is the sum of the operations up to and including it |
| Timeline.CumulativeOfThree | aggregator/plot.py:190-192 | on three ordered dates, the running sums are a, a+b and a+b+c |
| Timeline.RunningSumExample | aggregator/plot.py:190-192 | operations +100000, +50000 and -150000 give balances 100000, 150000 and 0 |
| Timeline.YearlyStep | aggregator/plot.py:198-204 | adds the day, and adds December 31st and January 1st marks exactly when the previous year's change is non-zero; every entry holds the change since January 1st |
| Timeline.YearlyFrom | aggregator/plot.py:197-204 | OverflowError exactly when a remaining date is in year 1; otherwise every remaining date's marks are present when its previous year changed, and nothing else is added |
| Timeline.Yearly | aggregator/plot.py:195-205 | every date is kept, January 1st holds 0, every amount is the yearly balance, year 1 raises OverflowError, and the keys are exactly the dates plus their marks when the previous year's change is non-zero |
| Timeline.MarksPresent | aggregator/plot.py:200-203 | every balance date is kept, and a date whose previous year changed has both its December 31st and January 1st marks |
| Timeline.MarksOnly | aggregator/plot.py:200-203 | every other key is a December 31st or January 1st mark of a date whose previous year's change is non-zero |
| Timeline.MarksCarried | aggregator/plot.py:200-203 | for one date whose previous year changed, both its marks are keys |
| Timeline.MarksOnlyCarried | aggregator/plot.py:200-203 | a key added for a date other than the date itself is one of its two marks, and only when the previous year's change is non-zero |
| Timeline.ScaledOrEmpty | aggregator/plot.py:170-173 | a falsy ledger value gives an empty SortedDict, and otherwise the scaled amounts |
| Timeline.Setting | aggregator/plot.py:169-175 | the share and the `input` of the properties, `balances` by default |
| Timeline.InputOverride | aggregator/plot.py:175 | after `--<type>` inputs are applied, an account whose entry sets no `input` reads the input given for its type |
| Timeline.ResolveEntry | aggregator/plot.py:170-192 | balances are scaled amounts unless operations are read; then the running sum of the seeded operations |
| Timeline.Resolved | aggregator/plot.py:168-192 | KeyError for an unknown account, AttributeError for a non-dict, and otherwise the entry resolved with its setting |
| Timeline.AccountBalances | aggregator/plot.py:158-208 | the resolved balances, or their yearly form, in which every January 1st holds 0 |
| Portfolio.AccountBalance | aggregator/plot.py:152-156 | the interpolated balance of the account's SortedDict; ValueError when it is empty; its errors propagate |
| Portfolio.AllSeries | aggregator/plot.py:217-221 | every account's balances in order, or the error of the first account that raises |
| Portfolio.AllDays | aggregator/plot.py:221 | exactly the dates of any series |
| Portfolio.Row | aggregator/plot.py:225-228 | one balance per series, in order, each that series' interpolation |
| Portfolio.Align | aggregator/plot.py:224-229 | keys are all dates; each row has one interpolated balance per series; ValueError exactly when there are dates and some series is empty |
| Portfolio.AccountsBalances | aggregator/plot.py:210-230 | the first failing account's error, or the alignment of the accounts' balances |
| Portfolio.AlignKeepsKnownDays | aggregator/plot.py:224-229 | on its own date, an account's column holds the amount it recorded there |
| Portfolio.AlignedIsAccountBalance | aggregator/plot.py:224-229 | every column equals `get_account_balance` of its account on that date |
| Portfolio.AccountType | aggregator/plot.py:237 | the `account-type` of the properties, None when absent; raises when the properties raise or are not a dict |
| Portfolio.Filtered | aggregator/plot.py:236-238 | exactly the accounts whose type is one of the types, with their values |
| Portfolio.FilterAccounts | aggregator/plot.py:232-238 | raises exactly when some account's type cannot be read; otherwise exactly the accounts of the given types |
| Portfolio.GroupOf | aggregator/plot.py:258-262 | exactly the accounts whose type is the group's, or any type outside `types` for `other` |
| Portfolio.Grouped | aggregator/plot.py:256-263 | one group per type and `other`, present exactly when it has accounts |
| Portfolio.GroupFor | aggregator/plot.py:260-261 | the group an account lands in admits it |
| Portfolio.GroupsCover | aggregator/plot.py:257-262 | every account lands in a group |
| Portfolio.GroupsDisjoint | aggregator/plot.py:257-262 | no account lands in two groups, also when `other` is among the types |
| Portfolio.GroupIsFiltered | aggregator/plot.py:257-262 | the group of a type is the filter on that type alone |
| Portfolio.GroupIsFilter | aggregator/plot.py:240-263 | when grouping succeeds, each type's group is `filter_accounts` on that type |
| Portfolio.GroupAccounts | aggregator/plot.py:240-263 | raises exactly when some account's type cannot be read; otherwise the groups by type |
| RootPlot.BalancesEntry | plot.py:54 | `balances` of the account, None when absent; AttributeError exactly when the account is not a dict |
| RootPlot.AccountBalance | plot.py:52-65 | None exactly when there are no balances; IndexError on an empty dict; otherwise the step-wise balance of the scaled amounts |
| RootPlot.RecordedDay | plot.py:58-65 | on a recorded day, the recorded amount times the share |
| RootPlot.BeforeFirst | plot.py:59-60 | before the first recorded day, 0 |

## Left out

- Reading PDFs (pdfminer, tika, `unicodedata.normalize`), walking folders, reading conf files, command-line parsing, printing, verbosity messages, plotting and writing the JSON file: these are I/O. A document of the package is either not a PDF or a function from a known parser name to optional text. A document of the root scripts is its optional text. Walked folders are sequences of documents. Conf files are sequences of parsed confs, or unreadable ones. A verbosity message that itself raises (`aggregate.py`'s `pdf_path`) is modelled.
- `re.search`, `re.findall`, `float`, `dateutil.parser.parse` and `PchipInterpolator` are foreign code. They are parameters: the regex engine, number and date parsing, and the interpolator. Only two things are assumed: the interpolator passes through its sample points (`Timeline.PchipKnots`), and the date parser reads ISO dates back (`Json.ReadsIso`).
- Floating point: amounts are exact reals.
- The memoization decorators: they cache results and do not change them.
- Dict insertion order: dicts are maps. Where Python's result depends on order, the model fixes one valid choice, and the affected contract says only "one of them":
  - which of two colliding keys survives `toJSON` or `fromJSON`;
  - which failing account's exception `filter_accounts` and `group_accounts` report;
  - the order of the groups in `group_accounts`' OrderedDict.
- Format specs, conversions, named fields and attribute or index access inside a template are outside the model: they give the `Unsupported` error. Ledger keys that are neither strings nor dates, non-numeric amounts or shares, and non-date balance keys are treated the same way.
- Json.FromJson: `fromJSON` keys a string the date parser accepts by the `datetime` that `dateutil.parser.parse` returns (aggregator/plot.py:30-34), not by a `date`. The model keys it by that datetime's calendar day: the date oracle is the parse followed by `.date()`, so a time of day in a key is dropped, and the balance timeline reads every such key as its day. Ledgers written by `toJSON` have ISO date keys, which parse to midnight, so for them only the type of the key differs. When several keys parse to the same day, it states only that the result holds one of their values.
- `datetime.datetime.max` (aggregator/plot.py:183), the sentinel for "no operation", is modelled as the absence of a first operation. It compares with the datetime keys `fromJSON` produces; a ledger with genuine `date` keys would raise TypeError in that comparison, which the model does not reproduce because its keys are days.
- Json.FromJsonInvertsToJson: the inverse holds up to the identification above. In Python the keys read back are midnight `datetime`s, which compare unequal to the `date` keys `toJSON` wrote; the dict equality holds once each of them is taken as its calendar day.
- The `currency` argument of `get_account_balances` is left out: it is never used in the function body.
- `get_accounts_balances` skips a `None` SortedDict, which `get_account_balances` never returns. That branch is left out.
- Timeline.YearlyBalance: states only the January 1st zero and the case where the year starts before every date. The full difference `get_balance(day) - get_balance(January 1st)` is the definition and is not restated.
- Timeline.Interpolate: states the boundary and knot cases. The PCHIP value inside the range is the oracle's.
- Json.ToJson: states the keys, not which value survives a collision between a name and the ISO form of a date.
- Portfolio.FilterAccounts: when several accounts raise, it states only that the error is one of theirs.
- Portfolio.GroupAccounts: when several accounts raise, it states only that the error is one of theirs.
- Matching.AllConfs: its own contract states which confs appear. Their order and repeats are stated by Matching.AllConfsAppend and Matching.AllConfsOfOne.
- Matching.SelectConfs: its own contract states which confs are kept. Input order is stated by Matching.SelectConfsOne and Matching.SelectConfsAppend.
- Matching.CollectConfs: its own contract states which confs are found. Their order, and the file that raises, are stated by Matching.CollectConfsUpTo, Matching.CollectConfsAllReadable and Matching.CollectConfsStopsAtUnreadable.
- Scripts.FirstConfIn: its own contract states the unreadable case for the first file only. Later files are covered by Scripts.FirstConfInSkips and Scripts.FirstConfInAt.
- AccountsExtract.Extract: states the shape only; the content of the ledger is stated per file by AccountsExtract.LaterFileOverwrites.
- The debug retry of `aggregate_accounts.py`'s `find_conf` and the verbose retry of `aggregate.py`'s `find_conf` are left out. Both discard their result, so neither changes what is returned.
- The root scripts' `parse_pdf` extension check and `tika` call are I/O: a file that is not a PDF is a document without text. In the package the extension check is modelled (`Matching.Document`), and the parser functions themselves are I/O.
