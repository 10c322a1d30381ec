# Monsurface building-materials LINE bot, modelled in Dafny

The bot (`main.py`) answers LINE messages about building materials. First it checks
the sender against a permission sheet. That check counts each permitted use and
registers new users. Then it normalises the message. Two shortcut commands
(熱門主推, 技術資訊) return a link. Otherwise the bot reads a brand and a model number
from the message. It maps the brand onto one of twelve spreadsheets through a fuzzy
score and an alias table, then looks the model up:

- for 富美家, a main sheet (總表) names the model's sub-sheet, and the sub-sheet holds the row;
- for the other brands, every worksheet of the spreadsheet is merged into one table.

In that table, keys are model numbers zero-padded to ten characters, and a lookup
falls back to comparing without leading zeros. The row found is formatted as
`key: value` lines and handed to a language model together with the message.

The model is split into these modules:

- `Wrappers` holds `Option`.
- `PyStr` covers the Python string built-ins the bot relies on: `strip`, `lower`,
  `isdigit`, `zfill`, `lstrip("0")`, `split()`, `sep.join`, `int` and `str`. It also has `split(sep)`,
  which the bot does not call; it is there to state that the formatted context splits back into its lines.
- `OrderedDict` models Python's insertion-ordered dict: assignment, `update`, and comprehensions.
- `Search` provides the first-match scan that every early-return loop uses.
- `Config` has the constants and the environment, the spreadsheets as a `Drive` of
  titled worksheets, and the part of `fuzzy_match_brand` that follows the score.
- `Permission` holds the ledger: a class whose method updates the rows in place.
- `Lookup` models the main-sheet, sub-sheet and brand-table lookups. Each is a
  specification function plus a method with the source's loop, proved equal to it.
- `Bot` covers parsing, replies, and `handle_message`.

A reply is one of four values:

- `Instructions`, which sends the instruction text;
- `Say`, for any other fixed text;
- `AskModel`, which hands the question and the context to the language model;
- `NoReply`, for a handler that raised.

Sheet cells are modelled as the text `str()` gives for them. A spreadsheet that
cannot be opened, or a missing worksheet, is modelled as an absent entry of the
`Drive`. An unreadable permission sheet is the `reachable = false` argument, and a
write to it that raises is the `writable = false` argument.

A few helpers carry `ensures` clauses that only spell out their definitions element by
element, so that proofs elsewhere can use them: `OrderedDict.Keys`, `Config.Values`,
`PyStr.Lower`, `PyStr.Zeros`, `Lookup.ModelKeys`, `Lookup.Unpadded` and `Bot.RecordLines`.
They are definitional and have no row below.

## Model

| member | source | states |
|---|---|---|
| Permission.PermissionLedger.CheckUserPermission | main.py:115-162 | The verdict and the new rows are those of `PermissionStep`, including a refusal with nothing changed when a write raises. The ledger either keeps its length or gains exactly the new user's row. Rows of other users never change. |
| Permission.AllowedUseIsCounted | main.py:122-138 | When the sheet is readable and writable and the user's first row has flag 是 and a readable count n, the check allows. That row's count then reads n+1 and its time is `now`. ID, flag and every other row are unchanged. |
| Permission.RefusedUseChangesNothing | main.py:123-141 | A known user whose flag is not 是, or whose count `int` cannot read, is refused, and the ledger is unchanged. |
| Permission.UnknownUserIsRegistered | main.py:143-158 | When the sheet is readable and writable, an unknown user is refused. Exactly one row is appended: the ID, 否, a count reading 0, and `now`. |
| Permission.PermissionStepFrame | main.py:128-155 | A check either keeps the ledger's length or appends exactly the new user's row. It never changes another user's row. |
| Permission.UnreachableLedgerRefuses | main.py:160-162 | If the sheet cannot be read, the user is refused and nothing changes. |
| Permission.FailedWriteRefuses | main.py:128-162 | If a write (`update_cell` or `append_row`) raises, the user is refused and the ledger is unchanged. |
| Permission.AllowedIff | main.py:122-141 | A check allows if and only if the sheet is readable and writable, the user's first row has flag 是, and its count is readable. |
| Permission.RegistrationIsStable | main.py:143-158 | After a user is registered, their next check finds the new row and refuses without appending another. |
| Config.SheetId | main.py:169-171 | An ID is given if and only if the key is listed and its variable is set and non-empty, and the ID is then that variable's value. |
| Config.OpenWorksheet | main.py:174-176 | Rows are returned if and only if the spreadsheet opens and has a worksheet of that title, and they are the records of the first such worksheet. |
| Config.CanonicalBrand | main.py:265-273 | A brand is returned if and only if there is a match with score ≥ 70. A choice that an alias group lists gives the first group listing it; any other choice is returned unchanged. |
| Config.CanonicalBrandIsSheetKey | main.py:262-273 | If the scorer picks among brand names and aliases, every brand returned is a key of the spreadsheet table. |
| Lookup.NormModelIdempotent | main.py:181 | Normalising a model number twice is the same as normalising it once. |
| Lookup.DigitModelsMatchUpToLeadingZeros | main.py:238-244 | Digit model numbers of up to ten digits match if and only if they agree without their leading zeros. |
| Lookup.NonDigitModelsMatchExactly | main.py:248-250 | A model number that is not all digits matches only itself. |
| Lookup.MainScanStep | main.py:184-195 | With the query padded in place and left padded, each comparison still agrees with matching the original query. |
| Lookup.FindModelInMainSheet | main.py:165-205 | The result is the sub-sheet of the first 總表 row whose model matches and which names a listed sub-sheet. That sub-sheet is always a key of the sub-sheet table. |
| Lookup.GetSheetsDataFromSubsheet | main.py:212-258 | The result is the first 子表 row whose model matches (padded digits or exact text), or none. |
| Lookup.GetSheetsData | main.py:275-309 | The result is the table of all rows of all worksheets merged at once. It is absent when empty. Its keys are distinct. |
| Lookup.MergeStep | main.py:286-297 | Merging one more worksheet's dict into the accumulated dict gives the table of one more worksheet, and keys stay distinct. |
| Lookup.TableKeyNormalised | main.py:291 | A table key is at least ten characters long. Stripping and lower-casing it leaves it unchanged. |
| Lookup.SheetItemsKeys | main.py:290-295 | A worksheet contributes a key if and only if some row with a 型號 column pads to it. |
| Lookup.AllItemsKeys | main.py:286-297 | A key occurs among the merged items if and only if some worksheet has a row with that key. |
| Lookup.BrandTableKeys | main.py:286-297 | A key is in the merged table if and only if some row of some worksheet has it. Keys are distinct and normalised. |
| Lookup.BrandTableLastWins | main.py:290-297 | A key's record comes from the last row, over all worksheets in order, that has that key. |
| Lookup.BrandTableKeyOrder | main.py:297 | Keys keep the order in which their first row appears. |
| Lookup.Lookup | main.py:432 | `table[key]` finds a present key together with its record, and raises exactly when the key is absent. |
| Lookup.BrandTableModelKeys | main.py:424 | On a merged brand table, normalising the keys changes none of them: the listed keys are the table's keys. |
| Lookup.UnpaddedDigitKey | main.py:425 | On a merged brand table, the padded key of a digit model of up to ten digits, with its leading zeros dropped, lists as the model with its leading zeros dropped. |
| Lookup.ResolveExact | main.py:431-432 | A listed model is looked up under its own name. |
| Lookup.ResolveFallback | main.py:436-439 | An unlisted model that is found resolves to the first listed key that agrees with it without leading zeros. |
| Lookup.ResolveNotFound | main.py:431-444 | Nothing is found if and only if no listed key agrees with the model, either exactly or without leading zeros. |
| Lookup.ResolveFoundEntry | main.py:431-439 | In a table with distinct, normalised keys, a model that is found yields the record of the entry it settles on: its own key, or else the first key that agrees with it without leading zeros. |
| Lookup.PaddedEntry | main.py:436-439 | In a table with distinct, normalised keys, a digit model whose padded form is a key is found, with the record of a key that agrees with it without leading zeros. |
| Lookup.MatchedRowNonEmpty | main.py:412-413 | A sub-sheet row found for a non-empty model is never the empty dict, so the `if sheet_data:` test passes. |
| Lookup.ResolveNeverRaises | main.py:424-439 | If a table's keys are normalised, the lookup never raises `KeyError`. |
| Lookup.BrandTableResolves | main.py:424-439 | The lookup never raises on a merged brand table. |
| PyStr.ZFillDigitsUnpad | main.py:425 | A padded digit model agrees with the model once leading zeros are dropped. |
| Lookup.DigitModelFound | main.py:431-441 | A digit model of up to ten digits is found when its padded form is a key, and the key found agrees with it without leading zeros. |
| Bot.NormalizeWords | main.py:373 | Normalising a message keeps its words. |
| Bot.NormalizeIdempotent | main.py:373 | Normalising a message twice is the same as normalising it once. |
| Bot.NormalizeIsWord | main.py:373-382 | A normalised message equals a single word if and only if that word is the message's only word. |
| Bot.ParseByWords | main.py:373-393 | A lone shortcut word is that shortcut. Two words are (brand, model). `品牌 x 型號 y` is (x, y). Anything else is unrecognised. |
| Bot.QueryWordsAreWords | main.py:386-391 | Brand and model are non-empty, whitespace-free words of the message. |
| Bot.FormatRecordLines | main.py:414 | For a non-empty record whose headers and cells hold no line break, splitting the formatted context at line breaks gives back the `key: value` lines. |
| Bot.ShortcutReplies | main.py:376-382 | A lone shortcut gets its heading plus the configured link or the unset notice, whatever the sheets hold. |
| Bot.MalformedGetsInstructions | main.py:392-400 | A message of any other shape gets the instruction text. |
| Bot.UnknownBrandGetsInstructions | main.py:386-407 | A query in either form whose brand has no match, or a score below 70, gets the instruction text. |
| Bot.QueryModelNonEmpty | main.py:402 | A query's model, once normalised, is never empty. |
| Bot.MainBrandRoute | main.py:409-419 | A 富美家 query gets the instruction text when the 總表 has no qualifying row for the model or the sub-sheet it names has no matching row. Otherwise the normalised message goes to the language model with that first matching row's `key: value` lines. |
| Bot.OtherBrandAnswers | main.py:420-446 | Another brand's route gives the instruction text exactly when the brand's table is missing or empty or no key agrees with the model, exactly or without leading zeros. Otherwise the message goes to the language model with the record of the entry the lookup settles on. |
| Bot.OtherBrandRoute | main.py:402-446 | The same for a parsed query in either form: the normalised message, the normalised model, and the canonical brand's table. |
| Bot.OtherBrandAlwaysReplies | main.py:422-446 | Another brand's route never raises. |
| Bot.OtherBrandFindsPaddedModel | main.py:422-441 | Another brand's route answers a digit model whose padded form is a table key, with the record of a key that agrees with the model without leading zeros. |
| Bot.AlwaysReplies | main.py:409-446 | Every permitted message gets a reply: no lookup raises. |
| Bot.MainBrandReply | main.py:409-419 | The 富美家 route either replies with the instruction text or asks the language model the message; which one, and with which row, `Bot.MainBrandRoute` states. |
| Bot.OtherBrandReply | main.py:420-446 | Another brand's route replies with the instruction text, asks the language model the message, or raises; when each happens, and with which record, `Bot.OtherBrandAnswers` states, and `Bot.OtherBrandAlwaysReplies` shows it never raises. |
| Bot.QueryReply | main.py:402-446 | A query replies with the instruction text, asks the language model the message, or raises; the route lemmas above say which. |
| Bot.Respond | main.py:373-446 | The language model is only ever asked the normalised message. |
| Bot.PaddedModelAnswered | main.py:420-441 | For a query in either form to a brand other than 富美家, a digit model typed without its leading zeros still reaches the language model when the table has it, with the record of a key that agrees with it without leading zeros. |
| Bot.HandleMessage | main.py:364-454 | The ledger is updated as `PermissionStep` says, write failures included. A refused user gets the no-permission text, and a permitted one gets `Respond`. A reply is always sent. |
| PyStr.StripIdempotent | main.py:181 | Stripping twice is the same as stripping once. |
| PyStr.SplitStrip | main.py:373 | `strip()` does not change the words `split()` finds. |
| PyStr.SplitJoin | main.py:373 | Splitting words joined by a space gives back those words. |
| PyStr.SplitOnJoin | main.py:414 | Splitting at a separator gives back the separator-free parts that were joined with it. |
| PyStr.ZFillDigitsEquiv | main.py:240-244 | Padding to a width at least as long makes two digit strings equal if and only if they agree without leading zeros. |
| PyStr.ZFillIdempotent | main.py:187-191 | Padding an already padded string changes nothing. |
| PyStr.LStripZerosIdempotent | main.py:436 | Dropping leading zeros twice is the same as dropping them once. |
| PyStr.ParseShowInt | main.py:126-131 | `int(str(n)) == n`, so a written count reads back as the same number. |
| OrderedDict.Put | main.py:290-297 | After assigning a key, it holds the value and no other key changes. An existing key keeps its place, and a new key goes last. |
| OrderedDict.GetUpdate | main.py:297 | After `update`, a key's value is the one from the key's last item, or the old value if no item has that key. |
| OrderedDict.KeysUpdate | main.py:297 | `update` keeps the old keys in place and appends new keys in first-seen order. |
| OrderedDict.UpdateFromItems | main.py:290-297 | Updating with a comprehension's dict is the same as updating with its items. |
| OrderedDict.UpdateConcat | main.py:286-297 | Two updates in turn are one update with both item lists. |
| Search.FirstMatch | main.py:184-196 | The result is the first position that satisfies the test, or none when no position does. |

## Left out

- Flask, the webhook signature check and reply delivery through the LINE API are not modelled. The reply is a value.
- Google credentials download and authorisation (`download_credentials`, `gspread.authorize`) are not modelled. The spreadsheets are a `Drive` value: IDs mapped to titled worksheets of records.
- `ask_chatgpt` is not modelled. Its model fallbacks and network calls are replaced by the `AskModel(question, context)` reply.
- `process.extractOne`, the rapidfuzz scorer, is a parameter of the model. Only what `fuzzy_match_brand` does with its result is modelled.
- The current Taipei time (`pytz`, `datetime.now`) is the `now` parameter. Whether the ledger is readable is the `reachable` parameter, and whether its writes succeed is the `writable` parameter.
- The sheet's conversion of numeric-looking cells to numbers by `get_all_records` is not modelled. Cells are the text `str()` gives for them, so a model number that lost its leading zeros is just a shorter digit string.
- `PyStr.Lower` and `PyStr.IsDigit` are ASCII-only, whereas Python's `lower` and `isdigit` also cover other Unicode letters and digits.
- PyStr.ParseInt: Python's `int` accepts underscores between digits (`int("1_000") == 1000`); the model rejects them, so a usage count written that way refuses where the source allows.
- Permission.PermissionLedger.CheckUserPermission: a failure between the two `update_cell` calls (count written, time not, user refused) is not modelled. `writable` makes both writes fail or succeed together, and a failed write leaves the ledger unchanged.
- Concurrent messages that update the ledger at the same time are not modelled.
- The module-level call `find_model_in_main_sheet("8574NM")` (main.py:208-210) runs once at start-up and only prints. It is not modelled.
- A ledger row always has its four columns. A missing column would make `row[...]` raise, which the source turns into a refusal.
- Lookup.Cell: a record may list the same header twice, which `get_all_records` never returns. `Lookup.Cell` reads the first such column, where a Python dict would keep the last.
