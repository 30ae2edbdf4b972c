# VendaMaisAgro marketplace back end — a verified model of its core rules

This project models, in Dafny, the business core of the VendaMaisAgro back end.
VendaMaisAgro is a marketplace where producers sell farm products to buyers.
The model covers two parts.

**The price-recommendation pipeline.**
- Each morning it reads the AMA price bulletin, a PDF that lists product, measure and price lines.
- When the bulletin fails or lists too few items, it falls back to Agrolink quotes for Juazeiro (BA), whose prices are read by OCR.
- It stores one price row per (product name, date) and answers "latest price" queries. Those queries prefer AMA rows, then Agrolink rows, then the newest row.
- The modules are:
  - `AgrolinkName`: product-name cleaning, the name/unit splitter and unit phrase parsing.
  - `PriceAmounts` and `PriceHelpers`: the service's helper functions.
  - `PriceService`: bulletin reading and Agrolink materialization.
  - `PriceStore`: the table with its skip-duplicates insert and its upsert.
  - `PriceLatest`: the two latest-price queries.
  - `SyncPrices`: the AMA-then-Agrolink job.
  - `AgrolinkCollector`: the quote collector.
  - `FormatPrices`: the token-row price formatter.

**The marketplace services.**
- `ContractBlocks`, `ContractTemplate`, `ContractService` and `ContractController`:
  - contract texts cut into blocks;
  - `{{path}}` templates resolved against a sale;
  - the choice between the CPF and CNPJ sale contracts;
  - the sellers of a sale, acceptances and their status;
  - the HTTP guards of the acceptance endpoints.
- `AddressService`: at most one default address per user.
- `CartService`: one cart per user, lines merged on add, stock bounds.
- `SalesService` and `SalesController`:
  - sales checked in order and priced by their selling units;
  - partial updates, freight, the seller's decision;
  - the listing totals and the HTTP error mapping.
- `ProductService`: product defaults, the image-list merge, the field update and the replacement of selling units.
- `SellingUnitProductService`: one row per (product, unit), and delete guards against purchases and cart items.
- `UserService`: registration and profile update, the password policy, CPF/CNPJ/e-mail uniqueness and results without the password.

Modelling conventions:
- Each database table is a sequence of rows, held in a field of a class whose methods change it where the service writes.
- Each thrown error is a `Result` failure carrying the service's message.
- Clocks, hashing, id generation, uploads and the foreign validators are parameters.
- Regular expressions are matchers written by hand over the string, with JavaScript semantics (`\b` on `[A-Za-z0-9_]`, `\s` as the ECMAScript white-space set).
- Numbers are exact reals, with NaN as a separate value. `parseFloat` reads an optional exponent. There are no infinite values, so a text JavaScript reads as Infinity reads as NaN here (see "## Left out").
- Dates are day numbers computed as `Date.UTC` computes them.

Shared helpers (`Wrappers`, `Text`, `JsNumber`, `JsDate`) model the JavaScript built-ins the services use.

## Model

All source paths are under `src/modules/`.

| member | source | states |
|---|---|---|
| Text.NormSpacesShape | src/modules/price-recommendation/agrolinkName.ts:31 | `normSpaces` leaves no leading, trailing or repeated whitespace, and is empty exactly for an all-whitespace input |
| Text.NormSpacesIdem | src/modules/price-recommendation/agrolinkName.ts:31 | `normSpaces` is the identity on normalized text, hence idempotent |
| AgrolinkName.FirstWordAt | src/modules/price-recommendation/agrolinkName.ts:109-110 | the alternation of the listed words followed by `\b` finds a listed word at the position, in any case, ending at a word boundary, and finds one whenever a non-empty listed word occurs there that way |
| AgrolinkName.WordsMatch | src/modules/price-recommendation/agrolinkName.ts:107-120 | the stopword and unit-word rewrites match a listed word, case-insensitively, only between two word boundaries; every whole-word occurrence of a non-empty listed word at a boundary is matched; the match is replaced by the given text |
| AgrolinkName.KeepNameChars | src/modules/price-recommendation/agrolinkName.ts:123 | every character that is not a letter or whitespace becomes a space; letters and whitespace stay in place |
| AgrolinkName.CleanPassesShape | src/modules/price-recommendation/agrolinkName.ts:91-126 | after the rewriting chain and the final `normSpaces` the text is letters separated by single spaces |
| AgrolinkName.CleanProductNameSpec | src/modules/price-recommendation/agrolinkName.ts:88-132 | `cleanProductName("")` is ""; otherwise the result is empty exactly for an all-whitespace label, is the cleaned letters-and-single-spaces text when any is left, and is the space-normalized label when cleaning removes everything |
| AgrolinkName.CleanProductNameNonEmpty | src/modules/price-recommendation/agrolinkName.ts:128-131 | a label with any non-space character never cleans to "" |
| AgrolinkName.KeepUnitChars | src/modules/price-recommendation/agrolinkName.ts:142-144 | parentheses and every non-letter, non-digit, non-space character become spaces |
| AgrolinkName.NormalizeUnitSpec | src/modules/price-recommendation/agrolinkName.ts:138-170 | `normalizeUnit` is null exactly for a missing phrase or one without a letter or digit; otherwise a non-empty phrase of letters, digits and single interior spaces |
| UnitSpelling.CanonicalizeSpells | src/modules/price-recommendation/agrolinkName.ts:157-166 | the abbreviation passes change only the case of letters, and afterwards every whole-word cx, sc, kg, g, lt, l, unid and un, in any case, is written Cx, Sc, Kg, g, Lt, L, Unid and Un |
| UnitSpelling.CanonicalizeFixed | src/modules/price-recommendation/agrolinkName.ts:157-166 | text whose abbreviations are already spelled that way passes unchanged |
| UnitSpelling.NormalizeUnitSpelling | src/modules/price-recommendation/agrolinkName.ts:138-170 | every unit phrase `normalizeUnit` returns has each abbreviation in its canonical spelling: no whole-word "cx", "KG", "lt" or "UN" in another case survives |
| NormalizeExamples.NormalizeUnitBulletinBox | src/modules/price-recommendation/agrolinkName.ts:150-152 | "Cx 10Kg" normalizes to "Cx 10 Kg" |
| NormalizeExamples.NormalizeUnitGluedBox | src/modules/price-recommendation/agrolinkName.ts:150-152 | the glued lower-case "cx10kg" normalizes to "Cx 10 Kg" |
| AgrolinkName.ScanUnitTokens | src/modules/price-recommendation/agrolinkName.ts:186-224 | the right-to-left loop stops at the first non-unit token from the right and has collected, in left-to-right order, the expanded unit tokens after it |
| AgrolinkName.SplitLabelOfScan | src/modules/price-recommendation/agrolinkName.ts:186-227 | the loop's outcome is the reference split: the name is the cleaned text up to the last non-unit token, the unit is the normalized maximal trailing run |
| AgrolinkName.SplitAgrolinkProduct | src/modules/price-recommendation/agrolinkName.ts:180-228 | `splitAgrolinkProduct` equals the reference split of the location-stripped, space-normalized label, and gives ("", null) for an empty label |
| AgrolinkName.SplitNoUnitToken | src/modules/price-recommendation/agrolinkName.ts:220-223 | a label whose last token is not a unit token has no unit, and its name is the cleaned label |
| AgrolinkName.SplitAllUnitTokens | src/modules/price-recommendation/agrolinkName.ts:226-227 | a label made only of unit tokens has no unit, and its name is the cleaned label |
| AgrolinkName.SplitWithUnit | src/modules/price-recommendation/agrolinkName.ts:189-223 | with a non-unit token before the trailing run, the name is the cleaned tokens up to that token and the unit is the normalized run, in order |
| AgrolinkName.SplitSpecNoUnitToken | src/modules/price-recommendation/agrolinkName.ts:180-227 | the same, stated for the whole splitter including the location strip |
| AgrolinkName.SplitSpecAllUnitTokens | src/modules/price-recommendation/agrolinkName.ts:180-227 | the same for a label of unit tokens only |
| AgrolinkName.SplitInputNormalized | src/modules/price-recommendation/agrolinkName.ts:183 | the label the splitter scans is space-normalized |
| SplitExamples.SplitInputJuazeiro | src/modules/price-recommendation/agrolinkName.ts:34-41 | a non-empty space-normalized label with no "j", "J" or "(" followed by " Juazeiro (BA)" loses exactly the locality: the first rewrite misses it (no word boundary after the closing parenthesis), the second drops "(BA)" and the third "Juazeiro" |
| SplitExamples.CleanPlain | src/modules/price-recommendation/agrolinkName.ts:88-132 | a name of letters and single spaces with no stopword, unit word, label prefix or number is its own cleaned name |
| SplitExamples.SplitBulletinLabel | src/modules/price-recommendation/tests/materializeFromAgrolink.spec.ts:41-69 | `splitAgrolinkProduct("Alho Comum Cx 10Kg Juazeiro (BA)")` is ("Alho Comum", "Cx 10 Kg") |
| AgrolinkName.ParseUnitDetails | src/modules/price-recommendation/agrolinkName.ts:235-275 | a missing or empty phrase gives all-null details; a result without a kind is all null; a Kg kind always carries a weight |
| AgrolinkName.UnitDetailsOf | src/modules/price-recommendation/agrolinkName.ts:237-275 | on the normalized phrase, after the patterns are tried in order: no kind means no details at all, and kind Kg always has a weight |
| AgrolinkName.DetailsOfPattern1 | src/modules/price-recommendation/agrolinkName.ts:243-259 | a match of the first pattern always yields a kind, and a Kg kind always a weight (the pack count as kg, the weight group, or 1) |
| AgrolinkName.DetailsOfPattern2 | src/modules/price-recommendation/agrolinkName.ts:262-275 | the fallback patterns either give kind Kg with a weight, or all null |
| AgrolinkName.ReadNumberDigits | src/modules/price-recommendation/agrolinkName.ts:244 | a whole number in a unit phrase reads as its digit value |
| AgrolinkName.ReadNumberComma | src/modules/price-recommendation/agrolinkName.ts:254 | "<whole>,<frac>" reads as the same value as "<whole>.<frac>" |
| UnitExamples.ParseUnitDetailsPackOfBoxes | src/modules/price-recommendation/agrolinkName.ts:239-259 | "12 Cx 13 Kg" gives (Cx, 13, 12) |
| UnitExamples.ParseUnitDetailsBox | src/modules/price-recommendation/agrolinkName.ts:239-259 | "Cx 20 Kg" gives (Cx, 20, null) |
| UnitExamples.ParseUnitDetailsWeight | src/modules/price-recommendation/agrolinkName.ts:262-270 | "15 Kg" fails the first pattern and gives (Kg, 15, null) through the second |
| UnitExamples.ParseUnitDetailsKg | src/modules/price-recommendation/agrolinkName.ts:272-273 | "Kg" gives (Kg, 1, null) |
| UnitExamples.ParseUnitDetailsUn | src/modules/price-recommendation/agrolinkName.ts:275 | a bare "Un" gives all null |
| UnitExamples.ParseUnitDetailsCx | src/modules/price-recommendation/agrolinkName.ts:275 | a bare "Cx" gives all null |
| UnitExamples.ParseUnitDetailsComma | src/modules/price-recommendation/agrolinkName.ts:253-254 | "Sc 2,5 Kg" gives (Sc, 2.5, null) |
| PriceAmounts.AmountLen | src/modules/price-recommendation/priceRecommendation.service.ts:99 | a match found at a position lies inside the line, starts with a digit and has its comma before the last two digits |
| PriceAmounts.AmountAtShape | src/modules/price-recommendation/priceRecommendation.service.ts:99 | the text of a match has the amount shape: digit groups with dots, a comma and two decimals |
| PriceAmounts.AmountsFromNonEmpty | src/modules/price-recommendation/priceRecommendation.service.ts:107-108 | a line has an amount exactly when the pattern matches at some position |
| PriceAmounts.AmountsShape | src/modules/price-recommendation/priceRecommendation.service.ts:107-110 | every amount found has the amount shape |
| PriceHelpers.ParseDecimalAmount | src/modules/price-recommendation/priceRecommendation.service.ts:10-11 | `parseDecimal` of an amount is its whole number of cents over 100, never NaN |
| PriceHelpers.ParseDecimalExample | src/modules/price-recommendation/priceRecommendation.service.ts:10-11 | "62,80" reads as 62.8 |
| PriceHelpers.Round2Amount | src/modules/price-recommendation/priceRecommendation.service.ts:175-177 | rounding a bulletin amount to two decimals changes nothing |
| PriceHelpers.ComputePricePerKg | src/modules/price-recommendation/priceRecommendation.service.ts:53-54 | null unless the weight is a positive number; otherwise NaN exactly for a NaN price, and a whole number of cents within half a cent of the price over the weight, a tie going away from zero, as `toFixed(2)` rounds |
| JsNumber.Round2Unique | src/modules/price-recommendation/priceRecommendation.service.ts:54 | the rounding to two decimals is the one whole number of cents within half a cent of the value, ties away from zero |
| PriceHelpers.PricePerKgExample | src/modules/price-recommendation/priceRecommendation.service.ts:53-54 | 62.80 for 10 kg is 6.28 per kg |
| PriceHelpers.SanitizeProductNameForDb | src/modules/price-recommendation/priceRecommendation.service.ts:65-75 | the stored name is null or a non-empty upper-cased text |
| PriceHelpers.SanitizeSpec | src/modules/price-recommendation/priceRecommendation.service.ts:65-75 | the stored name is the upper-cased cleaned name, and there is one exactly when the label has a non-whitespace character |
| PriceHelpers.DateBRError | src/modules/price-recommendation/priceRecommendation.service.ts:13-16 | the dd/mm/yyyy conversion throws exactly when the text has no '/' |
| PriceHelpers.DateBRToUSDigits | src/modules/price-recommendation/priceRecommendation.service.ts:13-16 | "dd/mm/yyyy" becomes "yyyy-mm-dd" |
| PriceHelpers.DateBRToUTCDateCalendar | src/modules/price-recommendation/priceRecommendation.service.ts:18-21 | a bulletin date dd/mm/yyyy of a real calendar day, year 100 or later, becomes that day's UTC midnight |
| PriceHelpers.LastLocalFrom | src/modules/price-recommendation/priceRecommendation.service.ts:38-39 | the backtracking of the leading `\s*` before the locality: the last position in the whitespace run where the locality occurs, ignoring case, or none when it occurs at no position of the run |
| JsDate.DateUTCOfCalendar | src/modules/price-recommendation/priceRecommendation.service.ts:20 | `Date.UTC(y, m - 1, d)` for a year from 100 to 9999, a month from 1 to 12 and a day from 1 to 31 is never invalid and gives the calendar day number |
| JsDate.CalendarOrder | src/modules/price-recommendation/priceRecommendation.service.ts:20 | day numbers keep the calendar order of valid dates |
| JsDate.CalendarInjective | src/modules/price-recommendation/priceRecommendation.service.ts:20 | distinct valid dates have distinct day numbers, so the (name, date) key does not merge days |
| PriceHelpers.RanksAgree | src/modules/price-recommendation/priceRecommendation.service.ts:374-386 | the SQL `CASE` rank is always `prefRank` minus one, so both order every two versions the same way |
| PriceHelpers.RankOfAma | src/modules/price-recommendation/priceRecommendation.service.ts:25 | any version starting with "ama" or "AMA" ranks 3, the highest rank |
| PriceHelpers.RankOfAgrolink | src/modules/price-recommendation/priceRecommendation.service.ts:26 | any version starting with "agrolink" ranks 2 |
| PriceHelpers.StripLocalFromNormalized | src/modules/price-recommendation/priceRecommendation.service.ts:34-51 | `stripLocalFrom` always gives space-normalized text |
| PriceHelpers.StripLocalAbsent | src/modules/price-recommendation/priceRecommendation.service.ts:34-51 | a locality absent from the text leaves only the suffix strip |
| PriceStore.SkipInsertedSpec | src/modules/price-recommendation/priceRecommendation.service.ts:196-199 | a skip-duplicates insert keeps keys unique, never changes a stored row, and inserts only rows whose key was absent |
| PriceStore.SkipAllPresent | src/modules/price-recommendation/priceRecommendation.service.ts:262-265 | a batch whose keys are all stored inserts nothing |
| PriceStore.SkipCoversBatch | src/modules/price-recommendation/priceRecommendation.service.ts:262-265 | after the insert every key of the batch is stored |
| PriceStore.SkipTwice | src/modules/price-recommendation/priceRecommendation.service.ts:262-267 | the same batch a second time writes 0 rows |
| PriceStore.UpsertKeepsKeys | src/modules/price-recommendation/priceRecommendation.service.ts:291-313 | an upsert loses no key |
| PriceStore.UpsertSpec | src/modules/price-recommendation/priceRecommendation.service.ts:291-313 | an upsert replaces the columns of the row under its key, or appends a new row, keeping keys unique |
| PriceStore.PriceTable.CreateManySkipDuplicates | src/modules/price-recommendation/priceRecommendation.service.ts:262-265 | the table after `createMany(skipDuplicates)` and the count of inserted rows |
| PriceStore.PriceTable.Upsert | src/modules/price-recommendation/priceRecommendation.service.ts:291-313 | the table after the upsert on (productName, date) |
| PriceService.ExtractProducts | src/modules/price-recommendation/priceRecommendation.service.ts:102-121 | the loop's items are the reference contribution of lines 2 onwards, in line order |
| PriceService.ItemFromSpec | src/modules/price-recommendation/priceRecommendation.service.ts:105-118 | the three lines of a candidate give an item exactly when the price line holds an amount and the name line is neither blank nor a "data" label; the price is the last amount, the name is non-empty and the measure space-normalized |
| PriceService.ItemAtNone | src/modules/price-recommendation/priceRecommendation.service.ts:108-114 | a line without amount, or below a blank or label line, gives nothing |
| PriceService.ProductsSound | src/modules/price-recommendation/priceRecommendation.service.ts:102-121 | every item comes from some line from 2 on |
| PriceService.ProductsComplete | src/modules/price-recommendation/priceRecommendation.service.ts:102-121 | every line from 2 on that gives an item has it in the result |
| PriceService.ProductsCount | src/modules/price-recommendation/priceRecommendation.service.ts:105-119 | at most one item per line, none from the first two lines |
| PriceService.ProductsNoAmounts | src/modules/price-recommendation/priceRecommendation.service.ts:108 | lines without amounts give no items |
| PriceService.AmaRowSpec | src/modules/price-recommendation/priceRecommendation.service.ts:157-189 | an AMA item gives a row exactly when its name has a non-blank character; the row carries the upper-cased cleaned name, the bulletin day, `ama-pdf-v1` and the price as both prices |
| PriceService.AmaRowWeight | src/modules/price-recommendation/priceRecommendation.service.ts:165-177 | a row of kind Kg has weight 1 and pricePerKg equal to its market price; a row of any other kind, or none, has neither |
| PriceService.AmaRowsSpec | src/modules/price-recommendation/priceRecommendation.service.ts:157-191 | a row is written for an item exactly when the item gives one |
| PriceService.AmaRowsNamed | src/modules/price-recommendation/priceRecommendation.service.ts:157-191 | every AMA row has a non-empty name, the AMA version and the bulletin day, and there is at most one per item |
| PriceService.AmaRowsEmpty | src/modules/price-recommendation/priceRecommendation.service.ts:193-200 | there are rows to insert exactly when some item has a non-blank name |
| PriceService.FindDate | src/modules/price-recommendation/priceRecommendation.service.ts:140-141 | the first dd/mm/yyyy date from a position: it is at or after the position, there is none before it, and no result means the text holds no date from there on |
| PriceService.UsefulLines | src/modules/price-recommendation/priceRecommendation.service.ts:146-149 | the trimmed lines kept for the scan are never empty |
| PriceService.FoundDateParses | src/modules/price-recommendation/priceRecommendation.service.ts:140-143 | a matched dd/mm/yyyy date never makes the conversion throw |
| PriceService.ExtractDataAppends | src/modules/price-recommendation/priceRecommendation.service.ts:124-204 | `extractData` only appends and keeps keys unique, writes nothing when it fails, and with a valid date every AMA row's key is stored afterwards |
| PriceService.ExtractData | src/modules/price-recommendation/priceRecommendation.service.ts:139-203 | without a date it fails and writes nothing; otherwise it inserts the AMA rows in skip mode and returns the (name, price) pairs |
| PriceService.StoreAmaRows | src/modules/price-recommendation/priceRecommendation.service.ts:157-203 | the named items' rows are inserted in skip mode; an empty batch is not written |
| PriceService.AgrolinkRowSpec | src/modules/price-recommendation/priceRecommendation.service.ts:226-253 | an item whose name cleans to nothing is skipped without reading its date; otherwise a bad date fails and a valid one gives a well-formed `agrolink-ocr-v1` row of that day |
| PriceService.AgrolinkRowsWellFormed | src/modules/price-recommendation/priceRecommendation.service.ts:225-255 | every row skip mode writes is well formed |
| PriceService.FirstThrownSpec | src/modules/price-recommendation/priceRecommendation.service.ts:225-255 | the first failure the `map` throws (a date without '/'), in item order, and none exactly when no item throws |
| PriceService.CollectRowsStep | src/modules/price-recommendation/priceRecommendation.service.ts:225-265 | one item at a time: a converted item adds its rows, a thrown failure fails the batch with its own error, an invalid date fails it unless a later item throws |
| PriceService.CollectRowsOk | src/modules/price-recommendation/priceRecommendation.service.ts:225-255 | skip mode succeeds exactly when every item converts |
| PriceService.RowsOfMember | src/modules/price-recommendation/priceRecommendation.service.ts:225-255 | the `filter` keeps the row of every item that has one, and no other |
| PriceService.CollectRowsFailure | src/modules/price-recommendation/priceRecommendation.service.ts:225-265 | skip mode's error is the first thrown failure wherever an invalid date stands, and "Invalid Date" (the refusal of `createMany`) only when no item throws |
| PriceService.SkipReportsThrownFirst | src/modules/price-recommendation/priceRecommendation.service.ts:224-317 | an invalid date followed by a TypeError: skip mode fails with the TypeError, overwrite mode with the invalid date |
| PriceService.CollectRowsMember | src/modules/price-recommendation/priceRecommendation.service.ts:225-255 | skip mode writes the rows of the items that have one, and no other |
| PriceService.CollectRowsErr | src/modules/price-recommendation/priceRecommendation.service.ts:224-265 | skip mode fails exactly when some item fails to convert |
| PriceService.UpsertAllMatchesCollect | src/modules/price-recommendation/priceRecommendation.service.ts:224-317 | the two modes fail together; without a failure overwrite mode counts as many rows as skip mode would insert; when no item throws, both fail with the invalid date |
| PriceService.UpsertAllFirstFailure | src/modules/price-recommendation/priceRecommendation.service.ts:271-314 | overwrite mode fails with the error of the first failing item, every earlier item having converted |
| PriceService.UpsertAllStep | src/modules/price-recommendation/priceRecommendation.service.ts:271-314 | in the overwrite loop a failing item stops the loop with its error, a skipped item writes nothing, and a converted row is upserted and counted once |
| PriceService.UpsertAllKeys | src/modules/price-recommendation/priceRecommendation.service.ts:271-317 | overwrite mode keeps keys unique, loses no key, and stores every row it was given |
| PriceService.MaterializeSkipSpec | src/modules/price-recommendation/priceRecommendation.service.ts:224-268 | skip mode fails, writing nothing, exactly when an item fails (with the error `CollectRowsFailure` names); otherwise it only appends, keeps keys unique and stores every converted row's key |
| PriceService.MaterializeOverwriteSpec | src/modules/price-recommendation/priceRecommendation.service.ts:224-317 | overwrite mode fails exactly when an item fails, with the first failing item's error, and then skip mode fails too, with the same error when no item throws; it keeps keys unique, loses no key, and counts one write per converted row |
| PriceService.MaterializeFromAgrolink | src/modules/price-recommendation/priceRecommendation.service.ts:219-318 | the method's table and counts are those of the reference materialization of the old table |
| PriceService.MaterializeSkip | src/modules/price-recommendation/priceRecommendation.service.ts:224-268 | the first failure the `map` throws, else the refusal of an invalid date by `createMany`, else one skip-mode insert of all converted rows; a failure writes nothing |
| PriceService.MaterializeOverwrite | src/modules/price-recommendation/priceRecommendation.service.ts:270-317 | the upsert loop; a failure stops it, leaving earlier upserts in place |
| PriceLatest.BestSpec | src/modules/price-recommendation/priceRecommendation.service.ts:334-340 | no candidate beats the one returned, and it beats every candidate before it, as a stable sort's first element does |
| PriceLatest.BeatsAgree | src/modules/price-recommendation/priceRecommendation.service.ts:379-387 | the SQL window order and the JavaScript comparator agree |
| PriceLatest.TopDateRows | src/modules/price-recommendation/priceRecommendation.service.ts:331-332 | the rows of the latest date are never none |
| PriceLatest.LatestSpec | src/modules/price-recommendation/priceRecommendation.service.ts:329-340 | of non-empty rows the reported one is among them, on their latest date, and unbeaten there |
| PriceLatest.LatestByKeySpec | src/modules/price-recommendation/priceRecommendation.service.ts:323-341 | null exactly when no row matches; otherwise a matching row on the latest date with no better-ranked matching row that day |
| PriceLatest.AmaPreferred | src/modules/price-recommendation/priceRecommendation.service.ts:334-338 | an AMA row of the latest date wins over every non-AMA row of that date |
| PriceLatest.WinnerSpec | src/modules/price-recommendation/priceRecommendation.service.ts:360-404 | the `rn = 1` row of a name is on that name's latest date and is beaten by no row of that name and date |
| PriceLatest.LatestAllSpec | src/modules/price-recommendation/priceRecommendation.service.ts:360-405 | one row per product name, in strictly ascending name order, each a latest row of its product |
| PriceLatest.LatestAllCovers | src/modules/price-recommendation/priceRecommendation.service.ts:360-405 | every product of the table has a row in the result |
| SyncPrices.SyncPricesOnce | src/modules/price-recommendation/syncPricesJob.ts:8-26 | the run's report and table are those of the reference decision |
| SyncPrices.TryAma | src/modules/price-recommendation/syncPricesJob.ts:9-11 | the AMA attempt: `extractData` and its item count, or its failure |
| SyncPrices.Fallback | src/modules/price-recommendation/syncPricesJob.ts:14-25 | the count test and the Agrolink fallback |
| SyncPrices.SyncSpec | src/modules/price-recommendation/syncPricesJob.ts:8-26 | keys stay unique; the report is AMA exactly when the bulletin gave at least `minItems` items, and then Agrolink is not touched; an Agrolink report has AMA count 0 and the Agrolink counts; a failure comes from the fallback |
| SyncPrices.DecideSpec | src/modules/price-recommendation/syncPricesJob.ts:14-25 | once the AMA count is known: the report is AMA exactly when the count reaches `minItems`, and then the table is the one after the AMA attempt; an Agrolink report has AMA count 0; without overwrite the fallback only appends; no stored key is ever lost |
| SyncPrices.AfterAmaAppends | src/modules/price-recommendation/syncPricesJob.ts:10-17 | the AMA attempt only appends, even when it falls short of the minimum |
| SyncPrices.SyncKeepsStoredRows | src/modules/price-recommendation/syncPricesJob.ts:10-22 | without overwrite no stored row changes, and the AMA rows of a short bulletin stay before the Agrolink ones |
| SyncPrices.SyncOverwriteKeepsKeys | src/modules/price-recommendation/syncPricesJob.ts:22 | with overwrite no stored key is lost |
| AgrolinkCollector.ReplaceFirstDotSpec | src/modules/price-recommendation/agrolink.collector.ts:22 | only the first dot becomes a comma |
| AgrolinkCollector.NormalizePrecoChars | src/modules/price-recommendation/agrolink.collector.ts:19-29 | the result holds only digits, dots and commas, and is empty exactly when the OCR text holds none |
| AgrolinkCollector.NormalizePrecoOfDigits | src/modules/price-recommendation/agrolink.collector.ts:23-27 | three or more digits get a comma before their last two, with leading zeros of the whole part dropped |
| AgrolinkCollector.NormalizePrecoDigits | src/modules/price-recommendation/agrolink.collector.ts:23-27 | such a price reads back through `parseDecimal` as that many cents |
| AgrolinkCollector.NormalizePrecoDotExample | src/modules/price-recommendation/agrolink.collector.ts:22 | "62.80" becomes "62,80" |
| AgrolinkCollector.NormalizePrecoDigitsExample | src/modules/price-recommendation/agrolink.collector.ts:23-27 | "6280" becomes "62,80" |
| AgrolinkCollector.NormalizePrecoShort | src/modules/price-recommendation/agrolink.collector.ts:28 | one or two digits are returned as they are |
| AgrolinkCollector.ParseDecimalComma | src/modules/price-recommendation/priceRecommendation.service.ts:10-11 | "<whole>,<frac>" reads as the decimal value of the two parts |
| AgrolinkCollector.CollectAgrolinkJuazeiro | src/modules/price-recommendation/agrolink.collector.ts:65-109 | the loop's quotes are the reference contribution of the rows, in order |
| AgrolinkCollector.RowItemSpec | src/modules/price-recommendation/agrolink.collector.ts:69-106 | a row gives a quote exactly when it has at least four cells, a Juazeiro locality and an OCR price text with a digit, dot or comma; the name and unit are `splitAgrolinkProduct` of the space-collapsed product cell, and the price holds only digits, dots and commas |
| AgrolinkCollector.CollectedSpec | src/modules/price-recommendation/agrolink.collector.ts:68-109 | every quote comes from a row that gives it, every such row's quote is there, at most one per row |
| FormatPrices.NameEnd | src/modules/price-recommendation/formatProductPrices.ts:10-11 | the name ends at the first PRODUTO(S) token when it precedes the price, otherwise at the price |
| FormatPrices.FormatProductPrices | src/modules/price-recommendation/formatProductPrices.ts:3-20 | the loop's pairs are the reference contribution of the rows, in order |
| FormatPrices.PairOfNone | src/modules/price-recommendation/formatProductPrices.ts:7-8 | a row with no whole-price token gives nothing |
| FormatPrices.PairOfSome | src/modules/price-recommendation/formatProductPrices.ts:7-15 | the price is the first price token and the name the trimmed, space-joined tokens before the name's end |
| FormatPrices.PairOfFirstPrice | src/modules/price-recommendation/formatProductPrices.ts:7-16 | a row whose first price token is at a given position gives a pair exactly when the tokens before the name's end hold a non-space character, and the pair is then the trimmed name with that token |
| FormatPrices.RowPairIff | src/modules/price-recommendation/formatProductPrices.ts:7-16 | a row gives a pair exactly when it has a whole-price token and a non-blank name before the name's end |
| FormatPrices.PairOfName | src/modules/price-recommendation/formatProductPrices.ts:12-16 | an emitted name is never empty and has no surrounding spaces |
| FormatPrices.RowPriceShape | src/modules/price-recommendation/formatProductPrices.ts:1-7 | the price is a whole-token amount |
| FormatPrices.FormattedSpec | src/modules/price-recommendation/formatProductPrices.ts:6-19 | a pair is in the result exactly when some row gives it, and there are at most as many pairs as rows |
| ContractBlocks.ContractLinesShape | src/modules/contract/contract.service.ts:27-37 | every line handed to the loop is non-empty, trimmed and free of newlines |
| ContractBlocks.NumberedBlocks | src/modules/contract/contract.service.ts:63-82 | every block made from a numbered line has a non-empty text |
| ContractBlocks.BreakFrom | src/modules/contract/contract.service.ts:69 | the first "space, upper-case letter, lower-case letter" break at or after a position, or -1 exactly when there is none from there on |
| ContractBlocks.FlushPara | src/modules/contract/contract.service.ts:42-47 | the state after the flush is the reference flush of the state before: pending lines become one space-joined paragraph and nothing stays pending |
| ContractBlocks.GroupLines | src/modules/contract/contract.service.ts:49-98 | the loop's blocks are the reference grouping of the lines, flushed at the end |
| ContractBlocks.ContractToBlocks | src/modules/contract/contract.service.ts:26-100 | `toBlocks` equals the reference grouping of the normalized lines |
| ContractBlocks.BlocksNonEmpty | src/modules/contract/contract.service.ts:42-98 | no block has an empty text |
| ContractBlocks.GroupConcat | src/modules/contract/contract.service.ts:49-97 | grouping goes line by line, so the blocks follow the line order |
| ContractBlocks.PlainLinesMerge | src/modules/contract/contract.service.ts:96 | consecutive plain lines only accumulate and emit nothing |
| ContractBlocks.PlainParagraph | src/modules/contract/contract.service.ts:96-98 | a run of plain lines ends up as exactly one paragraph of their texts joined by spaces |
| ContractBlocks.StructuredLineFlushes | src/modules/contract/contract.service.ts:50-94 | a non-plain line flushes the pending paragraph before its own blocks |
| ContractBlocks.ContatoThenLine | src/modules/contract/contract.service.ts:50-61 | a CONTATO line gives the heading "CONTATO", and the next line, unless it is CONTATO again, becomes a paragraph of its own |
| ContractBlocks.NumberedShape | src/modules/contract/contract.service.ts:63-82 | a numbered line gives either one heading holding the whole line, or a heading starting with "N) " followed by a paragraph that starts with an upper-case letter and then a lower-case one |
| ContractBlocks.LineClassesDisjoint | src/modules/contract/contract.service.ts:63-94 | numbered, subitem and item lines exclude each other, so the test order does not matter |
| ContractTemplate.WalkUndefined | src/modules/contract/contract.service.ts:288 | once a path step finds nothing, the rest of the path finds nothing |
| ContractTemplate.PathStep | src/modules/contract/contract.service.ts:288 | a step from a falsy value gives undefined |
| ContractTemplate.WalkConcat | src/modules/contract/contract.service.ts:288 | walking `a.b` walks `a`, then `b` from there |
| ContractTemplate.GetByPathPlain | src/modules/contract/contract.service.ts:287-289 | a path without a dot is one member lookup in an object |
| ContractTemplate.GetByPathTwo | src/modules/contract/contract.service.ts:287-289 | a path "a.b" looks up `b` in the value at `a` |
| ContractTemplate.ItemsListUnreachable | src/modules/contract/contract.service.ts:280-289 | when the context's `items` member is the item array, the path "items.list" finds nothing, so the list text stored under the key "items.list" is never reached |
| ContractTemplate.FixedFindsMembers | src/modules/contract/contract.service.ts:287-289 | the corrected lookup finds every member under its own key, dotted or not |
| ContractTemplate.FixedKeepsPaths | src/modules/contract/contract.service.ts:287-289 | the correction changes nothing for a path that is not a member name |
| ContractTemplate.FixedAgreesOnPlainKeys | src/modules/contract/contract.service.ts:287-289 | nor for a plain member name |
| ContractTemplate.SubstituteNoPlaceholder | src/modules/contract/contract.service.ts:291 | text without '{' is left unchanged |
| ContractTemplate.SubstituteOne | src/modules/contract/contract.service.ts:291-292 | a placeholder between brace-free texts is replaced by the value of its trimmed path; the texts around it stay |
| ContractTemplate.ResolveOne | src/modules/contract/contract.service.ts:290-299 | `resolveContent` puts the rendering of the value at the trimmed path (missing or null "", an array joined by ", ", an object as JSON, else `String`) in place of the placeholder |
| ContractTemplate.ResolveNoPlaceholder | src/modules/contract/contract.service.ts:290-299 | a text without placeholders is returned unchanged |
| ContractTemplate.FixedResolvesMember | src/modules/contract/contract.service.ts:290-299 | with the corrected lookup a placeholder naming a context member gives that member's rendering |
| ContractTemplate.FixedResolvesItemsList | src/modules/contract/contract.service.ts:280-299 | with the corrected lookup `{{items.list}}` gives the item list text |
| ContractService.KindNameInjective | src/modules/contract/contract.service.ts:5-11 | the six contract kinds have distinct names |
| ContractService.PickDefaultSaleContractKind | src/modules/contract/contract.service.ts:117-125 | the CNPJ contract exactly when the buyer's CNPJ is non-blank after trimming, the CPF one otherwise; an unknown sale throws SALE_NOT_FOUND |
| ContractService.GetBuyerIdForSale | src/modules/contract/contract.service.ts:173-179 | the sale's buyer, or null for an unknown sale |
| ContractService.SellersOfSpec | src/modules/contract/contract.service.ts:183-198 | the sellers are distinct, and are exactly the sellers of the bought products plus the legacy seller; an unknown sale has none |
| ContractService.GetSellersForSale | src/modules/contract/contract.service.ts:183-198 | the loop's set is the reference seller list |
| ContractService.ChooseSeller | src/modules/contract/contract.service.ts:218-223 | the preferred id, else the legacy id, else the sole seller; MULTIPLE_SELLERS_REQUIRE_ID with several sellers |
| ContractService.ChosenSellerTakesPart | src/modules/contract/contract.service.ts:218-223 | a seller not given explicitly is always one of the sale's sellers |
| ContractService.ItemsTotalConcat | src/modules/contract/contract.service.ts:247-248 | item totals add up over a concatenation |
| ContractService.ItemsTotalNonNegative | src/modules/contract/contract.service.ts:236-248 | non-negative prices and amounts give a non-negative total |
| ContractService.SellerItems | src/modules/contract/contract.service.ts:226-229 | without a chosen seller every item of the sale is kept |
| ContractService.GetSaleContext | src/modules/contract/contract.service.ts:201-285 | no context for an unknown sale; MULTIPLE_SELLERS_REQUIRE_ID as the only error; otherwise the context lists the sale's sellers, its items total is the total of its items and its grand total adds the freight |
| ContractService.ContextItemsOfSeller | src/modules/contract/contract.service.ts:225-245 | with a chosen seller the context holds exactly that seller's items |
| ContractService.Newest | src/modules/contract/contract.service.ts:474-482 | the newest matching row: it matches, no matching row is newer, and there is none exactly when no row matches |
| ContractService.NewestAppend | src/modules/contract/contract.service.ts:474-482 | a row recorded later than every other matching row is the newest |
| ContractService.NewestAppendOther | src/modules/contract/contract.service.ts:474-482 | rows that do not match do not change the newest |
| ContractService.LatestContract | src/modules/contract/contract.service.ts:103-108 | the newest contract of the kind, or of any kind |
| ContractService.FindContract | src/modules/contract/contract.service.ts:139 | the contract with that id |
| ContractService.AcceptOutcome | src/modules/contract/contract.service.ts:128-170 | CONTRACT_NOT_FOUND for an unknown contract, then a duplicate key, then a missing user or sale; otherwise the signed acceptance |
| ContractService.ContractStore.CreateVersion | src/modules/contract/contract.service.ts:111-114 | the new version is stored with its content's hash |
| ContractService.ContractStore.AcceptContract | src/modules/contract/contract.service.ts:128-170 | the acceptance is appended when the outcome allows, else nothing changes |
| ContractService.AcceptanceStatusBySale | src/modules/contract/contract.service.ts:466-503 | none for an unknown sale; the buyer's newest acceptance, each seller's newest, all sellers accepted (false without sellers), and both accepted |
| ContractService.NoSellersNotAccepted | src/modules/contract/contract.service.ts:492 | a sale without sellers never has all sellers accepted |
| ContractService.LatestSellerAcceptanceWins | src/modules/contract/contract.service.ts:485-490 | a seller's newest acceptance is its status |
| ContractService.OtherSellerUnchanged | src/modules/contract/contract.service.ts:485-490 | one seller's acceptance leaves the other sellers' statuses alone |
| ContractService.ResolvedContractForSale | src/modules/contract/contract.service.ts:302-331 | SALE_NOT_FOUND exactly for an unknown sale; otherwise the newest contract of the given kind, or of the kind picked from the buyer's documents, reported with the sale's sellers |
| ContractService.ResolvedErrors | src/modules/contract/contract.service.ts:302-311 | the only failures are SALE_NOT_FOUND, MULTIPLE_SELLERS_REQUIRE_ID and CONTRACT_NOT_FOUND, and MULTIPLE_SELLERS_REQUIRE_ID comes exactly for an existing sale with several sellers and no seller named |
| ContractController.ParseKind | src/modules/contract/contract.controller.ts:7-18 | the kind named by the trimmed input, if any |
| ContractController.ParseKindSpec | src/modules/contract/contract.controller.ts:7-18 | exactly the six kind names, trimmed, are accepted |
| ContractController.ParseKindName | src/modules/contract/contract.controller.ts:7-18 | a kind's own name parses back to it |
| ContractController.ParseId | src/modules/contract/contract.controller.ts:19-22 | a number only when it is finite and positive |
| ContractController.ParseIdDigits | src/modules/contract/contract.controller.ts:19-22 | a positive decimal id reads as its value |
| ContractController.ParseIdRefuses | src/modules/contract/contract.controller.ts:19-22 | ids that are not positive numbers are refused |
| ContractController.FailureReply | src/modules/contract/contract.controller.ts:104-118 | a duplicate acceptance (P2002) answers 409, a broken reference (P2003) 400, CONTRACT_NOT_FOUND 404 (and SALE_NOT_FOUND 404 where the handler maps it), anything else 500 |
| ContractController.WriteReply | src/modules/contract/contract.controller.ts:93-103 | 201 with the new acceptance's id exactly when the write succeeds, otherwise the reply for its failure |
| ContractController.ParseRole | src/modules/contract/contract.controller.ts:61-65 | BUYER or SELLER by the upper-cased text |
| ContractController.SaleLinkReply | src/modules/contract/contract.controller.ts:72-85 | for an authenticated user the link check passes exactly when a buyer is the given sale's buyer and a seller is one of its sellers; a refusal is 403 or 404 |
| ContractController.AcceptGuardSpec | src/modules/contract/contract.controller.ts:53-85 | `accept` lets an acceptance through exactly when the caller is authenticated, the role is BUYER or SELLER, the id is a positive number, `accepted` is boolean, and the sale link holds |
| ContractController.AcceptedSellerSellsInSale | src/modules/contract/contract.controller.ts:79-84 | a seller acceptance of a sale is recorded only for one of its sellers |
| ContractController.ContractToAccept | src/modules/contract/contract.controller.ts:153-159 | the body's id, or the newest contract of the picked kind, or 404 |
| ContractController.BuyerAcceptGuard | src/modules/contract/contract.controller.ts:134-159 | 400 without a sale id, then 401 without a token; a request let through is the sale's own buyer's, with a boolean `accepted`, role BUYER, and the newest contract of the picked kind when the body names none |
| ContractController.SellerAcceptGuard | src/modules/contract/contract.controller.ts:201-225 | 400 without a sale id, then 401 without a token; a request let through comes from one of the sale's sellers, with a boolean `accepted`, role SELLER, and the newest contract of the picked kind when the body names none |
| ContractController.SellerGuardNeedsSale | src/modules/contract/contract.controller.ts:213-217 | a seller passing `sellerAccept`'s guard belongs to an existing sale |
| ContractController.Record | src/modules/contract/contract.controller.ts:93-118 | a refused request gets the guard's reply and writes nothing; a request let through gets the write's reply, and the acceptance is stored exactly when the write succeeds |
| ContractController.Accept | src/modules/contract/contract.controller.ts:52-119 | the reply and the acceptances after `accept`, with the contract id looked up as text (the corrected handler; see Findings) |
| ContractController.AcceptAsWritten | src/modules/contract/contract.controller.ts:57-118 | as written, `accept` never answers 201: a request the guard lets through reaches the lookup with a numeric id and ends in the 500 "Erro ao registrar aceite"; a refused request gets the guard's reply |
| ContractController.AcceptRecordsAdmitted | src/modules/contract/contract.service.ts:128-170 | with the id passed as text, a request let through for an existing contract, user and sale and no earlier acceptance is recorded and answered 201 with the new id |
| ContractController.BuyerAccept | src/modules/contract/contract.controller.ts:132-196 | the reply and the acceptances after `buyerAccept` |
| ContractController.SellerAccept | src/modules/contract/contract.controller.ts:199-263 | the reply and the acceptances after `sellerAccept` |
| ContractController.BuyerAcceptRecorded | src/modules/contract/contract.controller.ts:146-177 | a 201 buyer acceptance is the sale's own buyer's, and then its newest buyer acceptance |
| ContractController.CreateVersion | src/modules/contract/contract.controller.ts:41-49 | 400 without content or version; the kind defaults to `sale_tos` |
| ContractController.Latest | src/modules/contract/contract.controller.ts:34-39 | the newest contract of the queried kind, or 404 |
| ContractController.StatusBySale | src/modules/contract/contract.controller.ts:121-129 | the status, or 404 for an unknown sale |
| ContractController.ContractBySale | src/modules/contract/contract.controller.ts:268-291 | 400 without a sale id, 404 for an unknown sale, and every failure is a 400 or a 404 |
| ContractController.ResolutionReply | src/modules/contract/contract.controller.ts:278-290 | SALE_NOT_FOUND and CONTRACT_NOT_FOUND 404, MULTIPLE_SELLERS_REQUIRE_ID 400, else 500 |
| ContractController.ContractBySaleNeedsSeller | src/modules/contract/contract.controller.ts:268-291 | 400 for an existing sale exactly when no positive seller id is given, there is no legacy seller and there are several sellers |
| ContractController.PreferNamed | src/modules/contract/contract.controller.ts:273-276 | a parsed seller id always names the seller; without one the legacy id decides |
| AddressService.OwnedMember | src/modules/address/address.service.ts:60 | a user's addresses are exactly the rows that belong to the user |
| AddressService.DefaultOf | src/modules/address/address.service.ts:63-65 | a default address of that user, or none |
| AddressService.DefaultIsUnique | src/modules/address/address.service.ts:63-65 | in a well-formed table any default of the user is the one returned |
| AddressService.ClearedSpec | src/modules/address/address.service.ts:14 | clearing leaves the user without a default and the table well formed |
| AddressService.AppendSpec | src/modules/address/address.service.ts:17-32 | appending a fresh address keeps at most one default per user when it is no default or the user has none |
| AddressService.ReplaceSpec | src/modules/address/address.service.ts:47 | rewriting a row keeps the table well formed under the same condition |
| AddressService.RemoveSpec | src/modules/address/address.service.ts:56 | removing a row keeps the table well formed |
| AddressService.Patched | src/modules/address/address.service.ts:47 | the update writes the body's columns and keeps the owner and id |
| AddressService.PatchedAsWritten | src/modules/address/address.service.ts:47 | the update as written also writes the body's `userId` |
| AddressService.UpdateAsWritten | src/modules/address/address.service.ts:35-48 | the update as written fails with the not-found message exactly for an unknown id, and otherwise rewrites rows in place without adding or removing any |
| AddressService.UpdateAsWrittenBreaksSingleDefault | src/modules/address/address.service.ts:35-48 | a body moving a default address to a user who already has one leaves that user with two defaults |
| AddressService.ListUserAddresses | src/modules/address/address.service.ts:59-61 | exactly the user's addresses, each as often as stored, sorted by id |
| AddressService.ListUserAddressesMember | src/modules/address/address.service.ts:59-61 | a listed address is the user's, and every address of the user is listed |
| AddressService.AddressBook.AddAddress | src/modules/address/address.service.ts:6-33 | an unknown user changes nothing; the first address is the default; a new default clears the others first |
| AddressService.AddressBook.UpdateAddress | src/modules/address/address.service.ts:35-48 | an unknown id changes nothing; a default clears the owner's other defaults; the owner is kept |
| AddressService.AddressBook.DeleteAddress | src/modules/address/address.service.ts:50-57 | an unknown or default address is refused; otherwise exactly that row goes |
| AddressService.AddressBook.SetDefaultAddress | src/modules/address/address.service.ts:67-74 | only the user's own address becomes the user's one default |
| CartService.CartOf | src/modules/cart/cart.service.ts:50 | the user's cart, if any |
| CartService.LineIndex | src/modules/cart/cart.service.ts:55-61 | the item with that (cart, product, selling unit) key |
| CartService.NewLineError | src/modules/cart/cart.service.ts:95-119 | a new line is accepted exactly when the product exists, the selling unit exists and belongs to that product, and the amount is within the stock; a missing product is the error reported for it |
| CartService.NewAmountError | src/modules/cart/cart.service.ts:149-157 | a new amount is accepted exactly when the product exists and the amount is within its stock |
| CartService.AppendLine | src/modules/cart/cart.service.ts:121-130 | a fresh line with a new key keeps the items well formed |
| CartService.RewriteLine | src/modules/cart/cart.service.ts:85-92 | rewriting amount and value keeps the items well formed |
| CartService.ItemsOfMember | src/modules/cart/cart.service.ts:199-221 | an item is listed under its cart exactly when it belongs to it |
| CartService.WithoutCartMember | src/modules/cart/cart.service.ts:228 | clearing a cart drops exactly the items of that cart and keeps every other item |
| CartService.RemoveLine | src/modules/cart/cart.service.ts:194-196 | removing the item keeps the table well formed and drops exactly it |
| CartService.AppendCart | src/modules/cart/cart.service.ts:51-53 | a new cart for a user without one keeps one cart per user |
| CartService.CartStore.EnsureCart | src/modules/cart/cart.service.ts:50-53 | the user's existing cart; otherwise a new cart for a user id that exists; otherwise the foreign-key failure P2003 with no cart written |
| CartService.LineAddedSpec | src/modules/cart/cart.service.ts:55-131 | a line already in the cart is merged in place with no catalog check; a new line is appended, with the new id and the given amount, exactly when every check passes; a failed check changes no item; every other item stays where it was |
| CartService.CartStore.AddToCart | src/modules/cart/cart.service.ts:43-131 | a user with no cart and no account fails with P2003 and nothing changes; otherwise the cart is found or created first and stays even when a check then fails, and the result and the items are those of `LineAdded` for that cart |
| CartService.CartStore.UpdateItem | src/modules/cart/cart.service.ts:135-178 | an existing item takes the amount and value when the stock covers the amount |
| CartService.CartStore.RemoveItem | src/modules/cart/cart.service.ts:181-222 | exactly that item goes; the answer is its cart's remaining items |
| CartService.CartStore.ClearCart | src/modules/cart/cart.service.ts:225-230 | every item of the user's cart goes; without a cart nothing changes |
| CartService.ClearedIsEmpty | src/modules/cart/cart.service.ts:225-230 | a cleared cart lists no items |
| CartService.AddTwiceMerges | src/modules/cart/cart.service.ts:84-93 | adding an existing line twice is adding it once with the summed amount and the later value |
| SalesService.Priced | src/modules/sales/sales.service.ts:51-57 | a line is worth its unit's minimum price times its amount, whatever value the client sent |
| SalesService.LineError | src/modules/sales/sales.service.ts:34-49 | a line fails for a missing or inactive product, or a missing selling unit or one of another product |
| SalesService.PricedLinesSpec | src/modules/sales/sales.service.ts:32-59 | creation succeeds exactly when every line is accepted, and then each stored line keeps product, unit and amount at the unit's price |
| SalesService.RepriceError | src/modules/sales/sales.service.ts:297-302 | at update only the selling unit must exist |
| SalesService.RepricedLinesSpec | src/modules/sales/sales.service.ts:294-311 | the update reprices every line whose unit exists, without checking the product |
| SalesService.CreateAndUpdatePriceAlike | src/modules/sales/sales.service.ts:294-311 | an accepted line is repriced at update to its creation value |
| SalesService.CreateError | src/modules/sales/sales.service.ts:13-30 | creation passes its checks exactly when the buyer exists, a given address exists, the payment method and transport type exist and there is at least one line; an unknown buyer is the error reported for it |
| SalesService.NewRow | src/modules/sales/sales.service.ts:61-77 | a sent status, rating or creation date is kept, otherwise "Pedido realizado!", 0 and now; the sale is paid only when `paymentCompleted` is `true`; the decision and address are as sent |
| SalesService.NewRowDefaults | src/modules/sales/sales.service.ts:64-76 | status "Pedido realizado!", ratings 0, unpaid, no decision, no address |
| SalesService.Patched | src/modules/sales/sales.service.ts:273-317 | the id never changes; an approval or a refusal sets its status, otherwise a sent status replaces the old one; sent lines replace the old ones |
| SalesService.PatchNothing | src/modules/sales/sales.service.ts:273-288 | a patch naming nothing changes nothing |
| SalesService.Decided | src/modules/sales/sales.service.ts:354-358 | the decision is stored with its status |
| SalesService.UpdateDecisionIsSellerDecision | src/modules/sales/sales.service.ts:290-292 | an update with only a decision does what `setSellerDecision` does, and the decision outranks a status sent beside it |
| SalesService.DecisionsAgree | src/modules/sales/sales.service.ts:290-292 | every way of recording a decision leaves it in agreement with the status |
| SalesService.FreightOf | src/modules/sales/sales.service.ts:338-340 | base freight plus distance times price per kilometre |
| SalesService.SaleStore.Create | src/modules/sales/sales.service.ts:11-96 | the checks in order, then the priced sale; a failure writes nothing |
| SalesService.SaleStore.Update | src/modules/sales/sales.service.ts:272-324 | lines repriced first; then an unknown sale (P2025) and a patch naming a missing buyer, address, payment method, transport type or product (P2003) fail; every failure writes nothing; otherwise the row is patched |
| SalesService.SaleStore.CalculateFreight | src/modules/sales/sales.service.ts:330-348 | only the transport value changes, to the freight, and the parts are returned |
| SalesService.SaleStore.SetSellerDecision | src/modules/sales/sales.service.ts:350-361 | the decision and its status are stored together; an unknown sale fails |
| SalesController.LinesTotalAppend | src/modules/sales/sales.controller.ts:65 | the corrected line total is additive over concatenation |
| SalesController.SalesTotalAppend | src/modules/sales/sales.controller.ts:64-67 | the corrected listing total (stored line values plus transport value per sale) is additive over concatenation of sales |
| SalesController.StoredLinesTotal | src/modules/sales/sales.controller.ts:64-67 | as written, the line total of stored lines multiplies the unit price by the amount twice |
| SalesController.DoubleCountedExample | src/modules/sales/sales.controller.ts:64-67 | one line of two units at 10.0 is stored as 20.0 and listed as 40.0 |
| SalesController.StoredLinesCharged | src/modules/sales/sales.service.ts:51-57 | the corrected total of stored lines is each unit's minimum price times the amount, counted once |
| SalesController.ListingReply | src/modules/sales/sales.controller.ts:53-105 | the producer and buyer listings, corrected: 400 without a user id; 200 with the number of sales and the corrected total `SalesTotal` (see Findings); otherwise 404 when the message holds "não encontrado" or the role refusal, else 500 |
| SalesController.ListingReplyAsWritten | src/modules/sales/sales.controller.ts:53-105 | the producer and buyer listings as written: the same status, message and count as `ListingReply`, and a 200 total of, per sale, the lines' value times amount plus the transport value |
| SalesController.PricedAreStored | src/modules/sales/sales.service.ts:51-57 | every line `create` prices names a catalog unit and is worth that unit's minimum price times its amount |
| SalesController.StoredListedSquared | src/modules/sales/sales.controller.ts:65 | on stored lines the as-written line total is the minimum price times the amount squared, summed |
| SalesController.StoredSummedCharged | src/modules/sales/sales.service.ts:51-57 | on stored lines the summed values are the minimum price times the amount, summed |
| SalesController.ListedSalesSquared | src/modules/sales/sales.controller.ts:64-67 | as written, a listing of stored sales totals, per sale, each unit's minimum price times the amount squared plus the transport value |
| SalesController.SalesTotalCharged | src/modules/sales/sales.service.ts:51-57 | the corrected listing total of stored sales is, per sale, each unit's minimum price times the amount plus the transport value |
| SalesController.DoubleCountedListing | src/modules/sales/sales.controller.ts:53-105 | one sale with one stored line of two units worth 20.0 and no freight: the listing as written answers a total of 40.0, the corrected one 20.0 |
| SalesController.NotFoundMessages | src/modules/sales/sales.service.ts:13-38 | every unknown-reference message holds "não encontrado" |
| SalesController.UnknownBuyerListing | src/modules/sales/sales.service.ts:194 | an unknown user's purchase listing answers 404 with "Usuário (userId=…) não encontrado" and no sales |
| SalesController.CreateReply | src/modules/sales/sales.controller.ts:12-25 | 201 exactly on success; a failure is 400 exactly when its message holds "não encontrado" or it is a broken reference (P2003), else 500 |
| SalesController.CreateUnknownReferenceIs400 | src/modules/sales/sales.controller.ts:12-17 | a sale with an unknown buyer, address, payment method, transport type or product is refused with 400 |
| SalesController.UpdateReply | src/modules/sales/sales.controller.ts:107-116 | every update failure answers 500 |
| SalesController.FreightInput | src/modules/sales/sales.controller.ts:130-136 | the id is given and both inputs are numbers |
| SalesController.FreightReply | src/modules/sales/sales.controller.ts:129-145 | 400 exactly on bad input; otherwise 200 or 500 as the freight calculation succeeds or fails |
| SalesController.DecisionReply | src/modules/sales/sales.controller.ts:147-163 | 400 exactly when `approved` is not a boolean; otherwise 200 or 500 as the decision succeeds or fails |
| SalesController.DecisionNeedsBoolean | src/modules/sales/sales.controller.ts:152-155 | the text "true" and the number 1 are not decisions and answer 400 |
| ProductService.NewRow | src/modules/product/product.service.ts:25-41 | zero ratings and sales unless given; negotiable only for `true`/"true"; active unless a status is sent that is neither |
| ProductService.KeptImages | src/modules/product/product.service.ts:146-155 | the client's non-blank string images when there are any, else the stored ones |
| ProductService.RemovedImagesMember | src/modules/product/product.service.ts:157-159 | an image is removed exactly when it was stored and is not kept |
| ProductService.NothingRemovedWithoutClientList | src/modules/product/product.service.ts:146-159 | without a client list nothing is removed |
| ProductService.DedupedMembers | src/modules/product/product.service.ts:175-181 | every final image is an input image with a non-empty key |
| ProductService.DedupedDistinct | src/modules/product/product.service.ts:175-181 | no two final images share a key |
| ProductService.DedupedCovers | src/modules/product/product.service.ts:175-181 | every input image with a non-empty key is represented |
| ProductService.DedupedFirst | src/modules/product/product.service.ts:175-181 | each final image is the first input image with its key |
| ProductService.DedupedPrefix | src/modules/product/product.service.ts:175-181 | merging more images never reorders or drops those already merged |
| ProductService.DedupedIdempotent | src/modules/product/product.service.ts:175-181 | a list with distinct non-empty keys is its own final list |
| ProductService.FinalImages | src/modules/product/product.service.ts:175-181 | the final list under trimmed keys: only non-blank kept or uploaded images, no repeated trimmed text, every input represented, kept images first |
| ProductService.MergeImages | src/modules/product/product.service.ts:175-181 | the `filter` with its `seen` set computes the reference final list |
| ProductService.Patched | src/modules/product/product.service.ts:183-201 | the merged images and every defined field are written; the flags only for `true`/"true"; id, seller and creation date never change |
| ProductService.EmptyPatchKeepsFields | src/modules/product/product.service.ts:183-201 | an update sending nothing keeps every field; only the image list is replaced, by the stored list without blank or repeated entries |
| ProductService.Process | src/modules/product/product.service.ts:213-227 | a unit is accepted with `unitId ?? id` and `parseFloat` of `minPrice` when it is not undefined, else of `price`, when the id is non-empty and the price is a number; a null `minPrice` reads as NaN and is refused |
| JsNumber.ParseFloatExponent | src/modules/product/product.service.ts:217-219 | `parseFloat` reads digits, `e` and digits as the whole part scaled by ten to the power of the exponent |
| JsNumber.ParseFloatNegativeExponent | src/modules/product/product.service.ts:217-219 | `parseFloat` reads digits, `e-` and digits as the whole part scaled by ten to the negated power |
| JsNumber.ScalePow10 | src/modules/product/product.service.ts:217-219 | scaling by a power of ten is multiplication by it, and division for a negative power |
| ProductService.ProcessUnits | src/modules/product/product.service.ts:212-228 | all pairs when every unit is accepted, nothing when any is not |
| ProductService.ReplacedUnits | src/modules/product/product.service.ts:230-240 | after the replacement the product's units are exactly the new rows and other products' units are kept |
| ProductService.ProductIndex | src/modules/product/product.service.ts:126-133 | the product with that id |
| ProductService.ProductStore.Create | src/modules/product/product.service.ts:25-49 | the new row with its defaults is appended |
| ProductService.ProductStore.Update | src/modules/product/product.service.ts:124-258 | unknown id fails first; the product is written before the units are checked; invalid units fail leaving the units unchanged; a unit missing from the selling-unit table fails after the product's old units are deleted (P2003); otherwise the units are replaced |
| ProductService.UpdateReplacesUnits | src/modules/product/product.service.ts:212-240 | after a successful update with units, the product's units are the sent ones in order, other products' kept |
| ProductService.RepeatedUnitRepeatsPair | src/modules/product/product.service.ts:212-240 | a unit sent twice gives the product two rows for the same unit, so the table is no longer unique per (product, unit) |
| SellingUnitProductService.FiltersMember | src/modules/product/sellingUnitProduct.service.ts:231-261 | a row is among the product's rows exactly when it has that product, among the rest exactly when it has another |
| SellingUnitProductService.OtherProductsUnique | src/modules/product/sellingUnitProduct.service.ts:259 | deleting a product's rows keeps (product, unit) unique |
| SellingUnitProductService.OtherProductsIdempotent | src/modules/product/sellingUnitProduct.service.ts:259 | deleting a product's rows twice deletes nothing more |
| SellingUnitProductService.RemoveAtUnique | src/modules/product/sellingUnitProduct.service.ts:223 | removing one row keeps the table unique |
| SellingUnitProductService.CreateError | src/modules/product/sellingUnitProduct.service.ts:23-50 | a row may be created exactly when the product and the unit exist and the product does not yet offer that unit; a missing product is the error reported for it |
| SellingUnitProductService.UpdateError | src/modules/product/sellingUnitProduct.service.ts:146-173 | only a truthy unit that differs from the stored one is checked against the units and the product's other rows |
| SellingUnitProductService.Changed | src/modules/product/sellingUnitProduct.service.ts:175-180 | a truthy unit and a defined price replace the stored ones; id and product stay |
| SellingUnitProductService.EmptyChangeKeepsRow | src/modules/product/sellingUnitProduct.service.ts:175-180 | an empty change leaves the row as it was |
| SellingUnitProductService.FindBlocked | src/modules/product/sellingUnitProduct.service.ts:252-256 | the loop finds a blocked row exactly when some row of the product is referenced by a purchase or cart item |
| SellingUnitProductService.CreateTwiceRefused | src/modules/product/sellingUnitProduct.service.ts:43-50 | a second `create` of the same pair is refused |
| SellingUnitProductService.UnitProductStore.Create | src/modules/product/sellingUnitProduct.service.ts:20-72 | after the checks a row for the pair is appended |
| SellingUnitProductService.UnitProductStore.Update | src/modules/product/sellingUnitProduct.service.ts:143-196 | unknown id, then the unit checks, then the row rewritten in place |
| SellingUnitProductService.UnitProductStore.Delete | src/modules/product/sellingUnitProduct.service.ts:198-229 | unknown id, then the purchase and cart guards, then the row removed |
| SellingUnitProductService.UnitProductStore.DeleteByProductId | src/modules/product/sellingUnitProduct.service.ts:231-266 | all of the product's rows go or none does; the result is the number deleted |
| UserService.RegexIsPolicy | src/modules/user/user.service.ts:31-32 | the lookahead regex accepts exactly the passwords with 8+ characters, a lower-case letter, an upper-case letter, a digit and a `[\W_]` character, without line terminators |
| UserService.PolicyExamples | src/modules/user/user.service.ts:31-36 | "Strong@123" passes and "fraca" does not |
| UserService.ResultHidesPassword | src/modules/user/user.service.ts:114-115 | the returned user does not depend on the stored password |
| UserService.CreateError | src/modules/user/user.service.ts:22-72 | a registration passes exactly when the required fields and a CPF or CNPJ are sent, the password meets the policy, a sent CPF or CNPJ is valid and not yet registered, and the e-mail is not yet registered; with the required fields present, a weak password is the error reported |
| UserService.NewUser | src/modules/user/user.service.ts:75-112 | the password is stored as its hash; a sent CPF or CNPJ is stored formatted, otherwise null; `ccir` is null exactly when empty; security answers are kept exactly when sent |
| UserService.CreateKeepsUnique | src/modules/user/user.service.ts:39-72 | a registration passing the checks keeps CPF, CNPJ and e-mail unique |
| UserService.UpdateError | src/modules/user/user.service.ts:165-214 | a sent password must meet the policy; a changed CPF, CNPJ or e-mail must be valid and not another user's |
| UserService.UpdatedAsWritten | src/modules/user/user.service.ts:165-174 | as written, an empty password is copied into the row unhashed |
| UserService.EmptyPasswordStoredAsWritten | src/modules/user/user.service.ts:165-174 | as written, sending "" as password skips the policy and stores "" in place of the hash |
| UserService.Updated | src/modules/user/user.service.ts:165-234 | the body is copied, changed documents formatted, a non-empty password hashed, an empty one ignored, an upload replaces the image |
| UserService.PasswordStaysHashed | src/modules/user/user.service.ts:168-174 | after an accepted update the stored password is the old one or the hash of a policy-compliant password |
| UserService.OwnDocumentsAccepted | src/modules/user/user.service.ts:177-214 | sending one's own documents again is accepted |
| UserService.UserStore.Create | src/modules/user/user.service.ts:18-120 | the checks, then the new row; the result has no password |
| UserService.UserStore.Update | src/modules/user/user.service.ts:149-252 | unknown id, the checks, then one write that the database refuses on a repeated unique value; the result has no password |

## Left out

- The AMA bulletin download, `pdf-parse`, `fetchAmaPdf.ts`, the Agrolink browser session, screenshots, `sharp` and Tesseract are I/O. Their outputs (bulletin text, table cells, OCR text) or failures are inputs of the model.
- Logging is not modelled. That covers which level an AMA failure is logged at in `syncPricesOnce`.
- The cron registration and the reading of its environment variables are scheduling. Runs are sequential.
- `getByName` and `listToday` are left out: the first reads without an order, the second depends on the clock.
- PriceLatest.LatestByKeySpec: ignores the `take: 50` of `getLatestByNamePreferAMA`. It can only matter when more than 50 rows of one product share its latest date.
- PriceLatest.LatestByKeySpec: the database's case-insensitive name match is modelled as equality after `toLowerCase`.
- JsNumber.Round2: `toFixed(2)` is exact rounding of reals, half away from zero. IEEE-754 representation error is not modelled, and neither is floating-point arithmetic in totals and freight.
- Text.ToUpper: case mapping covers ASCII and Latin-1, plus the sharp s. `\p{L}` is approximated by the Latin-script letter ranges.
- Text.IsSpace: strings are sequences of code points, so a character outside the Basic Multilingual Plane counts as one character, not two UTF-16 units.
- UserService.RegexIsPolicy: the policy's `.{8,}` has no `u` flag, so JavaScript counts UTF-16 units and a character outside the Basic Multilingual Plane counts twice. The model counts code points, so "Aa1!" followed by two such characters passes in the source and fails here.
- UserService.CreateError: inherits the code-point count of `RegexIsPolicy`, so a password that reaches 8 UTF-16 units only through characters outside the Basic Multilingual Plane is refused here as weak.
- ProductService.Process: the model has no infinite numbers. A `minPrice` or `price` that `parseFloat` reads as Infinity ("Infinity", "-Infinity", or an exponent too large for a double such as "1e400") is accepted by the source and refused here as NaN. A finite exponent is read as an exact real, not rounded to a double.
- ProductService.ProcessUnits: inherits the Infinity gap of `Process`; a batch with such a unit is accepted by the source and refused here.
- The (productName, date) pair is a unique key of the price table, as the upserts address it. `createdAt` and generated ids are parameters.
- `generateContract`, `generateContractForSalePDF` and `contractPdfBySale` render PDFs with pdfkit and are left out.
- SHA-256 and the acceptance signature are an uninterpreted `hash` parameter. The acceptance time, client IP and user agent are parameters.
- ContractService.Newest: when two acceptances share the newest `acceptedAt`, the model takes the earliest stored. The database's tie order is unspecified.
- The sale context's fields beyond the items, totals and sellers (buyer and seller contact data, sale dates) are rendered values. The model carries them as a JSON-like value without checking them.
- SalesService.SaleStore.Create: `Promise.all` over the lines is modelled as failing on the first failing line in list order. The real call rejects with whichever lookup fails first.
- `getAll`, `getById`, `delete` and the database-level listings `getSalesForProducer`/`getPurchasesForBuyer` are left out. The controller's totals over their result are modelled.
- ProductService.ProductStore.Create: the selling units sent at product creation are not modelled. Their `parseFloat` minimum price may be NaN, and the model's unit price is a real.
- ProductService.ProductStore.Create: image uploads are left out and given as the list of uploaded URLs.
- The product form's `parseInt`/`parseFloat`/`new Date` conversions of numeric and date fields are taken as already parsed.
- ProductService.ProductStore.Update: the storage deletion of removed images (S3) is I/O. The removed images are returned instead. `extractKeyFromUrl` is not part of this model.
- The product `getAll`/`getById`/`delete` queries, `getByProductId`'s ordering by unit title and `updateProfileImage` carry no rules and are left out.
- UserService.UserStore.Update: the `{...data}` spread is limited to the modelled columns (name, phone, e-mail, password, role, CPF, CNPJ, `ccir`). Three body fields the spread would also pass on are not represented: an `img` sent as text without an upload (the model keeps the stored image), an `id` (the model keeps the key), and `securityQuestions` (the model keeps the stored answers; Prisma refuses a plain list for a relation).
- `isCPF`, `isCNPJ`, `formatToCPF`, `formatToCNPJ` and `bcrypt.hash` are uninterpreted parameters. The bcrypt salt's randomness is folded into `hash`.
- The upload of a profile image is given as its URL.
- AgrolinkName.NormalizeUnitSpec: states the shape of the result only. The spelling of the abbreviations is stated by `UnitSpelling.NormalizeUnitSpelling`; the exact output is proved only for the worked examples "Cx 10Kg" and "cx10kg".
- SplitExamples.SplitBulletinLabel: is one worked example. Other labels are covered by the general lemmas `SplitWithUnit`, `SplitNoUnitToken` and `SplitAllUnitTokens` only.
- PriceLatest.Less: `ORDER BY "productName" ASC` is modelled as code-point order. The database sorts by its collation, which may order accented, upper-case and lower-case names differently, so `LatestAllSpec`'s ascending order holds under code-point order only; which rows are reported does not depend on it.
- ContractController.ParseId: `Number` of a text id is modelled for plain decimals only. A text id with an exponent ("1e3"), a "0x", "0o" or "0b" prefix, or the word "Infinity" reads as NaN in the model and is refused, while JavaScript reads the first three as positive numbers.
- ProductService.ProductStore.Update: a unit sent twice is written twice, since nothing in `update` checks the sent units against each other (`RepeatedUnitRepeatsPair`). One row per (product, unit) is therefore kept by the selling-unit service's own checks only, and `ProductStore.Valid` does not include it.
- ProductService.ProductStore.Update: inherits the Infinity gap of `Process`. An update whose units include a price read as Infinity is refused here as invalid units, while the source writes those units.
- ProductService.ProductStore.Update: the product write, the delete of its units and the insert are separate statements with no transaction, as in the source. A failed insert leaves the product written and without units.

## Findings

| source | as written | input that shows it | evidently intended | confidence | as-written member | corrected member |
|---|---|---|---|---|---|---|
| src/modules/address/address.service.ts:35-48 | `updateAddress` clears the defaults of the address's current owner, then writes the whole body, `userId` included | a body `{ userId: B }` for A's default address, while B already has a default | an update never gives a user a second default address (the owner is kept, or the new owner's defaults are cleared) | medium, not executed | AddressService.UpdateAsWrittenBreaksSingleDefault | AddressService.AddressBook.UpdateAddress |
| src/modules/contract/contract.service.ts:280-289 | the item list text is stored under the literal key "items.list", but `getByPath` splits the path at the dot | a template containing `{{items.list}}` for a sale with items: it resolves to "" | `{{items.list}}` shows the item list | medium, not executed | ContractTemplate.ItemsListUnreachable | ContractTemplate.FixedResolvesItemsList |
| src/modules/user/user.service.ts:165-174 | the body is spread into the update, and a falsy password skips both the policy and the hash | `update(id, { password: "" })` stores "" as the password | an empty password leaves the stored hash alone | medium, not executed | UserService.EmptyPasswordStoredAsWritten | UserService.PasswordStaysHashed |
| src/modules/contract/contract.controller.ts:57-101 | `accept` checks that the body's `contractId` is a finite number and passes that number on to `acceptContract`, whose `findUnique` looks up a string id (contract.service.ts:128-140) | any request the guard lets through, e.g. `{ contractId: 7, accepted: true, role: "BUYER" }` from an authenticated user: the lookup throws and the reply is 500 "Erro ao registrar aceite" | the id is looked up as text (as `buyerAccept` does with `String(...)`) and the acceptance is recorded with 201 | medium, not executed | ContractController.AcceptAsWritten | ContractController.AcceptRecordsAdmitted |
| src/modules/sales/sales.controller.ts:64-67 | the listing totals sum `value * amount` over the bought products, but the stored `value` is already the unit price times the amount (sales.service.ts:51-57) | one sale with one line of two units at 10.0 a unit and no freight: the line is stored with value 20.0 and the listing answers a total of 40.0 | each sale's lines are summed by their stored values, so that listing answers 20.0 | high, not executed | SalesController.DoubleCountedListing | SalesController.SalesTotalCharged |
