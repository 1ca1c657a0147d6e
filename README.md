# Comparemania promotion collector: a Dafny model

This project models the core of a collector of loyalty-programme promotions from the Comparemania portal.

The `ComparemaniaScraper` class (`src/lib/scraper.js`) works through these steps:
- It resolves its options.
- It discovers the partner stores from the links of the home page.
- It reads each store's points and cashback blocks into promotion records, then completes every record with the direct link and validity date found on its landing page.
- It collects the bonus-transfer promotions. Each title is parsed into source programme, destination programme and bonus percentage.
- It normalises the validity-date texts it meets into `YYYY-MM-DD`.
- It produces the shareable text report.

The validity hook (`src/hooks/useValidityChecker.js`) does the following:
- It classifies each promotion's validity date as valid, expiring (within three days), expired or unknown.
- It lists the promotions in status order.
- It formats a validity date in three styles.
- It maps a status to its message and its colour.

Modules and files:

| file | module | models |
|---|---|---|
| `wrappers.dfy` | `Wrappers` | `Option`, standing for JavaScript's `null` |
| `strings.dfy` | `Strings` | the JavaScript string operations the core relies on: `trim`, case folding under the `/i` flag, `split(...).pop()`, decimal rendering and `padStart(2, '0')` |
| `sequences.dfy` | `Sequences` | `FlatMap`: the "for each element, append its output" shape shared by the `.each` scans and the report loops |
| `date_normalizer.dfy` | `DateNormalizer` | `parseValidityDate` and `extractValidityDate` |
| `title_parser.dfy` | `TitleParser` | `parsePromotionTitle` |
| `scraper.dfy` | `Scraper` | options, partner discovery, store extraction, link resolution, bonus collection, the collection run and `formatResults`, with the class `ComparemaniaScraper` |
| `validity_checker.dfy` | `ValidityChecker` | `getValidityStatus`, the validate-and-sort step of the hook, `formatValidityDate`, `getValidityMessage`, `getValidityColor` |

The outside world comes in as parameters:
- **Fetched pages:** each is a `Fetch` value, either failed or the document.
- **Pages as data:** the home page is its sequence of links; a store page is its points and cashback blocks; the bonus page is its bonus blocks.
- **Browser session:** each promotion's outcome is a `Landing` value. The three outcomes are:
  - the browser cannot be launched or closed, and the error escapes;
  - the session fails inside its `try`, or no "go to store" button is found, and the promotion is left as it is;
  - it lands on a final URL, with the landing page's text when that page could be read.
- **Clock and locale:** the current year, the current time in milliseconds, today's date and the locale date renderer are parameters.
- **`new Date(s)`:** a parse function given by the caller.

Methods that loop in the source are loops here:
- `GetPartners`, `ScanBlocks`, `ResolveEach`, `GetBonusPromotions`, `ProcessStores`
- `ParseValidityDate`, `ExtractValidityDate`
- the report renderers

Each of these is proved equal to a specification function, and the properties are proved about that function. The collected results are the one field the class updates: `ProcessStores` and `CollectPromotions` modify it.

Three behaviours of the code worth stating:
- **No calendar check.** `parseValidityDate("31/02/2024")` gives `"2024-02-31"`, not null (`DateNormalizer.NoCalendarCheck`).
- **Pattern order decides.** `extractValidityDate` takes the first pattern in list order that matches anywhere. It does not take the earliest date phrase in the text (`DateNormalizer.ListOrderBeatsTextOrder`).
- **Given options win.** Given options override the defaults. `maxStores: 0` therefore stays 0, which means every partner is visited (`Scraper.Resolve`, `Scraper.StoresToProcess`).

## Model

| member | source | states |
|---|---|---|
| Strings.Trim | src/lib/scraper.js:89 | the result is empty or starts and ends with a non-white-space character; it is a contiguous slice of the input, and only white space was removed on either side |
| Strings.TrimTrimmed | src/lib/scraper.js:89 | a string without JavaScript white space at either end is its own trim, so trimming is idempotent |
| Scraper.Resolve | src/lib/scraper.js:8-17 | absent max stores and timeout default to 10 and 30000; each include flag is on unless given as `false`; a given value always overrides the default, 0 included |
| Scraper.StoresToProcess | src/lib/scraper.js:37-39 | the partners visited are a prefix of those found; all of them when the bound is 0; `min(bound, count)` for a positive bound; `slice` semantics for a negative bound |
| Scraper.PartnerName | src/lib/scraper.js:89-93 | the trimmed link text when non-empty; otherwise the last `-`-separated segment of the href, a suffix containing no `-` |
| Scraper.Candidate | src/lib/scraper.js:88-100 | a link qualifies exactly when its href contains `cashback-` or `pontos-`; the type is cashback exactly when the href contains `cashback-`; relative hrefs are prefixed with the base URL |
| Scraper.Candidates | src/lib/scraper.js:87-100 | one candidate per link, in document order; a link has one exactly when its href names a store page, and it is named after the link and typed by its href |
| Scraper.DiscoverDistinct | src/lib/scraper.js:96-102 | discovered partner names are non-empty and pairwise distinct |
| Scraper.DiscoverComplete | src/lib/scraper.js:96-102 | every qualifying link with a non-empty name leaves a partner of that name |
| Scraper.DiscoverFirstSeen | src/lib/scraper.js:96-102 | every discovered partner is the first candidate bearing its name: the first occurrence wins |
| Scraper.DiscoverOrder | src/lib/scraper.js:87-104 | partners come out in the document order of the links that first name them, so the first `maxStores` partners are the first named |
| Scraper.RecordsUnresolved | src/lib/scraper.js:122-161 | every record carries the partner's name and URL, the block's kind, `isProduct` false, no direct URL and no validity; programme and value are trimmed and non-empty |
| Scraper.RecordsConcat | src/lib/scraper.js:122-161 | scanning two runs of blocks is scanning each in turn |
| Scraper.RecordOfBlock | src/lib/scraper.js:122-139 | a block yields one record exactly when both trimmed texts are non-empty, and that record is `{store: partner.name, program, value, type, isProduct: false, url: partner.url, directUrl: null, validUntil: null}` with the block's trimmed programme and value |
| Scraper.RecordsFromBlocks | src/lib/scraper.js:122-160 | a promotion is among a block type's records exactly when some block has non-empty trimmed programme and value texts and the promotion holds those texts, the partner's name and URL, the block type, `isProduct` false and no direct URL or validity |
| Scraper.RawPromotionsShape | src/lib/scraper.js:122-161 | the points records come first, then the cashback ones; a disabled kind contributes none |
| Scraper.Resolved | src/lib/scraper.js:209-246 | a browser that cannot be launched or closed fails the call; a caught session error or a missing button leaves the promotion unchanged; after landing, only the direct URL and, when the page text is read, the validity date change |
| Scraper.ResolveAllFails | src/lib/scraper.js:164-172 | the partner's promotions are lost exactly when the browser fails to launch or close for some promotion |
| Scraper.ResolveAllPointwise | src/lib/scraper.js:164-166 | when resolution succeeds, the result has the same length and each promotion is resolved on its own |
| Scraper.StoreFailureEmpties | src/lib/scraper.js:169-172 | a failed fetch, or a browser failure for any of its promotions, gives the partner no promotions |
| Scraper.StorePromotionsShape | src/lib/scraper.js:114-173 | a store's promotions are its records resolved: points before cashback, each with the partner's name and URL, none a product |
| Scraper.BonusOfShape | src/lib/scraper.js:184-199 | a block yields one promotion exactly when its trimmed title is non-empty, and none otherwise; that promotion is the trimmed title, the fields parsed from it and the block's trimmed validity text normalised |
| Scraper.BonusFromShape | src/lib/scraper.js:184-199 | the promotions collected are exactly those of the blocks with a non-empty trimmed title, each built from its own block |
| Scraper.BonusFromCount | src/lib/scraper.js:184-199 | one promotion is collected per block with a non-empty trimmed title |
| Scraper.BonusFromConcat | src/lib/scraper.js:184-199 | bonus collection keeps page order |
| Scraper.NonProductMembers | src/lib/scraper.js:50 | the filter keeps exactly the promotions that are not products |
| Scraper.NonProductKeepsAll | src/lib/scraper.js:50 | a list without products passes the filter unchanged |
| Scraper.StoreHasNoProducts | src/lib/scraper.js:50 | a store's promotions are never products, so the filter removes nothing |
| Scraper.YieldIsStorePromotions | src/lib/scraper.js:46-53 | each partner contributes exactly its store promotions |
| Scraper.CollectedConcat | src/lib/scraper.js:42-61 | partner by partner, the collected lists concatenate in visiting order |
| Scraper.CollectedStep | src/lib/scraper.js:42-61 | visiting one more partner appends exactly what it yields |
| Scraper.FailedPartnerAddsNothing | src/lib/scraper.js:55-60 | a failing partner is skipped without affecting the partners before or after it |
| Scraper.CollectedFromStores | src/lib/scraper.js:42-61 | every collected promotion is not a product and carries the name and URL of a visited partner |
| Scraper.ValidLine | src/lib/scraper.js:321-324 | the validity line is present exactly when the validity is truthy |
| Scraper.LinkLine | src/lib/scraper.js:326-328 | the link line is present exactly when the direct URL is truthy |
| Scraper.PromoSection | src/lib/scraper.js:315-332 | the section is absent exactly when there are no promotions, and otherwise opens with its heading |
| Scraper.BonusSection | src/lib/scraper.js:335-348 | the section is absent exactly when there are no bonus promotions, and otherwise opens with its heading |
| Scraper.ReportStartsWithHeader | src/lib/scraper.js:312 | the text report opens with the dated header |
| Scraper.ReportEndsWithDisclaimer | src/lib/scraper.js:350 | the text report closes with the disclaimer |
| Scraper.OnlyTextFormat | src/lib/scraper.js:311-355 | the output is empty exactly when the format is not `'text'` |
| Scraper.EmptyReport | src/lib/scraper.js:312-350 | with nothing collected, the report is the header followed by the disclaimer |
| Scraper.PromoEntriesConcat | src/lib/scraper.js:318-331 | entries follow the order of the promotions |
| Scraper.LinkOnlyWhenTruthy | src/lib/scraper.js:326-328 | an empty direct URL reads as an absent one; a non-empty one is printed after `Link:` |
| Scraper.ComparemaniaScraper.constructor | src/lib/scraper.js:7-25 | the options are the resolved ones; the results start empty, stamped with the given timestamp |
| Scraper.ComparemaniaScraper.GetPartners | src/lib/scraper.js:79-111 | the loop over the links computes the discovered partners; a failed fetch gives none |
| Scraper.ComparemaniaScraper.GetDirectLinkAndValidity | src/lib/scraper.js:209-246 | the outcome is the resolution the landing determines |
| Scraper.ComparemaniaScraper.ScanBlocks | src/lib/scraper.js:122-161 | the block loop yields the records of the blocks, in block order |
| Scraper.ComparemaniaScraper.ResolveEach | src/lib/scraper.js:164-166 | the loop resolves every promotion in order, or fails as soon as the browser fails for one of them |
| Scraper.ComparemaniaScraper.GetStorePromotions | src/lib/scraper.js:114-173 | the result is the store's promotions for the fetched page and the landings |
| Scraper.ComparemaniaScraper.GetBonusPromotions | src/lib/scraper.js:176-206 | the loop computes the bonus promotions of the page; a failed fetch gives none |
| Scraper.ComparemaniaScraper.ProcessStores | src/lib/scraper.js:42-61 | `results.promotions` grows by exactly what the visited partners yield, in visiting order; the rest of the results is unchanged |
| Scraper.ComparemaniaScraper.CollectPromotions | src/lib/scraper.js:28-76 | `results.promotions` grows by what the first `maxStores` partners yield; the bonus promotions are replaced only when enabled; the results are returned |
| Scraper.ComparemaniaScraper.RenderPromotions | src/lib/scraper.js:318-331 | the loop produces one entry per promotion, in order |
| Scraper.ComparemaniaScraper.RenderBonusPromotions | src/lib/scraper.js:338-347 | the loop produces one entry per bonus promotion, in order |
| Scraper.ComparemaniaScraper.FormatResults | src/lib/scraper.js:307-356 | the output is the text report for `'text'` and empty for any other format |
| DateNormalizer.ParseValidityDate | src/lib/scraper.js:269-289 | the loop over the two shapes computes the normalised date |
| DateNormalizer.NormalizedFirstFullDate | src/lib/scraper.js:274 | the first DD/MM/YYYY in the text is rearranged into YYYY-MM-DD |
| DateNormalizer.NormalizedFirstDayMonth | src/lib/scraper.js:275-278 | without a DD/MM/YYYY, the first DD/MM becomes `<current year>-MM-DD` |
| DateNormalizer.NormalizedNone | src/lib/scraper.js:270-288 | the result is null exactly when no DD/MM occurs in the text |
| DateNormalizer.NormalizedYearIndependent | src/lib/scraper.js:273-286 | a text holding DD/MM/YYYY normalises the same whatever the current year |
| DateNormalizer.NormalizedRoundTrip | src/lib/scraper.js:274 | an exact DD/MM/YYYY is recovered, digit for digit, from its normal form |
| DateNormalizer.NoCalendarCheck | src/lib/scraper.js:274 | "31/02/2024" normalises to "2024-02-31": no calendar validation |
| DateNormalizer.PatternIndex | src/lib/scraper.js:252-255 | the leftmost match position of a pattern, or none exactly when it matches nowhere |
| DateNormalizer.FirstPattern | src/lib/scraper.js:258-263 | the first pattern, in list order, that matches anywhere |
| DateNormalizer.ExtractValidityDate | src/lib/scraper.js:249-266 | the loop over the four patterns computes the validity date of the text |
| DateNormalizer.FirstPatternWins | src/lib/scraper.js:258-263 | the first pattern in list order that matches decides the result, wherever the other patterns match |
| DateNormalizer.ExtractNone | src/lib/scraper.js:258-265 | the result is null exactly when none of the four patterns matches |
| DateNormalizer.FullYearPatterns | src/lib/scraper.js:252-254 | when a full-year pattern matches, a date comes out and it does not depend on the current year |
| DateNormalizer.ListOrderBeatsTextOrder | src/lib/scraper.js:251-263 | with "validade:" earlier in the text than "válido até", the date after "válido até" is taken |
| TitleParser.ParsePromotionTitle | src/lib/scraper.js:292-304 | the title is echoed; each field is null exactly when its pattern matches nowhere; the programme names are trimmed and hold no `e`; the bonus is digits followed by `%` |
| TitleParser.FromProgramLeftmost | src/lib/scraper.js:294 | the source programme is the trimmed capture of the leftmost match |
| TitleParser.ToProgramLeftmost | src/lib/scraper.js:295 | the destination programme is the trimmed capture of the leftmost match |
| TitleParser.BonusValueLeftmost | src/lib/scraper.js:296 | the bonus is the digits of the leftmost match followed by `%` |
| TitleParser.ExampleTitleParsed | src/lib/scraper.js:293-302 | the example title of the source's comment, spelled as there ("Trasfira seus pontos…"), yields Itaú, LATAM Pass and 40% |
| TitleParser.PatternlessTitle | src/lib/scraper.js:294-302 | a title without the three phrases parses to three nulls |
| ValidityChecker.Rank | src/hooks/useValidityChecker.js:30 | ranks are below four |
| ValidityChecker.RankInjective | src/hooks/useValidityChecker.js:30 | distinct statuses have distinct ranks |
| ValidityChecker.GetValidityStatus | src/hooks/useValidityChecker.js:49-73 | a missing, empty or unparseable date is unknown; a parseable date's status is that of its time against now |
| ValidityChecker.StatusBuckets | src/hooks/useValidityChecker.js:60-68 | expired exactly before now; expiring from now up to three days later inclusive; valid after that |
| ValidityChecker.RankAntitone | src/hooks/useValidityChecker.js:60-68 | a later validity date never ranks higher |
| ValidityChecker.UnknownExactly | src/hooks/useValidityChecker.js:50-57 | unknown comes out exactly for a missing, empty or unparseable date |
| ValidityChecker.Classify | src/hooks/useValidityChecker.js:20-26 | one validated entry per promotion, in order, each the promotion with the status of its own date |
| ValidityChecker.WithStatusPartition | src/hooks/useValidityChecker.js:29-32 | the four status groups split the promotions between them |
| ValidityChecker.RankSortedIsSorted | src/hooks/useValidityChecker.js:29-32 | the sorted list runs valid, expiring, expired, unknown |
| ValidityChecker.RankSortedPermutes | src/hooks/useValidityChecker.js:29-32 | the sort is a permutation |
| ValidityChecker.RankSortedStable | src/hooks/useValidityChecker.js:29-32 | each status group keeps its input order |
| ValidityChecker.SortedIsRankSorted | src/hooks/useValidityChecker.js:29-32 | an already ordered list is left as it is |
| ValidityChecker.RankSortedUnique | src/hooks/useValidityChecker.js:29-32 | the outcome is the only rank-ordered list that keeps every status group in input order, so it is what a stable sort gives |
| ValidityChecker.ValidatedPromotionsSpec | src/hooks/useValidityChecker.js:9-34 | the stored list has every promotion once, each with its own status, in rank order, stable within each status; empty input gives an empty list |
| ValidityChecker.FormatValidityDate | src/hooks/useValidityChecker.js:76-107 | a missing or empty date gives "Data não informada"; an unparseable one gives "Data inválida" |
| ValidityChecker.NumericFields | src/hooks/useValidityChecker.js:85-91 | day and month are two digits each, spelling the day of the month and the month counted from 1; the year follows the second slash |
| ValidityChecker.ParseableRendering | src/hooks/useValidityChecker.js:89-99 | a date that parses renders as `dd/mm/yyyy`, `dd/mm` or the long form, as its format names |
| ValidityChecker.ShortIsPrefix | src/hooks/useValidityChecker.js:90-93 | the `dd/mm` form is a prefix of the `dd/mm/yyyy` form for every input |
| ValidityChecker.OtherFormatsAreDefault | src/hooks/useValidityChecker.js:100-101 | an unknown format renders as `dd/mm/yyyy` |
| ValidityChecker.MonthNamesDistinct | src/hooks/useValidityChecker.js:95-98 | twelve pairwise distinct month names |
| ValidityChecker.LongDateFields | src/hooks/useValidityChecker.js:94-99 | the `text` form is the two-digit day, " de ", the name the table gives the month index, then " de " and the year |
| ValidityChecker.GetValidityMessage | src/hooks/useValidityChecker.js:110-122 | the message of each status, with the unknown message as the default |
| ValidityChecker.GetValidityColor | src/hooks/useValidityChecker.js:125-137 | the colour class of each status, with the unknown class as the default |
| ValidityChecker.TablesTotal | src/hooks/useValidityChecker.js:110-137 | a string gets the unknown message and colour exactly when it is none of the three known statuses |
| ValidityChecker.TablesDistinguishStatuses | src/hooks/useValidityChecker.js:110-137 | distinct statuses are shown with distinct messages and distinct colours |

## Left out

- **Page I/O.** HTTP requests, HTML parsing and CSS selectors are not modelled. Each fetched page is given already reduced to the links, blocks or title and validity texts the selectors pick out. The button search `a:contains("Ir para"), a:contains("Ir para o site"), a:contains("Ir para loja")` and Puppeteer's navigation are reduced to the `Landing` outcome.
- **Browser lifecycle.** Launching and closing the browser are not modelled beyond their failure, which is the `BrowserFailed` landing. The `finally` clause closes the browser on every path.
- **Landings.** A landing is a function of the promotion. Repeated visits to the same page are therefore assumed to behave alike.
- **Logging.** Console output is not modelled.
- **Unused options.** `maxRetries` and `includeProducts` are resolved by the source but never read by the core. They are left out of `Options`.
- **JavaScript values.** An option given explicitly as `undefined` counts as absent. A non-integer or `NaN` `maxStores` is not modelled; it is an integer.
- **Clock and locale.** `new Date()`, `toISOString`, `getFullYear` and `toLocaleDateString('pt-BR')` are parameters: the timestamp, year and date renderer the caller supplies.
- ValidityChecker.GetValidityStatus: three days later is `now` plus 259,200,000 milliseconds. `setDate(+3)` in the source is calendar arithmetic in local time. The two differ by an hour across a daylight-saving change.
- **Date parsing.** `new Date(s)`, `getTime()` and the local calendar fields are given as a parse function. JavaScript's date-string grammar and time zones are not modelled.
- **Case folding.** The `/i` flag folds ASCII and Latin-1 letters only. That is exact for every letter in the patterns. Folding of other scripts is not modelled.
- **In-place update.** The source assigns `directUrl` and `validUntil` on the promotion object inside `getDirectLinkAndValidity`. The model returns an updated copy. Aliasing of promotion objects is not captured. When the browser fails to launch or close, the model drops the partner's list, as the caller's `catch` does; the partial mutation of earlier promotions is then invisible.
- **Bonus constants.** The fields that are constant on every bonus promotion (`type: 'bonus'`, `isProduct: false`) are not stored. The partner and promotion `type` strings are an enumeration.
- **Run-level catch.** The outer `catch` of `collectPromotions` is unreachable in the model, since every failure the model has is caught at partner or page level. Re-throwing is therefore not modelled.
- **Default format.** `formatResults(format = 'text')` has a default argument. The model has none: the caller always passes the format.
- **`'html'` format.** The branch is empty in the source, and the model gives `""` like any other non-text format.
- **The React hook.** Its state (`loading`, `useState`, `useEffect` re-runs) is not modelled; `ValidatedPromotions` is the value it stores. The `catch` around validation is not modelled, because the classifier never throws here.
- **Sorting algorithm.** `Array.prototype.sort` is modelled by its outcome, which is unique for a stable sort (`ValidityChecker.RankSortedUnique`), not by an algorithm.
- **`formatValidityDate` errors.** Its `try`/`catch` is not modelled: nothing in the modelled body throws.
- **Outside the core.** `runScraper`, `route.js` and the React pages and components.
