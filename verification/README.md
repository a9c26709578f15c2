# Odometer OCR and ledger summary, modelled in Dafny

The repository is a Next.js front end that sends photographs of car odometers
to an OCR service and reads the mileage out of the answer, plus a Python
script that summarises an OCR'd accounting voucher. This project models the
deterministic parts of both:

- **`extractMileage`** (two copies, in `MilesCheckTyphoon.tsx` and `OCR.tsx`):
  unwrap a JSON `natural_text`, then try the anchored pattern
  `/(ODO|odometer)[^\d]{0,10}(\d{4,6})/i`, then the standalone pattern
  `/\b\d{5,6}\b/`, else `null`. Both regular expressions are modelled as
  scanners over `seq<char>` with JavaScript's semantics (leftmost start,
  `ODO` before `odometer`, greedy quantifiers, ASCII-only `\d`, `\b` and
  case folding, the `{0,10}` bound counted in UTF-16 code units), next to
  declarative definitions of "a match" and "the match JavaScript reports",
  and proved equal to them.
- **The per-file result update** of the two-image upload loop: reset of the
  four result slots, the `content.trim()` / `natural_text` unwrapping, the
  `'ไม่พบเลขไมล์'` placeholder and the `'เกิดข้อผิดพลาด: …'` error text, and
  the fact that file *i* only writes slot *i*.
- **Trip reconciliation**, the `useEffect` of the two-odometer page: both
  slots through `parseInt`, reversed readings swapped, distance, cost at
  6 baht per km, the alert above 4000 (a returned flag) and the slots
  rewritten with `toString`.
- **`summarize_advanced`** from the matched groups onwards: header defaults,
  exact `Decimal` amounts (as `real`), per-code totals in first-seen order,
  the debit (`2154…`) and credit (`2111…`) sums under the `21…` check,
  `balance_ok` and the insight list.

Modules: `Wrappers` (Option), `Chars` (character classes, `trim`/`strip`,
substring search, digit runs), `JsNumbers` (`parseInt`, `toString`),
`OdoPattern` and `StandalonePattern` (the two regular expressions),
`Mileage` (`extractMileage`), `OcrPage` (the logging copy), `UploadSlots`,
`TripReconciler`, `OdometerPage` (upload followed by the effect) and
`AccountSummary`.

`JSON.parse` is a parameter `parse: string -> JsonParse` that says whether
the text is JSON and, if so, what string `natural_text` holds. Each file's
turn of the upload loop is an `Outcome`: either the base64 conversion
rejected (`Unconverted`), or it succeeded and the OCR request gave a
`Response`, which is the response content or the message of whatever the
`try` block threw. The conversion is awaited before the `try`, so a
rejection leaves `handleUpload`: the loop stops, the slots of that file and
of every later file stay `null`, and `setLoading(false)` is never reached.

Points where the code's behaviour is easy to misread, and what the model
does:
- `natural_text` replaces the text only when it is a non-empty string
  (`parsed?.natural_text || text`), not whenever the field exists.
- The "at most ten non-digit characters" between anchor and digits are ten
  UTF-16 code units: an emoji in the gap counts twice.
- The reading is the matched digit string (leading zeros kept, `"088213"`),
  not an integer. The cost is an integer number of baht (`distance * 6`).
- `\b` is the ASCII word boundary: a digit run touching a Thai letter still
  matches, one touching a Latin letter or `_` does not.
- An upload does not reset the displayed distance and cost; they keep their
  previous values until both new slots parse.

## Model

| member | source | states |
|---|---|---|
| Chars.TrimBy | src/components/MilesCheckTyphoon.tsx:135 | the result is a slice of the input with only white space cut from either end and no white space left at its ends |
| Chars.TrimUnique | scripts/account_summary.py:47-48 | at most one string is a trim of a given string, so `IsTrimOf` pins down `strip()`/`trim()` |
| Chars.TrimByIsTheTrim | src/components/MilesCheckTyphoon.tsx:135 | every string meeting the definition of a trim is the computed one |
| Chars.ContainsTrimmed | scripts/account_summary.py:48 | a word without white space occurs in the stripped string iff it occurs in the original |
| JsNumbers.ParseInt | src/components/MilesCheckTyphoon.tsx:29-31 | `parseInt` is NaN when the text starts with anything but white space, a sign or a digit, and a number is read only where a digit is present |
| JsNumbers.NatToString | src/components/MilesCheckTyphoon.tsx:40-41 | `toString` of a non-negative integer is a non-empty digit string, without a leading zero unless it is `0`, denoting that integer |
| JsNumbers.ParseIntToString | src/components/MilesCheckTyphoon.tsx:29-30 | `parseInt(n.toString()) == n` for every integer |
| JsNumbers.ParseIntOfDigits | src/components/MilesCheckTyphoon.tsx:29-30 | a digit string followed by a non-digit is read as its decimal value, unless a lone `0` and an `x` form a hex prefix |
| OdoPattern.MatchShape | src/components/MilesCheckTyphoon.tsx:93 | in every anchored match the gap is the whole non-digit stretch after the keyword and the captured digits lie inside the digit run that follows |
| OdoPattern.MatchWith | src/components/MilesCheckTyphoon.tsx:93 | one alternative at one position yields the greedy match (longest gap, then longest capture) or none exists |
| OdoPattern.MatchAt | src/components/MilesCheckTyphoon.tsx:93 | at a position `ODO` is preferred and `odometer` is used only when `ODO` cannot match there |
| OdoPattern.FirstMatchFrom | src/components/MilesCheckTyphoon.tsx:94 | the scan returns the preferred match at the leftmost start with no match before it |
| OdoPattern.FindAnchored | src/components/MilesCheckTyphoon.tsx:93-95 | `text.match(odoRegex)` is the match JavaScript reports, and `null` exactly when no way of matching exists |
| OdoPattern.FirstMatchUnique | src/components/MilesCheckTyphoon.tsx:94 | the reported match is unique |
| OdoPattern.FindAnchoredFindsFirst | src/components/OCR.tsx:64-68 | any match meeting the definition is what the scan returns, and its capture is 4 to 6 digits |
| OdoPattern.CaptureIsRunPrefix | src/components/MilesCheckTyphoon.tsx:93 | the capture is the first min(6, run length) digits of the run after the gap |
| OdoPattern.MatchAtStart | src/components/MilesCheckTyphoon.tsx:93-95 | when `ODO` matches at the very start, that match is reported, capture running to the end of the digits or six digits in |
| StandalonePattern.RunShape | src/components/MilesCheckTyphoon.tsx:97 | a standalone match spans a whole digit run bounded by non-word characters |
| StandalonePattern.RunAt | src/components/MilesCheckTyphoon.tsx:97 | the standalone match at a position, unique if it exists |
| StandalonePattern.FirstRunFrom | src/components/MilesCheckTyphoon.tsx:97 | the scan returns the leftmost standalone run at or after a position |
| StandalonePattern.FindStandalone | src/components/MilesCheckTyphoon.tsx:97-98 | `text.match(/\b\d{5,6}\b/)` is the leftmost run, `null` exactly when there is none |
| StandalonePattern.LongRunNeverMatches | src/components/MilesCheckTyphoon.tsx:97 | no match overlaps a run of seven or more digits |
| StandalonePattern.GluedRunNeverMatches | src/components/MilesCheckTyphoon.tsx:97 | no match overlaps a digit run touching a Latin letter or `_` |
| StandalonePattern.SoleRunFound | src/components/MilesCheckTyphoon.tsx:97-98 | text whose only digits are one free-standing run of 5 or 6 yields exactly that run |
| StandalonePattern.FirstRunUnique | src/components/OCR.tsx:71-74 | the reported standalone run is unique |
| StandalonePattern.FindStandaloneFindsFirst | src/components/OCR.tsx:71-74 | the leftmost run by definition is what the scan returns, and it is 5 or 6 digits |
| Mileage.WorkingText | src/components/MilesCheckTyphoon.tsx:88-91 | the text is replaced only by a non-empty `natural_text` string the parse reported, and always by one |
| Mileage.ExtractFromText | src/components/MilesCheckTyphoon.tsx:93-100 | a reading is all digits, 4 to 6 long; an anchored match decides it; otherwise the leftmost standalone run (5 or 6 long); `null` iff neither pattern matches |
| Mileage.ExtractMileage | src/components/MilesCheckTyphoon.tsx:87-91 | the patterns run on a non-empty `natural_text` when the text is JSON with one, and on the text unchanged otherwise |
| Mileage.AnchorTakesPrecedence | src/components/MilesCheckTyphoon.tsx:93-95 | any anchored match anywhere, even after a 5–6 digit run, makes the result an anchored capture starting no later |
| Mileage.LeadingOdoCaptured | src/components/MilesCheckTyphoon.tsx:93-95 | `ODO` (any case), a gap of at most ten code units without digits and four or more digits yield the first six of those digits |
| Mileage.LongReadingTruncated | src/components/MilesCheckTyphoon.tsx:93 | "ODO 1234567" yields "123456" |
| OcrPage.UnwrapLogged | src/components/OCR.tsx:57-62 | the JSON step picks the same text as the other copy and logs "not valid JSON" exactly when parsing fails |
| OcrPage.MatchLogged | src/components/OCR.tsx:64-78 | the pattern step returns the other copy's result and logs the ODO line iff the anchored pattern matched, the not-found line iff the result is `null` |
| OcrPage.ExtractMileageLogged | src/components/OCR.tsx:55-79 | the logging copy returns the same value as the two-odometer page's copy for every input, with the raw text logged first |
| UploadSlots.Cleared | src/components/OCR.tsx:87-91 | all four result slots are `null` before the loop |
| UploadSlots.MileageOrPlaceholder | src/components/OCR.tsx:127 | the placeholder is stored iff extraction returned `null`; otherwise a 4–6 digit reading |
| UploadSlots.SlotFor | src/components/MilesCheckTyphoon.tsx:134-158 | a failure writes the same error text to mileage and OCR text; a response writes the trimmed, unwrapped text and the reading or placeholder |
| UploadSlots.Record | src/components/OCR.tsx:129-148 | file *i* writes its own slot pair only; the other pair is unchanged |
| UploadSlots.OcrTextOf | src/components/MilesCheckTyphoon.tsx:135-139 | the OCR text is the `trim` of the content (or `''` when there is none) with a non-empty `natural_text` substituted when it parses as JSON |
| UploadSlots.ProcessUpload | src/components/MilesCheckTyphoon.tsx:109-160 | a file whose conversion rejected leaves its slots and the later file's `null`; every file reached writes its own pair; both pairs are filled iff both conversions succeeded |
| UploadSlots.SlotsIndependent | src/components/OCR.tsx:95-150 | the first pair depends on the first file only; the second depends on the first file only through whether its conversion rejected, which leaves it `null` |
| UploadSlots.RecordCommutes | src/components/OCR.tsx:129-135 | recording the two files in either order gives the same slots |
| TripReconciler.TripOf | src/components/MilesCheckTyphoon.tsx:32-37 | the trip of two readings runs from the smaller to the larger, costs 6 baht per km, and is flagged iff the cost is over 4000, which is from 667 km on |
| TripReconciler.PricedTripUnique | src/components/MilesCheckTyphoon.tsx:32-37 | only one trip fits two readings, so any trip with those properties is `TripOf`'s |
| TripReconciler.Reconcile | src/components/MilesCheckTyphoon.tsx:27-45 | the effect acts iff both slots are truthy and parse; then the readings are sorted, distance ≥ 0, cost = 6·distance, alert iff cost > 4000 iff distance ≥ 667 |
| TripReconciler.ReconcileParsed | src/components/MilesCheckTyphoon.tsx:28-37 | slots parsing to `a` and `b` give the trip of `a` and `b` |
| TripReconciler.ReconcileReadings | src/components/MilesCheckTyphoon.tsx:29-41 | readings written by `toString` reconcile to their trip whichever slot holds the larger |
| TripReconciler.ReconcileIdempotent | src/components/MilesCheckTyphoon.tsx:32-41 | running the effect on the slots it rewrote gives the same trip and the same slots |
| TripReconciler.ReversedReadingsExample | src/components/MilesCheckTyphoon.tsx:32-37 | 45231 then 44980 is swapped: 251 km, 1506 baht, no alert |
| TripReconciler.OverLimitExample | src/components/MilesCheckTyphoon.tsx:43-45 | 10000 to 10800 is 800 km, 4800 baht, alert |
| TripReconciler.ThresholdExamples | src/components/MilesCheckTyphoon.tsx:43-45 | 666 km (3996) stays quiet, 667 km (4002) alerts |
| OdometerPage.Settle | src/components/MilesCheckTyphoon.tsx:27-48 | one run of the effect leaves the page alone when it does not act; otherwise sets distance and cost, rewrites both mileage slots, keeps the OCR text and alerts iff over the limit |
| OdometerPage.SettleRerun | src/components/MilesCheckTyphoon.tsx:40-41 | when the effect's own slot writes trigger a rerun (a swap, or a reading such as `"088213"` rewritten as `"88213"`), the page is unchanged and the alert is raised again exactly when the first run raised it |
| OdometerPage.Upload | src/components/MilesCheckTyphoon.tsx:103-162 | `loading` stays on iff a conversion rejected; when the new slots do not reconcile the page shows them with the previous distance and cost and no alert; when they do, it shows the trip's distance and cost, both readings rewritten, the new OCR texts, and alerts iff the trip is over the limit |
| OdometerPage.PlaceholdersDoNotParse | src/components/MilesCheckTyphoon.tsx:141 | `parseInt` of the not-found placeholder and of any error text is NaN |
| OdometerPage.PlaceholderSuppressesTrip | src/components/MilesCheckTyphoon.tsx:28-31 | a failed or unconverted file or a not-found reading keeps the trip from being computed: totals unchanged, no alert |
| OdometerPage.SampleTextReading | src/components/MilesCheckTyphoon.tsx:93-95 | "ODO: 088213 km" yields "088213" |
| OdometerPage.SampleAnswerSlot | src/components/MilesCheckTyphoon.tsx:134-149 | the answer `{"natural_text":"ODO: 088213 km"}` fills a slot with "088213" and the unwrapped text |
| OdometerPage.ReadingThenFailure | src/components/MilesCheckTyphoon.tsx:103-160 | that answer for the first file and a failure for the second give the reading, the error text twice, the old totals and no alert |
| AccountSummary.Strip | scripts/account_summary.py:47-48 | `str.strip()` is the trim with Python's white space |
| AccountSummary.FieldOr | scripts/account_summary.py:13 | a matched group is stripped, a missing one gives the default |
| AccountSummary.HeaderOf | scripts/account_summary.py:12-25 | missing company, payee, date and document number give "ไม่พบ", a missing total "0.00"; matched ones are stripped |
| AccountSummary.ParseDecimal | scripts/account_summary.py:40-42 | a decimal read is non-negative and needs a digit |
| AccountSummary.AmountOf | scripts/account_summary.py:39-42 | an amount is never negative, and an empty group gives 0 |
| AccountSummary.ParseDecimalOfParts | scripts/account_summary.py:40 | `Decimal("ip.fp")` is `ip + fp / 10^len(fp)` |
| AccountSummary.RemoveCommasAppend | scripts/account_summary.py:40 | dropping commas distributes over concatenation |
| AccountSummary.EntryAmountParses | scripts/account_summary.py:28-42 | every amount the entry pattern captures is a valid decimal once commas are dropped, never `InvalidOperation` |
| AccountSummary.ParseEntryFields | scripts/account_summary.py:44-50 | a record keeps line and code, strips description and note, and reads the amount |
| AccountSummary.ParseAll | scripts/account_summary.py:37-50 | one record per matched tuple |
| AccountSummary.ParseAllAt | scripts/account_summary.py:37-50 | record *k* comes from tuple *k*, in text order |
| AccountSummary.AddToLookup | scripts/account_summary.py:52 | updating one code adds the amount to that code's total and leaves every other code's total alone |
| AccountSummary.AddToKeys | scripts/account_summary.py:52 | codes stay distinct; an existing code keeps its place, a new one goes last |
| AccountSummary.TotalsLookup | scripts/account_summary.py:52 | a code's total is the sum of the amounts of the entries with that code |
| AccountSummary.TotalsSum | scripts/account_summary.py:52 | the totals over all codes add up to the sum of all amounts |
| AccountSummary.TotalsKeys | scripts/account_summary.py:52 | the totals have each occurring code exactly once and no other |
| AccountSummary.PrefixesNest | scripts/account_summary.py:54-58 | `2154…` and `2111…` codes both start with `21`, and no code is both |
| AccountSummary.Insights | scripts/account_summary.py:66-80 | one message per condition that holds plus the balance verdict, in the order verdict, ADV, Instrumentation, purchase tax, none twice; the first is the balanced message iff balanced, else the unbalanced one; each other message appears iff its condition holds |
| AccountSummary.InstrumentationIgnoresStrip | scripts/account_summary.py:76 | a note mentions "Instrumentation" after stripping iff before |
| AccountSummary.Aggregate | scripts/account_summary.py:37-58 | the loop's records, totals, debit and credit equal their reference definitions |
| AccountSummary.Summarize | scripts/account_summary.py:9-82 | the summary's header, entries, totals, debit (`2154…` only), credit (`2111…` only), `balance_ok` iff debit == credit, and the insight list for that verdict, the text and the records, the unbalanced message first when debit and credit differ |

## Left out

- The guard that alerts and returns when either file is missing: the model
  starts from an upload with both files chosen.
- Network and device I/O: the `fetch` to the OCR route, `FileReader` and
  canvas base64 conversion, React state and rendering, and the blocking
  `alert`, which is a returned flag.
- All server routes under `pages/api`, including the Python subprocess
  launch; `summarizeOcrText` in `sumbycode.tsx`, a floating-point,
  locale-formatting counterpart of the Python script; the tesseract wrapper
  `crop0do.ts`; and the remaining pages and layouts, which are UI and
  network code only. They are not part of this model.
- `JSON.parse` is a parameter: its grammar is not modelled, nor a
  `natural_text` that is a non-empty non-string value (a number would be
  used as the text and `text.match` would throw).
- Response content that is not a string, where `trim` throws: such a
  response is covered by `Failed` with its message.
- The intermediate renders between the two loop iterations, where one slot
  is still `null` and the effect does nothing; the effect is modelled once
  the loop has finished.
- `parseInt` and `toString` beyond 2^53: integers are exact, with no
  rounding, exponent notation or negative zero.
- Unicode digits other than ASCII and Thai, which Python's `\d` and
  `Decimal` also accept.
- `Decimal` input outside digits, an optional point and digits (signs,
  exponents, `NaN`, `Infinity`, white space, underscores), and the 28-digit
  context precision: amounts are exact reals.
- The `float()` conversions and `json.dumps` of the result.
- The Python regular expressions that extract the header and entry fields
  (`re.search`, `findall`): their groups are inputs.
- The `console.log` lines of `handleUpload` on the OCR page.
