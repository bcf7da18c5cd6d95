# Stroke-detection page and record insert endpoint: a Dafny model

The system is a browser page. It captures a webcam frame and classifies it with a hosted image model. It then saves a symptom label ("Stroke detected" / "No stroke detected") through a PHP endpoint into the `heath_record` table. This project models the logic of that path:

- **`PhpConversions`** (`php_conversions.dfy`) covers the PHP built-ins that record-id allocation relies on:
  - the `(int)` cast of a string (leading whitespace, optional sign, longest digit run);
  - integer-to-string conversion;
  - `str_pad(..., STR_PAD_LEFT)`;
  - the binary string order behind `MAX(record_id)`.
- **`InsertRecord`** (`insert_record.dfy`) covers `insert_record.php`:
  - `generateNextRecordId` as a function of the fetched `max_id` (PHP truthiness, `substr`, `(int)`, `+ 1`, the 999 limit and its `die` message, `'r' . str_pad(...)`);
  - `SELECT MAX(record_id)` over the stored rows;
  - the script as a whole (`RunInsert`): allocate, insert the row, echo the success or error line;
  - `HealthRecordTable`, a class whose `Insert` method changes the table's rows in place.
- **`SaveDecision`** (`save_decision.dfy`) covers the computation in the Save button's click handler:
  - the top-1 loop over predictions (strict `>`, starting from `{className: "", probability: 0}`);
  - the stroke rule (`className === "stroke"` and probability at least 0.5);
  - the `detectedAt` string: `toISOString().slice(0, 19).replace('T', ' ')`.
- **`PageControls`** (`page_controls.dfy`) covers the page's state:
  - the script's globals (`model`, `stream`, `webcam`, `capturedImage`);
  - the three buttons' `disabled` flags (initially set by the markup);
  - each click handler, as a method of class `Page`, with a dispatcher that drops clicks on disabled buttons.

The main results:

- When runs of the insert script do not overlap, the allocator always hands out a fresh identifier on a table of well-formed identifiers, so the primary key is never violated. It fails only once `r999` is stored. That is after 1000 rows (`r000` to `r999`), although the message says "999 records".
- Starting from an empty table, the script hands out `r000`, `r001`, … in order.
- The top-1 entry is the earliest entry with the highest probability, or the starting value when no probability is positive.
- An ISO instant becomes a MySQL `DATETIME` literal.
- On the page as written, the Save button is never enabled, so no event sequence ever adds a row. `analyzeImage` never returns its predictions, and the Analyze handler only enables Save when they are returned.

The behaviours below follow the code as written and are kept, not corrected:

- the misspelt `classname` lookup in `analyzeImage`;
- the two `analyzeImage` calls per Analyze click;
- the allocator skips the first byte of the stored maximum unchecked, so any one-byte first character is accepted;
- the allocator accepts a negative suffix (`r-5` yields `r0-4`).

## Model

| member | source | states |
|---|---|---|
| PhpConversions.SkipSpaces | insert_record.php:17 | the `(int)` cast skips exactly the leading PHP whitespace: the result is a suffix, everything dropped is whitespace, and the result does not start with whitespace |
| PhpConversions.LeadingDigits | insert_record.php:17 | the cast reads the longest all-digit prefix: a prefix of the input, all digits, and the next character is not a digit |
| PhpConversions.IntCast | insert_record.php:17 | `(int)` of a digit string, leading zeros included, is the number it spells; the result is negative only after a '-' (past leading whitespace); a string with no sign or digit after its whitespace casts to 0 |
| PhpConversions.NatToString | insert_record.php:29 | the decimal text of a number is non-empty, all digits, spells the number and has no leading zero |
| PhpConversions.IntToString | insert_record.php:29 | the text of a negative number is a minus sign followed by the digits of its absolute value |
| PhpConversions.NatToStringShort | insert_record.php:24-29 | numbers below 1000 have at most three digits, so padding to 3 never truncates |
| PhpConversions.StrPadLeft | insert_record.php:29 | left padding gives length max(\|s\|, length), keeps `s` as the suffix and fills the front with the pad character |
| PhpConversions.ZeroPaddingKeepsValue | insert_record.php:29 | zeros in front of a digit string keep it all digits and keep its value |
| PhpConversions.ZerosValue | insert_record.php:29 | a run of zeros has value 0 |
| PhpConversions.StrLeReflexive | insert_record.php:11 | the binary collation order is reflexive |
| PhpConversions.StrLeTotal | insert_record.php:11 | the binary collation order is total, so MAX is defined on any non-empty column |
| PhpConversions.StrLeTransitive | insert_record.php:11 | the binary collation order is transitive |
| PhpConversions.StrLeAntisymmetric | insert_record.php:11 | the binary collation order is antisymmetric, so the maximum value is unique |
| InsertRecord.PhpTruthy | insert_record.php:15 | a truthy `max_id` is a non-NULL string with a first character for `substr` to drop (NULL, "" and "0" are falsy) |
| InsertRecord.NextNum | insert_record.php:15-22 | a falsy maximum gives 0; a truthy maximum whose remainder after the first character is all digits gives that number plus one |
| InsertRecord.FormatRecordId | insert_record.php:29 | 'r' plus `str_pad` is at least four characters starting with 'r', and for 0 ≤ n ≤ 999 it is an identifier rNNN numbered n |
| InsertRecord.IdNumber | insert_record.php:24 | the number of an identifier rNNN is at most 999 |
| InsertRecord.RecordId | insert_record.php:24-29 | the identifier built for n ≤ 999 has the form rNNN and its number is n |
| InsertRecord.RecordIdOfNumber | insert_record.php:24 | an identifier of the form rNNN is determined by its number |
| InsertRecord.IdDigitsValue | insert_record.php:17 | the three characters after 'r' are digits whose value is the identifier's number |
| InsertRecord.PaddedDigits | insert_record.php:29 | `str_pad` of a number below 1000 gives three digits that spell it |
| InsertRecord.FormatIsRecordId | insert_record.php:29 | `'r' . str_pad(n, 3, '0', STR_PAD_LEFT)` for 0 ≤ n ≤ 999 is the identifier rNNN of n |
| InsertRecord.GenerateNextRecordId | insert_record.php:9-30 | fails exactly when the next number exceeds 999, with the limit message; otherwise returns 'r' plus at least three characters, and for a non-negative number the identifier of that number |
| InsertRecord.FirstRecordId | insert_record.php:15-22 | a NULL or falsy maximum (including "0") gives r000 |
| InsertRecord.NextNumAfter | insert_record.php:17-18 | for a stored rNNN the next number is NNN + 1 |
| InsertRecord.NextAfter | insert_record.php:15-29 | after rNNN comes r(NNN+1), and after r999 comes the limit failure |
| InsertRecord.PrefixNotChecked | insert_record.php:17 | the first byte of the maximum is ignored: any one-byte (ASCII) first character gives the same result as 'r' |
| InsertRecord.SingleCharacterMaximum | insert_record.php:15-21 | a one-character maximum gives r000 when it is "0" (falsy) and r001 otherwise |
| InsertRecord.NegativeSuffix | insert_record.php:17-29 | the maximum "r-5" passes the limit check and yields "r0-4", which is not of the form rNNN |
| InsertRecord.MaxRecordId | insert_record.php:11-13 | MAX is NULL exactly on an empty table; otherwise it is a stored identifier and no stored identifier sorts after it |
| InsertRecord.RecordIdOrder | insert_record.php:11 | on identifiers of the form rNNN the string order is the numeric order |
| InsertRecord.MaxIsNumericMax | insert_record.php:11-13 | on well-formed identifiers MAX is a stored identifier with the largest number |
| InsertRecord.NextIdExceedsAll | insert_record.php:9-30 | on well-formed identifiers, a successful allocation is well-formed and numbered above every stored one; a failure means r999 is stored |
| InsertRecord.SequentialIsWellFormed | insert_record.php:24-29 | a table numbered r000, r001, … in order has distinct, well-formed identifiers |
| InsertRecord.SequentialMax | insert_record.php:11-13 | in such a table MAX is the last identifier |
| InsertRecord.NextAfterMax | insert_record.php:15-27 | when MAX is rNNN the allocation is r(NNN+1), or the limit failure at 999 |
| InsertRecord.SequentialNext | insert_record.php:9-30 | in a sequential table of k rows the allocation is the identifier of k, or the limit failure when k = 1000 |
| InsertRecord.RunInsert | insert_record.php:32-43 | the table is unchanged or gains exactly one row at the end; the row is added exactly when allocation succeeds and the INSERT executes; the row holds (allocated id, symptom, detected_At) and the echo is the success line with that id; a limit failure echoes the limit message; a failed execute echoes "Error: " + SQL + "<br>" + the driver error |
| InsertRecord.InsertKeepsWellFormed | insert_record.php:32-43 | a run keeps identifiers well-formed and distinct |
| InsertRecord.AppendLargerKeepsWellFormed | insert_record.php:35-40 | appending a row numbered above all others keeps identifiers distinct |
| InsertRecord.InsertKeepsSequential | insert_record.php:32-43 | runs starting from an empty table number rows r000, r001, … in order |
| InsertRecord.AppendKeepsSequential | insert_record.php:35-40 | appending the identifier of k to a sequential table of k rows keeps it sequential |
| InsertRecord.HealthRecordTable.Insert | insert_record.php:32-43 | the new rows and the echoed text are those of `RunInsert` on the old rows; well-formedness and sequential numbering are preserved |
| SaveDecision.Top1 | script.js:268-274 | the loop's result is the starting value `{className: "", probability: 0}` or one of the predictions |
| SaveDecision.Top1Bounds | script.js:268-274 | the running best has probability at least 0 and at least every entry's, and is either the starting value or the earliest maximal entry with positive probability |
| SaveDecision.Top1Characterization | script.js:268-274 | top-1 is the starting value exactly when no probability is positive, otherwise the earliest maximal entry |
| SaveDecision.EarliestMaxUnique | script.js:270-274 | there is only one earliest maximal entry |
| SaveDecision.SelectTop1 | script.js:268-274 | the loop returns `Top1` of the predictions, with probability at least 0 and at least every entry's |
| SaveDecision.Symptom | script.js:277-279 | "Stroke detected" exactly when the class is "stroke" with probability ≥ 0.5, otherwise "No stroke detected" |
| SaveDecision.SymptomOfPredictions | script.js:268-279 | "Stroke detected" exactly when the earliest maximal prediction is "stroke" at ≥ 0.5; a later stroke entry that only ties does not count |
| SaveDecision.IndexOf | script.js:264 | -1 exactly when the character is absent, otherwise the position of its first occurrence |
| SaveDecision.ReplaceFirst | script.js:264 | `replace` with a string pattern changes only the first occurrence, position by position |
| SaveDecision.Slice | script.js:264 | `slice(0, n)` is a prefix of length min(\|s\|, n) |
| SaveDecision.DetectedAt | script.js:264 | the result has length min(\|iso\|, 19), and each character is the input's, except that the first 'T' becomes a space |
| SaveDecision.DetectedAtOfIsoInstant | script.js:264 | an ISO instant `YYYY-MM-DDTHH:MM:SS.sssZ` becomes `YYYY-MM-DD HH:MM:SS` with the date and time unchanged |
| PageControls.Property | script.js:135 | a prediction object's own keys are only `className` and `probability`; the key `classname` is undefined |
| PageControls.JsTruthy | script.js:135 | an undefined property is falsy |
| PageControls.SaveEffect | script.js:262-298 | an alert appears exactly when `model` is set and `predict` returns; the table changes only if the request reached insert_record.php, and then as `RunInsert` does for the top-1 symptom and the formatted time; Save is disabled exactly when the response text arrived; a delivered response is alerted as is, and otherwise "Error saving record" is alerted |
| PageControls.Page.constructor | index.php:17-21 | after page load Capture, Analyze and Save are disabled, no model, stream, webcam or frame exists, and the page invariant holds |
| PageControls.Page.LoadModel | script.js:24-47 | `model` is set only when loading succeeds; no other field changes |
| PageControls.Page.StartCamera | script.js:51-68 | a denied camera changes only the message; a granted one sets the stream, enables Capture and relabels the button "Restart Camera"; `webcam` is set unless the Webcam constructor threw; a throwing constructor or a failed webcam setup shows the camera error; no other field changes |
| PageControls.Page.StopCamera | script.js:71-85 | with a stream, Capture and Analyze are disabled and "Camera stopped." is shown; without one, only "No active camera stream." is shown; `stream` is never cleared; no other field changes |
| PageControls.Page.CaptureImage | script.js:87-100 | a frame is kept, the preview is shown, Analyze is enabled and the capture text is shown; no other field changes |
| PageControls.Page.AnalyzeImage | script.js:103-151 | returns nothing and never saves automatically; shows "Analyzing..." only when a model is loaded; no other field changes |
| PageControls.Page.AnalyzeClick | script.js:214-222 | shows the preview and "Analyzing..." (with a model); every other field, Save's disabled flag included, is unchanged |
| PageControls.Page.SaveClick | script.js:262-298 | the table, the alert and Save's flag are those of `SaveEffect` on the old table: with `model` null or `predict` throwing, nothing is posted; when the request fails, or the script ran but its response was lost, the error alert is shown and Save stays as it was; on delivery the endpoint's text is alerted and Save is disabled; no other page field changes |
| PageControls.Page.Dispatch | script.js:51-298 | each event's full effect on every page field: a click on a disabled Capture, Analyze or Save button leaves the page and the table unchanged; an enabled click has its handler's effect; only an enabled Save click alerts or changes the table, as `SaveEffect` says; the page invariant is preserved |
| PageControls.PageSession | script.js:214-222 | over any event sequence after page load, Save is never enabled and the table is never changed |

## Left out

- Inference: the hosted model, `tmImage.load`, `getTotalClasses` and `model.predict` are inputs. The prediction list is an input of the Save event; a thrown `predict` is `None`.
- Camera and drawing: the camera, `getUserMedia`, the Teachable Machine webcam, canvases and the JPEG data URL are not modelled. Each is a boolean or an event outcome.
- Network: `fetch` is an input of the Save event. It delivers the endpoint's text, or it fails after the script ran, or the request fails before reaching it. `encodeURIComponent` and form decoding are identity round trips, so they are not modelled.
- Browser output: `alert` is a return value. `console` output, the model-status line, the label container and the `toFixed` texts are not modelled, because they are display only.
- The live prediction loop (`loop`, `predict`) is not modelled. It writes only to the label display and is never started.
- `updateTime`, the clock and the `DOMContentLoaded` check for `tmImage` are not modelled. The current time reaches the model only as the ISO string of the Save event.
- The `beforeunload` handler is not modelled, because it only stops devices.
- Overlapping requests: each run of insert_record.php is treated as atomic. The script reads `MAX(record_id)` and inserts later without a lock or transaction, so two overlapping requests can read the same maximum and allocate the same identifier. The freshness results hold only when requests do not overlap.
- PageControls.Property: only own keys of the prediction object are modelled; members inherited from `Object.prototype` (such as `toString`) are not, and only the own key `classname` is ever looked up.
- Concurrency: `savedPredictionToDatabase` (posting to `heath_record.php`) is guarded by the undefined `classname` lookup, so it is never reached, and `heath_record.php` is not part of this model. Asynchronous interleaving is not modelled: each handler runs to completion, and the two `analyzeImage` calls of one Analyze click run one after the other.
- MySQL: `config.php`, the connection and the driver are not modelled. A failed execute is the `dbError` input, and the table is a sequence of rows.
- PHP request input: a missing `symptom` or `detected_At` POST field (which PHP reads as null) is not modelled. The fields are strings.
- InsertRecord.NextNum: the stored identifier is read as a sequence of characters, but PHP's `substr($maxId, 1)` drops one byte. For a maximum whose first character is multi-byte in UTF-8 (such as "é5"), PHP casts the leftover continuation byte and digits to 0 and returns r001, while the model returns r006.
- SaveDecision.Prediction: JavaScript probabilities are IEEE doubles, but they are modelled as real numbers. NaN (every comparison false) and rounding at the 0.5 threshold are not modelled.
- InsertRecord.MaxRecordId: the column collation is modelled as binary (code-point order), not the server's default collation. The two agree on identifiers of the form rNNN.
- PhpConversions.IntCast: exponent notation such as "1e3" and overflow past PHP_INT_MAX are not modelled, because integers are unbounded here.
- InsertRecord.GenerateNextRecordId: for a negative next number, the contract states only that the result starts with 'r' and has at least four characters. `NegativeSuffix` pins down one such case exactly.
