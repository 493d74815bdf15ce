# Vehicle licence-plate monitor: the decision core in Dafny

This project models the decision logic of the vehicle monitoring system in
`vlp/vlp/main2.py`. A camera frame is searched for a plate-shaped contour.
The OCR reading of that contour is corrected for letter/digit confusions and
cleaned of spaces. A non-empty reading is then logged in the `logs` table:
a plate never seen before gets a new row and the label "New Car"; a known
plate has its `last_entry_time` refreshed and is labelled with its previous
last entry. The table is seeded with four known vehicles and can be listed.

The modules follow the structure of the program:

- `Wrappers` (`wrappers.dfy`): `Option` and `Result`.
- `Text` (`text.dfy`): the Python string primitives the code uses.
  - `str.replace` with one-character arguments.
  - `str.upper` on ASCII.
  - `str.strip` with `str.isspace` as its whitespace.
  - Lexicographic order on timestamp text.
- `Ocr` (`ocr.dfy`): the text post-correction of `perform_ocr`.
- `SightingStore` (`store.dfy`): the `logs` table as an immutable sequence of rows in insertion order.
  - `init_database`, `log_plate` and `view_database`.
  - The `UNIQUE` constraint on `plate_number`.
- `PlateLocator` (`locator.dfy`): the contour selection rule of `find_license_plate_contour`.
- `CaptureLoop` (`capture.dfy`): the body of the capture loop in `main`.
  - The gate: a contour was found and the reading is non-empty.
  - The call to `log_plate`.
  - The label text.

Each operation is paired with an independent description and a lemma that
connects the two:

- The chain of six `replace` calls is proved equal to a single
  per-character confusion map. Together with the space deletion it is one
  left-to-right pass (`CorrectChars`).
- `log_plate` is described by what it does to the rows: which row is
  appended or updated, and that nothing else changes.
  - It preserves the `UNIQUE` invariant and the set of plates.
  - Logging the same key twice reports the first call's time.
- Seeding is proved idempotent, to keep existing rows, and to produce
  exactly the four seed rows on an empty table.
- Normalisation is proved idempotent and to distribute over concatenation,
  so spaces and letter case do not change the key.

Behaviour of the code worth knowing, which the model follows:

- The OCR correction removes only the ASCII space `' '`.
  - Other whitespace inside the reading (tab, newline) stays.
  - Only whitespace at the two ends is removed, by `strip()`.
  - `CorrectReading` therefore promises no `' '` anywhere, and no
    whitespace only at the ends.
- The correction runs before `log_plate` upper-cases.
  - A lower-case `o`, `i`, `z`, `s` or `b` passes the correction unchanged.
  - It is then stored as the very letter the table was meant to remove:
    `LowerCaseConfusableReachesKey` shows that a reading `o` is stored
    under the key `O`.
  - Conversely, every upper-case `B` becomes `8`. A key can hold `B` only
    when the engine read a lower-case `b`. A correct upper-case reading
    of the seeded plate `22BH6517A` is logged as `228H6517A`, never under
    the seeded key. Its first sighting is therefore labelled "New Car"
    (`UpperCaseBNeverReachesKey`).
- `entry_time <= last_entry_time` is not enforced by the code.
  `LogPlateKeepsEntriesOrdered` gives a sufficient condition for it to
  survive `log_plate`: every row is already ordered and `now` is no earlier
  than the last entry of every row (`ClockAhead`). The condition is not
  necessary: only the row with the key is touched, so rows last seen after
  `now` do not matter.
- The `UPDATE` in `log_plate` sets `last_entry_time` in every row with the
  key.
  - The model keeps that, so `LogPlate` needs no precondition.
  - Under the `UNIQUE` constraint there is exactly one such row
    (`LogPlateRepeatTouchesOneRow`).

## Model

| member | source | states |
|---|---|---|
| Text.ReplaceChar | vlp/vlp/main2.py:104-105 | `replace(a, b)` with one-character arguments keeps the length, puts `b` at every position that held `a`, and leaves every other position unchanged |
| Text.RemoveChar | vlp/vlp/main2.py:105 | `replace(' ', '')` leaves no occurrence of the deleted character, never lengthens, and is the identity when the character is absent |
| Text.RemoveCharKeepsOthers | vlp/vlp/main2.py:105 | deleting one character keeps the number of occurrences of every other character |
| Text.RemoveCharAppend | vlp/vlp/main2.py:105 | deleting a character distributes over concatenation, so survivors keep their relative order |
| Text.RemoveCharSkipsOccurrence | vlp/vlp/main2.py:52 | an extra occurrence of the deleted character anywhere makes no difference to the result |
| Text.UpperChar | vlp/vlp/main2.py:52 | upper-casing one character maps `a`..`z` to `A`..`Z` (code point minus 32) and leaves every other character alone |
| Text.Upper | vlp/vlp/main2.py:52 | `upper()` keeps the length, maps each position independently, and leaves no lower-case ASCII letter |
| Text.UpperAppend | vlp/vlp/main2.py:52 | upper-casing distributes over concatenation |
| Text.UpperKeepsSpaces | vlp/vlp/main2.py:52 | upper-casing produces a space exactly when the input held one |
| Text.StripStart | vlp/vlp/main2.py:106 | the start of `strip()`: everything before it is whitespace and the character at it is not |
| Text.StripEnd | vlp/vlp/main2.py:106 | the end of `strip()` from a given start: everything from it on is whitespace and the character before it, if after the start, is not |
| Text.Strip | vlp/vlp/main2.py:106 | `strip()` returns a contiguous slice of its input, everything before and after the slice is whitespace, and the slice neither starts nor ends with whitespace |
| Text.StripUntrimmed | vlp/vlp/main2.py:106 | text that neither starts nor ends with whitespace is unchanged by `strip()` |
| Text.StripKeepsNonSpace | vlp/vlp/main2.py:106 | `strip()` keeps every non-whitespace character with its multiplicity |
| Text.IsSpace | vlp/vlp/main2.py:106 | a character `strip()` removes is never an ASCII letter or digit |
| Ocr.ReplaceChain | vlp/vlp/main2.py:104-105 | the six chained `replace` calls keep the length and send each character through the confusion table |
| Ocr.CorrectReading | vlp/vlp/main2.py:104-106 | the corrected reading contains none of O, I, l, Z, S, B and no space, and does not start or end with whitespace |
| Ocr.ReplaceChainIsPerCharMap | vlp/vlp/main2.py:104-105 | the six chained `replace` calls equal one per-character map through the confusion table, because no replacement digit is replaced later |
| Ocr.RemoveSpacesAfterMap | vlp/vlp/main2.py:105 | deleting spaces after the map is the single left-to-right pass that drops spaces and maps every other character |
| Ocr.ChainThenRemoveIsSinglePass | vlp/vlp/main2.py:104-105 | the replace chain followed by space deletion equals the single-pass reference definition |
| Ocr.CorrectReadingIsSinglePass | vlp/vlp/main2.py:104-106 | the whole post-correction equals the single pass followed by `strip()` |
| Ocr.CorrectCharsClean | vlp/vlp/main2.py:104-105 | the single pass leaves no confusable letter and no space |
| Ocr.StripKeepsClean | vlp/vlp/main2.py:106 | `strip()` cannot reintroduce a confusable letter or a space |
| Ocr.CorrectReadingKeepsOutB | vlp/vlp/main2.py:104-106 | the correction removes every `B` and, from a reading without `b`, produces none |
| Ocr.MapConfusionCount | vlp/vlp/main2.py:104-105 | a character the table neither rewrites nor produces keeps its count through the map |
| Ocr.CorrectReadingKeepsOthers | vlp/vlp/main2.py:104-106 | a non-whitespace character that is neither confusable nor a correction digit keeps its number of occurrences through the whole correction |
| Ocr.CorrectionExample | vlp/vlp/main2.py:104-106 | the reading `O0I1Z2S5B8` is corrected to `0011225588` |
| SightingStore.Normalize | vlp/vlp/main2.py:52 | the key holds no space and no lower-case ASCII letter and is no longer than the reading |
| SightingStore.NormalizeIdempotent | vlp/vlp/main2.py:52 | normalising a key again gives the same key |
| SightingStore.NormalizeAppend | vlp/vlp/main2.py:52 | normalisation distributes over concatenation and a lone space normalises to nothing |
| SightingStore.NormalizeIgnoresSpace | vlp/vlp/main2.py:52 | inserting a space anywhere does not change the key |
| SightingStore.NormalizeIgnoresSpaces | vlp/vlp/main2.py:52 | four groups separated by spaces have the key of the groups written together |
| SightingStore.NormalizeJoin | vlp/vlp/main2.py:52 | readings with equal keys keep equal keys when one gains a space and both gain the same group |
| SightingStore.NormalizeIgnoresCase | vlp/vlp/main2.py:52 | upper-casing the reading first does not change the key |
| SightingStore.UpperCommutesWithRemoveSpace | vlp/vlp/main2.py:52 | deleting spaces and upper-casing may be done in either order |
| SightingStore.NormalizeKeepsOutB | vlp/vlp/main2.py:52 | a reading without `b` and without `B` has a key without `B` |
| SightingStore.NormalizeFixedPoint | vlp/vlp/main2.py:52 | a text without spaces or lower-case ASCII letters is its own key |
| SightingStore.SpacedLowerCaseReadingSameKey | vlp/vlp/main2.py:52 | `RJ 14 cv 0002` and `RJ14CV0002` both normalise to `RJ14CV0002` |
| SightingStore.Lookup | vlp/vlp/main2.py:54-55 | the lookup finds nothing exactly when the key is absent, and otherwise the first row holding the key |
| SightingStore.Insert | vlp/vlp/main2.py:31-41 | an insert fails with `IntegrityError` exactly when the plate is already present, and otherwise appends the row and keeps the earlier rows |
| SightingStore.InsertPlates | vlp/vlp/main2.py:58-59 | inserting an absent plate adds exactly that plate to the set of plates |
| SightingStore.InsertKeepsUnique | vlp/vlp/main2.py:33 | a successful insert keeps plates pairwise distinct |
| SightingStore.LogPlate | vlp/vlp/main2.py:48-69 | the result is new exactly when the key is absent. New: the answer is `(True, None)` and one row `(key, now, now)` is appended behind the unchanged rows. Known: the answer is the stored last entry of a row with that key, every such row has its last entry set to `now`, and every other row is unchanged |
| SightingStore.SetLastEntry | vlp/vlp/main2.py:65-66 | the update sets `last_entry_time` in every row with the key and leaves every other row unchanged; it keeps the set of plates and the `UNIQUE` constraint, and under that constraint it is a change of the one row holding the key |
| SightingStore.UpdateKeepsPlates | vlp/vlp/main2.py:65-66 | a row-wise update of `last_entry_time` by key keeps the set of plates, keeps uniqueness, and under uniqueness changes only the row holding the key |
| SightingStore.LogPlateKeepsUnique | vlp/vlp/main2.py:57-66 | both branches keep plates pairwise distinct |
| SightingStore.LogPlateKeepsPlates | vlp/vlp/main2.py:57-66 | the plates afterwards are the plates before plus the logged key |
| SightingStore.LogPlateRepeatTouchesOneRow | vlp/vlp/main2.py:63-69 | under uniqueness, a known key changes exactly its own row's `last_entry_time` and reports that row's previous value |
| SightingStore.LogPlateTwice | vlp/vlp/main2.py:48-69 | a second reading with the same key is reported as an existing car last seen at the time of the first call |
| SightingStore.LogPlatePresent | vlp/vlp/main2.py:57-66 | after the call every row with the key has `now` as its last entry |
| SightingStore.SeedStep | vlp/vlp/main2.py:37-43 | one seed insert appends the record when its plate is absent and otherwise leaves the table unchanged, the `IntegrityError` being swallowed |
| SightingStore.SeedAll | vlp/vlp/main2.py:36-43 | seeding only appends, so the existing rows stay as they were |
| SightingStore.SeedAllPlates | vlp/vlp/main2.py:36-43 | after seeding every seed plate is present, no plate is lost, and every appended row is a seed record |
| SightingStore.SeedAllKeepsUnique | vlp/vlp/main2.py:33-43 | seeding keeps plates pairwise distinct, because failed inserts are swallowed |
| SightingStore.SeedAllNoOp | vlp/vlp/main2.py:36-43 | seeding a table that already holds every seed plate changes nothing |
| SightingStore.SeedAllFresh | vlp/vlp/main2.py:36-43 | seeding with distinct, absent plates appends all the seeds in order |
| SightingStore.InitDatabase | vlp/vlp/main2.py:28-45 | initialisation keeps existing rows as a prefix, makes all four seed plates present, and keeps uniqueness |
| SightingStore.InitDatabaseIdempotent | vlp/vlp/main2.py:36-43 | initialising twice gives the table of initialising once |
| SightingStore.InitDatabaseKeepsExistingRow | vlp/vlp/main2.py:36-43 | every row present before initialisation is left exactly as it was |
| SightingStore.InitDatabaseFresh | vlp/vlp/main2.py:16-43 | initialising an empty table stores exactly the four predefined records in order |
| SightingStore.PredefinedVehiclesShape | vlp/vlp/main2.py:16-21 | the seed list holds four distinct plates, each first and last seen at the same time |
| SightingStore.ViewDatabase | vlp/vlp/main2.py:109-115 | the listing has one tuple per row, in storage order, with that row's fields; the plates it lists are exactly the plates in the table, and under the `UNIQUE` constraint no plate is listed twice |
| SightingStore.ViewAfterFreshInit | vlp/vlp/main2.py:109-115 | after initialising an empty table the listing has four rows: the four seed plates, unique, each with equal timestamps |
| SightingStore.LogPlateKeepsEntriesOrdered | vlp/vlp/main2.py:51-66 | if every row was first seen no later than it was last seen and the clock is not behind any last entry, this still holds after logging |
| SightingStore.InitDatabaseFreshEntriesOrdered | vlp/vlp/main2.py:16-21 | a freshly seeded table has every entry time no later than its last entry time |
| PlateLocator.AspectTestIntegerForm | vlp/vlp/main2.py:83-85 | `1.5 < w / h < 5` holds exactly when `2w > 3h` and `w < 5h` |
| PlateLocator.IsPlateShaped | vlp/vlp/main2.py:85 | a contour qualifies exactly when twice its width exceeds three times its height, its width is below five times its height, and its area exceeds 1000 |
| PlateLocator.FindPlateContour | vlp/vlp/main2.py:79-87 | the result is `None` exactly when no contour qualifies; otherwise it is a qualifying contour with no qualifying contour before it |
| PlateLocator.FindPlateContourIgnoresLater | vlp/vlp/main2.py:81-86 | once a contour qualifies, contours after it do not change the choice |
| PlateLocator.SingleWideRectangleChosen | vlp/vlp/main2.py:81-86 | a lone rectangle three times as wide as it is high with area 5000 is chosen |
| CaptureLoop.Label | vlp/vlp/main2.py:151 | the label is "New Car" exactly for a new car; otherwise it is the prefix followed by the last entry, or by `None` when there is none |
| CaptureLoop.GateOpensOnPlateAndText | vlp/vlp/main2.py:145-149 | a frame is logged exactly when one of its contours is plate-shaped and its corrected reading is non-empty |
| CaptureLoop.ProcessFrame | vlp/vlp/main2.py:143-152 | a label is drawn and `log_plate` runs exactly when a contour was found and the corrected reading is non-empty, and otherwise the table is unchanged. The label is "New Car" exactly for an absent key; otherwise it reports a stored last entry of that key |
| CaptureLoop.ProcessFrameKeepsPlates | vlp/vlp/main2.py:145-152 | one loop pass never loses a plate and keeps uniqueness |
| CaptureLoop.RunCapture | vlp/vlp/main2.py:137-155 | a run yields one label slot per frame, filled exactly for the frames that pass the gate |
| CaptureLoop.RunCaptureResumes | vlp/vlp/main2.py:137-155 | a run may be resumed at any frame: frame `i` gets the first label of the run restarted from the table the first `i` frames left, and that run ends with the same table |
| CaptureLoop.RunCaptureLabels | vlp/vlp/main2.py:137-152 | the label of frame `i` is the one a single pass gives on the table left by the frames before it |
| CaptureLoop.SecondSightingLabel | vlp/vlp/main2.py:145-152 | two logged frames whose readings have the same key: the second is labelled an existing car last seen at the first frame's time |
| CaptureLoop.SecondSightingInRun | vlp/vlp/main2.py:137-152 | in a run of two such frames the second label reports the first frame's time |
| CaptureLoop.RunCaptureKeepsPlates | vlp/vlp/main2.py:137-155 | over a whole run no plate is lost and uniqueness holds throughout |
| CaptureLoop.RunCaptureIdleKeepsTable | vlp/vlp/main2.py:145-149 | a run in which no frame passes the gate leaves the table unchanged |
| CaptureLoop.LoggedKeyIsUpperCasedReading | vlp/vlp/main2.py:147-150 | the key of a logged frame is the corrected reading upper-cased: non-empty and without spaces |
| CaptureLoop.UpperCaseBNeverReachesKey | vlp/vlp/main2.py:105 | a reading without a lower-case `b` is logged under a key without `B`, and so never under the seeded key `22BH6517A` |
| CaptureLoop.LowerCaseConfusableReachesKey | vlp/vlp/main2.py:104-106 | a reading `o` in a frame with a plate contour is logged under the key `O` |

## Left out

- I/O is not modelled: the SQLite connection, cursors, SQL text, commits,
  the database folder and the `id` column. The table is a sequence of rows
  in insertion order.
- The clock is not modelled: `datetime.now()` becomes the `now` parameter
  of `LogPlate`, and timestamps are opaque text.
- OpenCV is not modelled: camera capture, grey-scale conversion, blur,
  Canny, `findContours`, `boundingRect`, `contourArea`, cropping, Otsu
  thresholding and `putText`.
  - A contour is given by its bounding width, height and area.
  - A frame is given by its contours and by the raw text read from the
    chosen contour.
- The Tesseract call is not modelled; its output string is the input of
  `CorrectReading`.
- The Streamlit interface is not modelled: mode selection, buttons, image
  display and table display. Neither is the `q` key or the end-of-stream
  check that stops the loop; a run is the finite sequence of frames
  processed before it stopped.
- SightingStore.Normalize: upper-cases only ASCII `a`..`z`, so a reading
  with a non-ASCII lower-case letter gets a different key than in Python
  (`é` stays `é`, where Python gives `É`). The bound `|key| <= |plate|`
  holds only in the model, because Python turns `ß` into `SS`. The key
  has no space and no lower-case ASCII letter in both.
- SightingStore.NormalizeFixedPoint: a text without spaces and without
  lower-case ASCII letters is its own key only under the ASCII-only
  upper-casing. In Python a non-ASCII lower-case letter such as `é`
  still changes.
- Text.UpperChar: maps only ASCII `a`..`z` and leaves every other
  character alone. Python's `str.upper` also upper-cases non-ASCII
  letters (`é` becomes `É`).
- Text.Upper: maps only ASCII `a`..`z`. Python's `str.upper` also changes
  non-ASCII letters and can lengthen a string (`ß` becomes `SS`).
- PlateLocator.AspectRatio: uses exact rational division, not the
  floating-point `w / float(h)`. The two can differ only for ratios within
  rounding distance of 1.5 or 5.
- PlateLocator.Contour: the area is any real number. `contourArea` is
  computed in floating point and its value is taken as given.
