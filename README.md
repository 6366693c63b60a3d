# Sheet preprocessing and chat session store, modelled in Dafny

The back end of this spreadsheet chat application has two services that
this project models.

**The sheet preprocessor** (`back_end/app/services/preprocess.py`) cleans
an uploaded sheet column by column before the columns are used. Every
column goes through five stages in a fixed order:

1. trim surrounding whitespace from string cells;
2. turn NA sentinels (`""`, `na`, `n/a`, `nan`, `null`, `none`, `-`, `--`) into missing values;
3. coerce to nullable booleans when at least 80% of the non-missing cells are yes/no-like tokens;
4. coerce to numbers when at least 60% of the non-missing cells look numeric;
5. coerce to datetimes when at least 60% of all cells parse as dates.

The driver works on a copy of the data frame and trims string column
labels first.

**The session store** (`back_end/app/services/session_store.py`) keeps one
JSON file per chat session, named `session_<id>.json`, in a storage
directory. It creates a record, reads it back, appends a message to it, and
lists session summaries, optionally for one uploaded file. The summaries
are sorted in descending order of their `lastMessageAt` string, compared
code point by code point. That string is the last message's timestamp, or
`createdAt` when there are no messages, and a missing value sorts as `""`.

## Modules

- `Wrappers` (`wrappers.dfy`): `Option` and `Result`.
- `Strings` (`strings.dfy`): the few Python `str` operations the code uses.
  - `strip()` with Python's whitespace set;
  - `lower()` on ASCII letters;
  - `replace(c, "")`;
  - `startswith` and `endswith`;
  - the lexicographic order of `str` comparison.
- `Classifier` (`classifier.dfy`):
  - cells, and how a cell renders as text;
  - the NA sentinels;
  - the numeric-like test, with the regular expression `[-+]?\d*(?:\.\d+)?` turned into a matcher and a declarative characterisation;
  - the boolean tokens.
- `Preprocess` (`preprocess.dfy`):
  - the column kinds;
  - the five stages as functions from a column to a column;
  - the per-column pipeline;
  - the lemmas stating what each stage does.
- `Frames` (`frames.dfy`): the driver, done imperatively.
  - A `Frame` class holds labels, columns and height.
  - `InferAndClean` copies the caller's frame, reassigns the labels, and loops over the columns, writing each cleaned column back.
  - It is proved against a functional specification, `InferAndCleanSpec`.
- `SessionStore` (`session_store.dfy`):
  - A `Store` class holds the directory as a map from file name to what reading that file gives.
  - Its methods create, read, append and list.
  - Pure functions specify each method, and lemmas relate them.

Library behaviour the code calls but does not define is passed in as an
`Oracles` value of total functions. This covers `str()` of a float or a
timestamp, `pd.to_numeric` on one cleaned string, and `pd.to_datetime` on
one cell or on a whole column. All proofs hold for every choice of oracles.
`str()` of an integer is not an oracle: it is written out as decimal digits
(`Strings.IntText`), so `1` renders as `"1"`, a boolean token, while a float
renders however the oracle says (`"1.0"` in Python).

The two ratio thresholds are compared without floating point:

- `ratio >= 0.8` becomes `5 * count >= 4 * denom`;
- `ratio >= 0.6` becomes `5 * count >= 3 * denom`.

## Model

| member | source | states |
|---|---|---|
| Strings.Strip | back_end/app/services/preprocess.py:116 | `str.strip()` never lengthens the text and leaves no whitespace at either end; that only whitespace is removed, and from the ends only, is stated by `Strings.StripSpec` |
| Strings.StripSpec | back_end/app/services/preprocess.py:116 | the stripped text is a contiguous slice of the input, every character outside it is whitespace, and the slice neither starts nor ends with whitespace |
| Strings.StripIdempotent | back_end/app/services/preprocess.py:16 | stripping twice gives the same text as stripping once |
| Strings.Lower | back_end/app/services/preprocess.py:17 | `lower()`: same length, each upper-case ASCII letter lowered and every other character kept; no upper-case ASCII letter is left, and a text with none is returned as it is |
| Strings.LowerIdempotent | back_end/app/services/preprocess.py:17 | lowering twice gives the same text as lowering once |
| Strings.Without | back_end/app/services/preprocess.py:20 | `replace(c, "")`: `c` no longer occurs, the result is no longer than the input, and every other character occurs exactly as often as before |
| Strings.WithoutConcat | back_end/app/services/preprocess.py:20 | removal works character by character: removing from a concatenation is removing from each part and concatenating, so the kept characters stay in their order |
| Strings.WithoutAbsent | back_end/app/services/preprocess.py:20 | removing a character that does not occur leaves the text as it was |
| Strings.NatText | back_end/app/services/preprocess.py:38 | `str()` of a non-negative integer: a non-empty run of decimal digits with no leading zero |
| Strings.IntText | back_end/app/services/preprocess.py:58 | `str()` of an integer, the digits of its magnitude with `-` before a negative one; what it promises is stated by `Strings.IntTextValue`, `Strings.IntTextInjective` and `Classifier.IntTokens` |
| Strings.NatTextValue | back_end/app/services/preprocess.py:38 | the digits `str()` writes for a non-negative integer read back as that integer |
| Strings.IntTextValue | back_end/app/services/preprocess.py:58 | the text `str()` writes for an integer is a non-empty run of digits with an optional leading `-`, and it reads back as that integer |
| Strings.IntTextInjective | back_end/app/services/preprocess.py:58 | distinct integers are written as distinct texts |
| Strings.IntTextShape | back_end/app/services/preprocess.py:58 | an integer's text starts with `-` or a digit, ends in a digit, and holds no upper-case letter |
| Strings.IntTextDigit | back_end/app/services/preprocess.py:58 | only 1 is written `"1"` and only 0 is written `"0"` |
| Strings.StripUnpadded | back_end/app/services/preprocess.py:58 | stripping a text with no whitespace at either end leaves it as it is |
| Strings.LexLeTotal | back_end/app/services/session_store.py:72 | string comparison, used by the sort, is total |
| Strings.LexLeTransitive | back_end/app/services/session_store.py:72 | string comparison is transitive |
| Strings.LexLeAntisymmetric | back_end/app/services/session_store.py:72 | two strings each at most the other are equal |
| Classifier.RemoveSeparators | back_end/app/services/preprocess.py:20 | after removing the thousands separators, neither `,` nor a space is left, and every other character occurs exactly as often as before |
| Classifier.RemoveSeparatorsSpec | back_end/app/services/preprocess.py:20 | the removal distributes over concatenation and drops one character iff it is `,` or a space, so the other characters are kept in their order |
| Classifier.MatchesNumberIff | back_end/app/services/preprocess.py:21 | the greedy matcher accepts a string iff it splits into an optional sign, a run of digits and an optional `.digits` fraction, the full-match language of `[-+]?\d*(?:\.\d+)?` |
| Classifier.ShapeWithoutDigit | back_end/app/services/preprocess.py:21 | within that language, the excluded strings `""`, `"+"` and `"-"` are exactly the ones with no digit |
| Classifier.IsNumericLike | back_end/app/services/preprocess.py:13-21 | a value is numeric-like iff it is text that is an NA sentinel once trimmed and lower-cased, or whose trimmed, separator-free form matches `[-+]?\d*(?:\.\d+)?` and holds a digit |
| Classifier.MatchedDigit | back_end/app/services/preprocess.py:21 | a full match of the pattern holds a digit iff it is not `""`, `"+"` or `"-"` |
| Classifier.NumericLikeNa | back_end/app/services/preprocess.py:13-18 | `_is_numeric_like(None)` is false; any text whose trimmed, lower-cased form is an NA sentinel is numeric-like |
| Classifier.NumericLikeIff | back_end/app/services/preprocess.py:19-21 | any other text is numeric-like iff, trimmed and without `,` and spaces, it is a numeral of the pattern with at least one digit |
| Classifier.Render | back_end/app/services/preprocess.py:58 | definition, no contract: `str(v)` for each kind of cell; a missing value is `"nan"`, strings are themselves, integers their decimal text, booleans `"True"`/`"False"`, floats and timestamps as the formatting oracles say |
| Classifier.Token | back_end/app/services/preprocess.py:58 | definition, no contract: `str(v).strip().lower()`, the form compared with the boolean token sets; the same expression is at line 76 |
| Classifier.IsNaText | back_end/app/services/preprocess.py:111 | definition, no contract: `v.strip().lower() in NA_STRINGS` for a string cell |
| Classifier.Classify | back_end/app/services/preprocess.py:55-63 | a flag is given only to a non-missing cell; true only for a truthy token and false only for a falsy one |
| Classifier.ClassifySpec | back_end/app/services/preprocess.py:55-63 | a cell gets a flag iff it is non-missing and its token is truthy or falsy; truthy tokens give true and falsy ones false |
| Classifier.IntToken | back_end/app/services/preprocess.py:58 | an integer cell's token is its decimal text: nothing is stripped or lowered |
| Classifier.IntTokens | back_end/app/services/preprocess.py:58-62 | an integer cell is truthy iff it is 1 and falsy iff it is 0, the case the boolean stage meets on integer columns |
| Classifier.IntTextTokens | back_end/app/services/preprocess.py:52-53 | the text of an integer is in the truthy set iff the integer is 1, and in the falsy set iff it is 0 |
| Preprocess.DropNull | back_end/app/services/preprocess.py:38 | `dropna()` never grows the series; a value is in the result iff it is a non-missing value of the input |
| Preprocess.DropNullConcat | back_end/app/services/preprocess.py:38 | `dropna()` works cell by cell: on a concatenation it is the concatenation of the two results, so the kept cells stay in their order |
| Preprocess.DropNullCounts | back_end/app/services/preprocess.py:38 | the size of `dropna()` is the number of non-missing cells |
| Preprocess.ClassifiedCounts | back_end/app/services/preprocess.py:65-68 | the cells that survive `classified.dropna()` are exactly the boolean-like cells |
| Preprocess.NumericLikeCounts | back_end/app/services/preprocess.py:38-41 | the numeric-like count over the rendered sample equals the number of non-missing cells whose text is numeric-like |
| Preprocess.ParsedCounts | back_end/app/services/preprocess.py:99-100 | the count behind `parsed.notna()` is the number of cells the date parser accepts |
| Preprocess.InferredSpec | back_end/app/services/preprocess.py:110-116 | the dtype pandas gives the result of an element-wise `.apply`: numeric iff every value is a number or missing; datetime64 iff every value is a timestamp or missing and one is a timestamp; numpy bool iff every value is a boolean; object otherwise. Values are kept, except that integers become the equal floats in a numeric column that is not all integers; the kind is the one the result's own values infer |
| Preprocess.InferredWellTyped | back_end/app/services/preprocess.py:110-116 | every value of an inferred column fits its kind, and inference never gives a pandas string column |
| Preprocess.InferredKindShape | back_end/app/services/preprocess.py:110-116 | the inferred kind depends only on which values are numbers or missing, which are timestamps or missing, and which are booleans |
| Preprocess.StripStage | back_end/app/services/preprocess.py:114-117 | `_strip_whitespace` keeps the length, and either returns the column as it was or a column whose kind is the dtype its values infer (numeric, datetime64, numpy bool or object) |
| Preprocess.StripStageSpec | back_end/app/services/preprocess.py:114-117 | a non-text column is unchanged; a text column takes the dtype its values infer (numeric, datetime64, numpy bool or object), the same as its old values infer; exactly its string cells are replaced by their stripped text, which has no whitespace at either end; every other cell is kept, an integer possibly as the equal float; the length is kept |
| Preprocess.StripStageIdempotent | back_end/app/services/preprocess.py:114-117 | a second strip pass changes nothing |
| Preprocess.NaStage | back_end/app/services/preprocess.py:107-111 | `_normalize_na` keeps the length, and either returns the column as it was or a column whose kind is the dtype its values infer (numeric, datetime64, numpy bool or object) |
| Preprocess.NaStageSpec | back_end/app/services/preprocess.py:107-111 | numeric, boolean and datetime columns are unchanged; any other column takes the dtype its new values infer (numeric, datetime64, numpy bool or object), and in it a cell becomes missing iff it was missing or is a string whose trimmed, lower-cased text is an NA sentinel; every other cell is kept, an integer possibly as the equal float |
| Preprocess.NaStageIdempotent | back_end/app/services/preprocess.py:107-111 | a second NA pass changes nothing |
| Preprocess.AllSentinelsBecomeFloat | back_end/app/services/preprocess.py:107-111 | a non-empty text column of NA sentinels and missing values becomes an all-missing float column |
| Preprocess.PlaceholderDatesBecomeDatetime | back_end/app/services/preprocess.py:94-111 | a text column of timestamps and NA placeholders, with at least one timestamp, becomes a datetime64 column whose timestamps are kept and whose placeholders are missing, and the datetime stage then returns it as it is |
| Preprocess.BooleanStage | back_end/app/services/preprocess.py:48-90 | `_maybe_convert_to_boolean` keeps the length, and either returns the column as it was or a boolean column |
| Preprocess.BooleanStageSpec | back_end/app/services/preprocess.py:48-90 | a boolean column is unchanged; any other column is converted iff it has a non-missing cell and at least 80% of its non-missing cells are boolean-like; when converted, truthy gives true, falsy gives false, and anything else is missing; when not converted, the column comes back as it was |
| Preprocess.NumberCell | back_end/app/services/preprocess.py:24-29 | one converted cell is a number or missing, and a missing cell stays missing |
| Preprocess.NumericStage | back_end/app/services/preprocess.py:32-45 | `_maybe_convert_to_numeric` keeps the length, and either returns the column as it was or a numeric column |
| Preprocess.NumericStageSpec | back_end/app/services/preprocess.py:24-45 | numeric, boolean and all-missing columns are unchanged; any other column is converted iff at least 60% of its non-missing cells are numeric-like; a converted cell is the parse of its stripped text without `,` and spaces, and is missing when it was missing or does not parse |
| Preprocess.DatetimeStage | back_end/app/services/preprocess.py:93-104 | `_maybe_convert_to_datetime` keeps the length, and either returns the column as it was or a datetime column |
| Preprocess.DatetimeStageSpec | back_end/app/services/preprocess.py:93-104 | a datetime column is unchanged; otherwise the parse is taken iff it does not raise and at least 60% of all cells, missing ones included, parse; a taken cell holds its parsed timestamp or is missing |
| Preprocess.CoercionsSettle | back_end/app/services/preprocess.py:33-36 | each coercion skips its own output on a second pass, and the numeric stage skips a column the boolean stage converted (lines 49, 94 as well) |
| Preprocess.CleanColumn | back_end/app/services/preprocess.py:128-138 | the loop body applies strip, NA, boolean, numeric and datetime in that order and keeps the column's length |
| Preprocess.CleanColumnWellTyped | back_end/app/services/preprocess.py:128-138 | the pipeline keeps the length, never leaves a pandas string-dtype column, and every value of a typed result column has that type |
| Preprocess.NumericColumnsBecomeDates | back_end/app/services/preprocess.py:93-101 | a non-empty numeric column of numbers, fewer than 80% of which read as boolean tokens (as for `[1, 2, 3]`) and all of which parse as dates, ends as a datetime column; the guarded pipeline keeps it as it was |
| Preprocess.AllNonNull | back_end/app/services/preprocess.py:67 | a column with no missing value has every cell counted by `dropna()` |
| Preprocess.AllParsed | back_end/app/services/preprocess.py:99-100 | when every cell parses as a date, every cell is counted as parsed |
| Preprocess.BooleanSkipsNumbers | back_end/app/services/preprocess.py:67-71 | a column of numbers fewer than 80% of which read as boolean tokens is not converted to booleans |
| Preprocess.DatetimeStageGuarded | back_end/app/services/preprocess.py:93-104 | the datetime stage with a numeric guard keeps the length and never changes a numeric column |
| Preprocess.CleanColumnGuarded | back_end/app/services/preprocess.py:128-138 | the pipeline with the guarded datetime stage keeps every column's length |
| Preprocess.GuardedKeepsNumbers | back_end/app/services/preprocess.py:128-138 | with the guard, a column the numeric stage settled as numeric stays as that stage left it, and any other column ends as the unguarded pipeline leaves it |
| Frames.TrimLabels | back_end/app/services/preprocess.py:125 | closed form of the label comprehension: every label replaced by its trimmed form; the promise about the driver's labels is proved in `Frames.InferAndCleanShape` |
| Frames.OccurrencesSpec | back_end/app/services/preprocess.py:127-128 | a label occurs iff it is listed, and more than once iff two distinct positions hold it |
| Frames.FirstRepeated | back_end/app/services/preprocess.py:127-128 | the first position from `k` on whose label occurs more than once, or None when no later label repeats |
| Frames.CleanColumns | back_end/app/services/preprocess.py:127-138 | closed form of the column loop: same count, position `i` holding the cleaned column `i`; the loop is proved to compute it in `Frames.CleanEachColumn`, and its promise in `Frames.InferAndCleanShape` |
| Frames.CleanTable | back_end/app/services/preprocess.py:120-138 | the positional pipeline keeps the number of columns |
| Frames.InferAndCleanSpec | back_end/app/services/preprocess.py:120-138 | a failure names a trimmed label that occurs more than once; on success no trimmed label repeats, and the result keeps the number of columns and the height |
| Frames.Frame.Copy | back_end/app/services/preprocess.py:122 | `df.copy()`: a fresh frame with the same value |
| Frames.Frame.SetLabels | back_end/app/services/preprocess.py:125 | assigning `columns` changes the labels and nothing else |
| Frames.Frame.SetColumn | back_end/app/services/preprocess.py:138 | `cleaned[col] = s` replaces exactly the column at that position |
| Frames.CleanSeries | back_end/app/services/preprocess.py:128-136 | the loop body computes the per-column pipeline |
| Frames.CleanEachColumn | back_end/app/services/preprocess.py:127-138 | the loop cleans every column in order, keeping labels and height, or stops at the first column whose label repeats |
| Frames.InferAndClean | back_end/app/services/preprocess.py:120-138 | the caller's frame is unchanged; the result is a fresh frame equal to `InferAndCleanSpec`, or the same failure |
| Frames.InferAndCleanShape | back_end/app/services/preprocess.py:120-138 | the driver fails iff two trimmed labels coincide; otherwise it keeps the row count and the column count and order, trims exactly the string labels, and replaces each column by its cleaned form |
| Frames.CleanTableShape | back_end/app/services/preprocess.py:120-138 | the positional pipeline keeps the frame well formed, with the same height and number of columns |
| Frames.RepeatedTrimmedLabelsFail | back_end/app/services/preprocess.py:125-128 | for any label `a` without surrounding whitespace, columns labelled `a` and `a + " "` make the driver as written fail with the repeated label `a`, whatever the columns hold |
| SessionStore.SessionFileNameSpec | back_end/app/services/session_store.py:8-9 | every session file name passes the listing filter, and distinct ids give distinct file names |
| SessionStore.SessionFileName | back_end/app/services/session_store.py:8-9 | definition, no contract: `_session_path` without the directory part, `session_<id>.json` |
| SessionStore.IsSessionFileName | back_end/app/services/session_store.py:53 | definition, no contract: the listing filter, a name starting with `session_` and ending with `.json` |
| SessionStore.NewRecord | back_end/app/services/session_store.py:13-19 | definition, no contract: the record `create_session_record` writes, with the four given fields and an empty message list |
| SessionStore.Lookup | back_end/app/services/session_store.py:24-32 | None iff the file is missing or unreadable; otherwise the stored record |
| SessionStore.CreatedReadsBack | back_end/app/services/session_store.py:12-21 | after creation, reading the session gives exactly the given sessionId, fileId, sheetName and createdAt, with an empty message list |
| SessionStore.AppendUnknownIsNoop | back_end/app/services/session_store.py:35-39 | appending to a missing or unreadable session changes nothing |
| SessionStore.AppendKnown | back_end/app/services/session_store.py:40-46 | appending to a readable session adds exactly that message after the earlier ones and keeps the other fields; no file is added or removed, and every other file is unchanged |
| SessionStore.AppendKeepsOthers | back_end/app/services/session_store.py:35-46 | no other session id reads differently after an append |
| SessionStore.MessagesOf | back_end/app/services/session_store.py:66-67 | definition, no contract: `rec.get("messages", [])`, the empty list when the key is absent |
| SessionStore.WithMessage | back_end/app/services/session_store.py:40-44 | definition, no contract: `rec.setdefault("messages", []).append(m)`, the record with m after its earlier messages |
| SessionStore.Appended | back_end/app/services/session_store.py:35-46 | an append never adds or removes a file |
| SessionStore.SummarySpec | back_end/app/services/session_store.py:61-70 | a summary copies sessionId, fileId, sheetName and createdAt, counts the messages, and dates itself by the last message's timestamp, or by createdAt when there are none; it is skipped iff the last message has no timestamp |
| SessionStore.SummaryOf | back_end/app/services/session_store.py:61-68 | a built summary carries the record's session id and counts its messages |
| SessionStore.AppendUpdatesSummary | back_end/app/services/session_store.py:40-46 | after an append, the session's summary counts one more message and carries the new message's timestamp |
| SessionStore.Selected | back_end/app/services/session_store.py:59-60 | definition, no contract: the `file_id` filter; with no file id or an empty one every record passes, otherwise exactly those whose `fileId` equals it |
| SessionStore.Entry | back_end/app/services/session_store.py:53-70 | definition, no contract: what one iteration of the listing loop appends for a name; nothing for a name that fails the filter, is no longer in the directory, cannot be read, is not selected, or whose last message has no timestamp |
| SessionStore.SortKey | back_end/app/services/session_store.py:72 | definition, no contract: `r.get("lastMessageAt") or ""`, a missing value read as the empty string |
| SessionStore.Insert | back_end/app/services/session_store.py:72 | inserting into a list sorted by descending key gives a sorted list holding one more element |
| SessionStore.SortDesc | back_end/app/services/session_store.py:72 | the sort returns a permutation of its input, sorted by `lastMessageAt or ""` in descending order |
| SessionStore.CollectSound | back_end/app/services/session_store.py:52-70 | every collected summary comes from some listed entry |
| SessionStore.CollectComplete | back_end/app/services/session_store.py:52-70 | every listed entry that yields a summary has it collected |
| SessionStore.Collect | back_end/app/services/session_store.py:52-70 | the loop contributes at most one summary per listed entry |
| SessionStore.ListSessionsSpec | back_end/app/services/session_store.py:49-75 | the result is sorted latest first, has at most one summary per listed entry, and is empty when the directory is missing |
| SessionStore.ListOnlySelected | back_end/app/services/session_store.py:49-75 | every listed summary comes from a readable `session_*.json` file of the directory that the filter selects; with a non-empty file id, each summary has that file id; nothing is listed for a missing directory |
| SessionStore.ListAllUnfiltered | back_end/app/services/session_store.py:52-70 | when the listing names every file of the directory once, with no file id (None or empty) every readable session file whose summary can be built is listed |
| SessionStore.ListComplete | back_end/app/services/session_store.py:52-70 | when the listing names every file of the directory once, every readable session file the filter selects, whose summary can be built, is listed |
| SessionStore.ListAllOfFile | back_end/app/services/session_store.py:52-70 | when the listing names every file of the directory once, with a non-empty file id every readable session file recorded for that file, whose summary can be built, is listed |
| SessionStore.ListSortedPermutation | back_end/app/services/session_store.py:72-75 | the list is sorted latest first and is a permutation of the collected summaries; it is empty when the directory is missing |
| SessionStore.CreatedSessionListed | back_end/app/services/session_store.py:12-21 | a freshly created session is listed for its file, with no messages, dated by its creation time |
| SessionStore.Store.constructor | back_end/app/services/session_store.py:8-9 | a storage directory that exists and holds the given files, or is missing and holds none |
| SessionStore.Store.CreateSessionRecord | back_end/app/services/session_store.py:12-21 | when the directory exists, the session's file now holds the new record, overwriting any earlier one; when it is missing, the call fails and nothing changes |
| SessionStore.Store.GetSessionRecord | back_end/app/services/session_store.py:24-32 | returns what `Lookup` specifies for the current directory |
| SessionStore.Store.AppendMessage | back_end/app/services/session_store.py:35-46 | the directory becomes `Appended(old directory, id, {role, content, timestamp})`, and the store stays consistent |
| SessionStore.Store.ListSessions | back_end/app/services/session_store.py:49-75 | given a listing that names every file of the directory once, the loop over it followed by the sort returns `ListSessionsSpec` |

## Left out

- The final `convert_dtypes()` pass (preprocess.py:140-144) is not part of this model. It is an opaque pandas call; `Frames.InferAndClean` stops after the loop.
- `read_and_preprocess_sheet` (preprocess.py:149-151) is Excel file input through pandas, out of scope.
- Float formatting and parsing, and `pd.to_datetime(..., dayfirst=True)`, are oracle functions; IEEE values, NaN and infinity are not modelled. `Num` holds a real number.
- Preprocess.NumericStageSpec: a converted column holds float cells (`Num`). `pd.to_numeric` gives an `int64` column when every cleaned string is an integer and none is dropped; the model does not tell that case apart, though the cells' values agree.
- Preprocess.InferredSpec: timedelta and period values are not modelled, so inference knows numeric, datetime64, numpy bool and object only. A column whose values are all missing is inferred as float64 (`Numeric`), which is what pandas does for NaN values. A column holding only `None` or `pd.NA` stays object in pandas; the model has one missing value and does not tell those apart.
- Integer and float dtypes share the one `Numeric` kind; the model does tell `Int` cells from `Num` cells, and so how `str()` renders them.
- Preprocess.DatetimeStageSpec: whether `pd.to_datetime` raises for a column is an oracle, and its per-cell result is taken as independent of the other cells, which pandas' format inference does not guarantee.
- Preprocess.BooleanStageSpec: the `except` fallback of the final `astype("boolean")` (preprocess.py:84-88) is not modelled. The mapped values are only True, False and NaN, so that cast cannot fail.
- Classifier.IsNumericLike: `\d` is modelled as the ASCII digits 0-9, whereas Python's `re` also matches other Unicode decimal digits.
- Strings.Lower: only ASCII letters are lowered. This is exact for the comparisons the code makes: the only non-ASCII characters whose lower-case form contains an ASCII letter are the Kelvin sign (which lowers to `k`) and U+0130 (which lowers to `i` followed by a combining dot), and no NA sentinel or boolean token contains `k` or `i`.
- Whole-pipeline idempotence is not stated. Whether a second pass changes a column depends on how the oracles render and re-parse numbers and dates. Each stage's own idempotence or settling is proved.
- Cells of other Python types (lists, dicts, bytes) are not modelled. A non-string label is any `Other` label.
- JSON encoding and decoding, file handles, `os.path.join` and the storage directory setting are replaced by a map from file name to parsed content. `Unreadable` stands for every read or parse error.
- A session file whose JSON is not an object, or whose fields hold JSON values of other types (null, numbers, a non-list `messages`), is not modelled.
- Session ids containing path separators, which would address a file outside the directory, are not modelled.
- The directory listing is a parameter of `ListSessions`: its order is not modelled, and it is required to name every file of the directory, with no name twice (`SessionStore.Enumerates`), as `os.listdir` does. It may also name a file that is no longer in the directory, one removed between the listing and the open; `SessionStore.Entry` skips such a name, as the `except Exception: continue` does.
- SessionStore.SortDesc: it is a stable insertion sort, like Python's `list.sort`, but stability itself is not stated as a lemma; sortedness and permutation are.
- SessionStore.Store.CreateSessionRecord: a failed write is reported as `false` instead of an exception.
- Concurrent access to the session files is not modelled.
- The web routes, the retrieval service, the storage helpers, the scripts and the frontend are outside this model.

## Findings

| source | as written | input that shows it | evidently intended | confidence | as-written member | corrected member |
|---|---|---|---|---|---|---|
| back_end/app/services/preprocess.py:125-129 | labels are trimmed before the loop, and each column is then selected by label | two columns labelled `"a"` and `"a "`: both become `"a"`, `cleaned["a"]` is a data frame, and `_strip_whitespace` fails on its `.dtype` | each column is cleaned where it stands, under its trimmed label | not executed; pandas' selection by a duplicated label returning a data frame is library behaviour | Frames.RepeatedTrimmedLabelsFail | Frames.CleanTable |
| back_end/app/services/preprocess.py:93-101 | the datetime stage only skips columns that are already datetimes | an integer column such as `[1, 2, 3]`: `pd.to_datetime` reads each number as nanoseconds after the epoch, every cell parses, and the column is replaced by 1970 timestamps | a column already settled as numeric is kept as numbers | not executed; depends on `pd.to_datetime` accepting numbers, which the model takes as an oracle | Preprocess.NumericColumnsBecomeDates | Preprocess.CleanColumnGuarded |

The table driver `Frames.InferAndClean` follows the code as written in both
respects:

- It fails on repeated trimmed labels.
- It runs the unguarded datetime stage.

Its success value is `Frames.CleanTable`, the corrected positional pipeline.
`Preprocess.GuardedKeepsNumbers` states how the guarded pipeline differs
from the one as written.
