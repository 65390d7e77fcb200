# Response handling of the Gemini PDF quantity surveyor

The analyser sends drawings to Gemini and gets back free text that should hold
one JSON object. The object has a drawing `scale`, a bill of quantities
(`boq`), a bar bending schedule (`bbs`), `notes` and `assumptions`.
`QuantitySurveyorAI._parse_response` finds the JSON object in the reply in two
stages:

- stage one looks for the leftmost "```json" whose next non-space character
  is `{`, and takes the braced group from that `{` to the earliest `}` that
  is followed by optional whitespace and "```" (when the first block's `}` is
  not directly followed by its fence, the group runs on into a later block);
- only when stage one finds nothing, stage two takes the span from the first
  `{` of the reply to its last `}`.

It then parses that text with `json.loads` and recomputes every schedule
entry's `weight_kg` in place, as `round(dia_mm² / 162 × total_length × 1.02, 2)`.
Anything that raises on the way makes it return one fixed placeholder record.
The console renderers then build the BOQ and BBS tables and add up a running
steel total. `print_summary` computes the unit-filtered concrete and area
totals and the steel totals.

The project has six modules:

- `Wrappers`: `Option`.
- `JsonValue`: values as `json.loads` returns them, plus the Python operations
  the program applies to them. These are subscripting and assigning dict keys
  (dicts keep their keys in insertion order), truthiness, iteration, and the
  numeric use of numbers and booleans.
- `Rounding`: `round(x, 2)` on exact reals, with ties going to the even
  hundredth.
- `Extraction`: the two regular-expression stages, written out as searches
  over the reply.
- `ResponseParser`: the weight formula, the in-place normalisation loop (an
  array updated step by step), and `_parse_response` both as a value and as a
  method.
- `Reports`: the rows of `format_boq_table` and `format_bbs_table`,
  `format_bbs_table`'s running total as a loop, and the totals of
  `print_summary`.

`json.loads` is a parameter `parse: string -> Option<Json>`, where `None`
means it raised. Every property about the whole parse therefore holds for any
JSON decoder.

Three consequences of the code as written:

- **The sample schedule entry of the prompt.** The prompt's example entry
  (line 166) has 12 mm bars totalling 17.6 m with `weight_kg` 1.32. The
  formula of line 203 overwrites that with 144/162 × 17.6 × 1.02 = 15.957…,
  rounded to 15.96 (`ResponseParser.ExampleWeight`).
- **A missing field.** A schedule entry that lacks `dia_mm` or `total_length`
  raises `KeyError` inside the `try`, so the whole result becomes the
  placeholder, not only that entry (`ResponseParser.MissingFieldRaises`,
  `ResponseParser.MissingFieldGivesPlaceholder`).
- **A `bbs` that is not a list.** An empty string or empty dict under `bbs`
  is iterated over without effect, so the data passes through unchanged. A
  non-empty string or dict yields strings, and subscripting those raises, so
  the result is the placeholder.

## Model

| member | source | states |
|---|---|---|
| Extraction.SkipSpace | gemini_pdf_analyzer.py:186 | the greedy `\s*` stops at the first character that is not whitespace (Python's `str.isspace` set), and everything it skipped is whitespace |
| Extraction.FenceAtMeansSlice | gemini_pdf_analyzer.py:186 | the character-wise fence tests are exactly `s[i..i+7] == "```json"` and `s[i..i+3] == "```"` |
| Extraction.FindClose | gemini_pdf_analyzer.py:186 | the non-greedy `.*?`: the earliest `}` at or after a position that is followed by optional whitespace and "```", and none before it; `None` exactly when no such `}` exists |
| Extraction.MatchesAtIff | gemini_pdf_analyzer.py:186 | the matcher's decision at a start position holds exactly when some `}` closes a fence opened there, and then the `}` it picks is one such |
| Extraction.FindFence | gemini_pdf_analyzer.py:186-187 | `re.search` semantics: the leftmost start from which the fenced pattern matches, none before it, and `None` only when it matches from nowhere |
| Extraction.FirstFrom | gemini_pdf_analyzer.py:191 | the first occurrence of a character at or after a position, with none before it |
| Extraction.LastBefore | gemini_pdf_analyzer.py:191 | the last occurrence of a character before a position, with none after it |
| Extraction.Fenced | gemini_pdf_analyzer.py:186-188 | group 1 of the fenced match: a span inside the reply that starts with `{` and ends with `}` |
| Extraction.Fallback | gemini_pdf_analyzer.py:191-193 | `\{.*\}` exists exactly when some `}` follows some `{`; it runs from the first `{` of the reply to its last `}` |
| Extraction.Extract | gemini_pdf_analyzer.py:186-195 | every candidate is a contiguous span of the reply, at least two characters long, beginning with `{` and ending with `}` |
| Extraction.FencePrecedence | gemini_pdf_analyzer.py:186-189 | once a fence matches, the candidate is the group at the leftmost matching fence, cut at its earliest closing `}`, whatever braces the rest of the reply holds |
| Extraction.NoFenceFallback | gemini_pdf_analyzer.py:190-193 | with no matching fence anywhere, the candidate is exactly the first-`{`-to-last-`}` span |
| Extraction.NoCandidateIff | gemini_pdf_analyzer.py:194-195 | "No JSON found" happens exactly when no fence matches and no `}` follows any `{` |
| JsonValue.Keys | gemini_pdf_analyzer.py:200 | the keys of a dict, one per member, in order |
| JsonValue.LookupKeys | gemini_pdf_analyzer.py:201-202 | `d[k]` raises exactly when `k` is not a key, and otherwise yields the value of a member named `k` |
| JsonValue.Put | gemini_pdf_analyzer.py:204 | after `d[k] = v`, `d[k]` is `v` and every other key reads as before |
| JsonValue.PutKeys | gemini_pdf_analyzer.py:204 | assigning a key keeps the key order, appending the key at the end when it is new |
| JsonValue.PutSame | gemini_pdf_analyzer.py:204 | assigning a key the value it already holds changes nothing |
| JsonValue.GetKeys | gemini_pdf_analyzer.py:201-202 | `item[k]` succeeds exactly on a dict that has the key `k`, and yields the value of a member named `k` |
| JsonValue.GetOrEmpty | gemini_pdf_analyzer.py:200 | `d.get(k, [])` is the empty list when `k` is missing, and otherwise the value of a member named `k` |
| JsonValue.Iterate | gemini_pdf_analyzer.py:200 | `for x in v` works exactly on lists, strings and dicts; a list yields its elements; strings and dicts yield only strings; the iteration is empty exactly when `v` is false |
| JsonValue.NumberFieldIff | gemini_pdf_analyzer.py:201-203 | `item[k]` used in arithmetic succeeds exactly on a dict that has `k` with a number or a boolean under it, and its value is that number, or 0 or 1 for a boolean |
| Rounding.Hundredths | gemini_pdf_analyzer.py:204 | the number of hundredths `round(x, 2)` yields lies within one half of `100·x` |
| Rounding.Round2 | gemini_pdf_analyzer.py:204 | `round(x, 2)` lies within 0.005 of `x` |
| Rounding.Round2Nearest | gemini_pdf_analyzer.py:204 | no hundredth is nearer to `x` than `round(x, 2)` |
| Rounding.Round2Tie | gemini_pdf_analyzer.py:204 | at an exact tie, `round(x, 2)` takes the even hundredth |
| Rounding.Round2Exact | gemini_pdf_analyzer.py:204 | a whole number of hundredths rounds to itself |
| Rounding.Round2Idempotent | gemini_pdf_analyzer.py:204 | rounding twice is rounding once |
| ResponseParser.ItemWeight | gemini_pdf_analyzer.py:201-203 | a weight is computed only for a dict entry |
| ResponseParser.NormalizeItemSucceeds | gemini_pdf_analyzer.py:201-204 | one loop pass raises exactly when the entry is not a dict, lacks `dia_mm` or `total_length`, or holds something other than a number or a boolean under either |
| ResponseParser.NormalizeItemEffect | gemini_pdf_analyzer.py:201-204 | one pass sets `weight_kg` to the formula; every other key keeps its value; the key order is kept, and `weight_kg` is appended if it was new |
| ResponseParser.NormalizeItems | gemini_pdf_analyzer.py:200-204 | the whole loop succeeds exactly when every entry does, and then yields the same number of entries, each one normalised in place |
| ResponseParser.NormalizeInPlace | gemini_pdf_analyzer.py:200-204 | the in-place loop over the array succeeds exactly when every entry can be normalised, and then the array holds the normalised entries; otherwise it stops at the first entry that raises, with the entries before it updated and the rest untouched |
| ResponseParser.Normalize | gemini_pdf_analyzer.py:200-204 | normalisation keeps the record's keys and their order, touches no key other than `bbs`, and returns a record without `bbs` as it was; it raises exactly when the record is not a dict, or its `bbs` is not iterable, or some entry of it fails |
| ResponseParser.NormalizeItemConsistent | gemini_pdf_analyzer.py:201-204 | a normalised entry's `weight_kg` is the formula applied to its own `dia_mm` and `total_length` |
| ResponseParser.NormalizeItemFixpoint | gemini_pdf_analyzer.py:201-204 | an entry whose weight already agrees with the formula is left exactly as it was |
| ResponseParser.NormalizeItemsFixpoint | gemini_pdf_analyzer.py:200-204 | a schedule of such entries passes through the loop unchanged |
| ResponseParser.NormalizeSchedule | gemini_pdf_analyzer.py:200-204 | on success the schedule keeps its length and order; every key but `weight_kg` of every entry is unchanged; every entry's `weight_kg` is the formula |
| ResponseParser.NormalizeIdempotent | gemini_pdf_analyzer.py:200-204 | normalising a normalised record gives the same record |
| ResponseParser.MissingFieldRaises | gemini_pdf_analyzer.py:201-202 | a schedule entry lacking `dia_mm` or `total_length` makes the whole normalisation raise |
| ResponseParser.ParseOutcome | gemini_pdf_analyzer.py:184-221 | `_parse_response` always returns a dict |
| ResponseParser.ParseResponse | gemini_pdf_analyzer.py:184-221 | the method, with its in-place loop, returns exactly the value-level outcome |
| ResponseParser.MissingFieldGivesPlaceholder | gemini_pdf_analyzer.py:200-221 | a parsed reply whose list schedule has one entry lacking `dia_mm` or `total_length` yields the placeholder |
| ResponseParser.NoBraceGivesPlaceholder | gemini_pdf_analyzer.py:190-195 | a reply with no `{` at all yields the placeholder |
| ResponseParser.MalformedFenceGivesPlaceholder | gemini_pdf_analyzer.py:186-197 | a fenced candidate that `json.loads` rejects yields the placeholder; the bare-brace span is never tried instead |
| ResponseParser.ParsedWeightsConsistent | gemini_pdf_analyzer.py:197-206 | on success every returned schedule entry carries the recomputed weight, and normalisation leaves the result unchanged |
| ResponseParser.PlaceholderNormalized | gemini_pdf_analyzer.py:215-221 | the placeholder has scale "Unknown" and passes normalisation unchanged |
| ResponseParser.ExampleWeight | gemini_pdf_analyzer.py:203-204 | 12 mm bars totalling 17.6 m weigh 15.96 kg |
| Reports.CellOfMeaning | gemini_pdf_analyzer.py:256-265 | a cell fails exactly when the entry is not a dict, lacks the column's key, or (for a `:.2f` column) holds something other than a number or boolean there; a plain cell shows the value stored under the key, and a `:.2f` cell that numeric value |
| Reports.RowCells | gemini_pdf_analyzer.py:256-265 | a row exists exactly when all its cells do, and holds them in column order |
| Reports.Rows | gemini_pdf_analyzer.py:232-246 | the rows exist exactly when every entry's row does: one per entry, in order |
| Reports.SumField | gemini_pdf_analyzer.py:349-350 | a sum over a key (also the running total of line 269) exists exactly when every entry holds a number there |
| Reports.BoqTable | gemini_pdf_analyzer.py:227-247 | the fixed "No BOQ items found." exactly when the list is empty or false; otherwise the headers and one row per entry, in order; it raises exactly when the list is true but not iterable, or some entry is not a dict, lacks a column's key, or holds something other than a number or boolean under a `:.2f` column |
| Reports.RowsHaveSum | gemini_pdf_analyzer.py:256-266 | once every row renders, every two-decimal column can be summed |
| Reports.BbsTableShape | gemini_pdf_analyzer.py:249-273 | the fixed "No BBS items found." exactly when the list is empty or false; otherwise one row per entry, in order, and a footer total equal to the summed `weight_kg`; it raises exactly when the list is true but not iterable, or some entry is not a dict, lacks a column's key, or holds something other than a number or boolean under a `:.2f` column |
| Reports.FormatBbsTable | gemini_pdf_analyzer.py:249-273 | the loop that appends rows and accumulates `total_weight` from 0 computes exactly that table and total |
| Reports.UnitSum | gemini_pdf_analyzer.py:340-341 | a unit total requires every entry to have a `unit` |
| Reports.BoqSummary | gemini_pdf_analyzer.py:338-344 | no BOQ lines exactly when the list is empty or false; otherwise the "m3" total, the "m2" total and the entry count; it raises exactly when the list is true but not iterable or either unit total raises |
| Reports.BbsSummary | gemini_pdf_analyzer.py:347-352 | no BBS lines exactly when the list is empty or false; otherwise the summed `weight_kg`, the summed `total_length` and the entry count; it raises exactly when the list is true but not iterable or either sum raises |
| Reports.PlaceholderSummary | gemini_pdf_analyzer.py:331-355 | `print_summary` of the placeholder record prints neither the BOQ nor the BBS lines |
| Reports.TotalsAgree | gemini_pdf_analyzer.py:269-271 | whenever the schedule table renders, the schedule half of the summary renders too, with the same steel total (line 349) as the table's footer and one entry per row |
| Reports.EmptyListsAgree | gemini_pdf_analyzer.py:251-252 | the tables (lines 229-230 and 251-252) print their "No … items found." message exactly when the summary leaves out the corresponding lines (its tests at lines 339 and 348) |
| Reports.OfUnit | gemini_pdf_analyzer.py:340-341 | the filter keeps only entries of the given unit, and no more entries than it was given |
| Reports.OfUnitKeepsAll | gemini_pdf_analyzer.py:340-341 | every entry of the given unit is kept by the filter |
| Reports.OfUnitCounts | gemini_pdf_analyzer.py:340-341 | the filter keeps every copy of each entry of the given unit and no copy of any other entry |
| Reports.UnitSumIsFilteredSum | gemini_pdf_analyzer.py:340-341 | a unit total is the plain sum of `quantity` over the entries of that unit |
| Reports.ConcreteAndAreaPartition | gemini_pdf_analyzer.py:340-341 | when every entry is "m3" or "m2", the concrete and area totals add up to the sum of all quantities |

## Left out

- The Gemini client (`genai.configure`, `GenerativeModel`), the upload, the sleep-and-poll loop and `generate_content`. These are network calls to an opaque service whose reply is this model's input string.
- The prompt text. It is a constant string with no logic.
- `json.loads` itself. It is a foreign library and appears only as the `parse` parameter.
- The printing in the `except` branch (the error message and the raw reply on the console). It is output only, and the returned placeholder is modelled.
- `tabulate`'s grid drawing, the `:.2f` text and `:<60` padding, `print`, and everything in `save_results` (JSON, text and CSV files). These are library and file I/O. The tables are modelled as headers, cells and the footer total; a cell records a value and how it is shown.
- The interactive `main`, the argument parsing, the file-existence checks and the runtime `pip install`. These are process I/O.
- Rounding.Round2: computes `round(x, 2)` on the exact real value. Python rounds the binary double, so a weight that lies just beside a tie in binary can round the other way.
- ResponseParser.SteelWeight: arithmetic is over exact reals. Float rounding of `dia ** 2 / 162 * length * 1.02`, `OverflowError`, infinities and NaN (which `json.loads` accepts as `NaN`/`Infinity`) are not modelled.
- JsonValue.Json: JSON integers and floats are both `real`. Python's distinction between `int` and `float` only changes the printed form, which is left out.
- Reports.SumField: the sums start from 0 and add in order over exact reals, so float non-associativity is not modelled.
- JsonValue.Json: a dict is a list of members that may repeat a key, while a dict from `json.loads` has each key once (the last value, at the first key's position); `Lookup` and `Put` act on the first member with a key, and no property depends on keys being unique.
- Python's `\s` is modelled as the fixed set of characters for which `str.isspace` holds. Unicode database versions are not modelled.
- Reports.CellOf: `:.2f` on a value that is neither a number nor a boolean raises in Python, and is modelled as a failed cell. How Python formats a `str` subclass is not modelled.
