# GENERAL_RAG answer table and model locator, in Dafny

This project models two pieces of a local assistant.

**The GENERAL_RAG answer table** (`llm/llm_data.py`) is a list of `{q, a}` records. It is loaded once from a JSON document, in one of three forms:

- A dict of groups. Each group holds a list of `{answer, triggers}` entries, and every trigger becomes one record `{q: norm_text(trigger, False), a: answer}`.
- A flat list, which is used exactly as it is.
- One JSON value per line. This form is tried only when the whole text does not parse.

Anything that raises while loading leaves the table empty. `lookup` works as follows:

- It normalises the query.
- It scores the query against the `q` of every record with rapidfuzz's `fuzz.ratio`.
- It keeps the first record with the strictly greatest score.
- It returns that record's `a` when the score reaches the threshold `FUZZY_LOGIC_ACCURACY_GENERAL_RAG`, and `""` otherwise. The score, rounded to three places, is returned in both cases.
- On an empty table it returns the error `general_rag_vacia`, with the threshold as the score.

**The model locator** (`utils/utils.py`, class `LoadModel`) reads the `{name, url}` entries of one section of the models file. `ensure_model` turns each entry into the directory `<home>/.cache/octy/<section>/<name>` and raises `FileNotFoundError` at the first directory that is missing.

Files:

- `wrappers.dfy`: `Option` and `Result`.
- `json_model.dfy`: parsed JSON/YAML values, together with Python truthiness, `dict.get` and what a `for` loop visits.
- `similarity.dfy`: `fuzz.ratio / 100` as 2·LCS(a, b)/(|a|+|b|), with its bounds, identity and symmetry.
- `text_lines.dfy`: `str.splitlines()` and the blank-line test `not line.strip()`.
- `llm_data.dfy`: the specification functions and the class `GeneralRag`. Its methods are proved against those functions.
- `general_rag_properties.dfy`: what loading and lookup guarantee.
- `utils.dfy`: the class `LoadModel`, its specification functions and their properties.

Some inputs are parameters of the model:

- The text of the file is an `Option<string>`. `None` means that opening or reading failed.
- `json.loads` is a parser parameter that returns `None` where Python raises `JSONDecodeError`.
- `norm_text` and the threshold are fixed when the table is built, so loading and lookup use the same ones.
- The models file is given to `LoadModel` as its parsed value.
- `Path.home()` is the parameter `home` and `Path.exists()` is the predicate `dirExists`.

Notes on the code, which the model follows:

- The empty-table error string is `general_rag_vacia`.
- Only the grouped form drops records with an empty `q` or `a`. The flat list and the line-delimited form are kept unfiltered.
- `lookup` can raise on a record that is not a dict. This is modelled as an `Err` result.

## Model

| member | source | states |
|---|---|---|
| LlmData.GeneralRag.constructor | llm/llm_data.py:11-13 | The table starts with the corpus `load` produces from the given file, and keeps the normaliser and threshold it was given. |
| LlmData.GeneralRag.Load | llm/llm_data.py:15-43 | The new corpus is `LoadedItems`: the flattened groups of a dict, a list as it is, nothing for any other value, the parsed non-blank lines when the text does not parse, and empty when reading fails or anything raises. |
| GeneralRagProperties.TriggerRecordMeaning | llm/llm_data.py:31-34 | One trigger yields at most one record, `{q: norm_text(trigger, False), a: answer}`. It yields one exactly when the normalised trigger is non-empty and the answer is truthy. A trigger that is not text raises. |
| LlmData.GeneralRag.Flatten | llm/llm_data.py:26-34 | The loop over groups yields exactly `GroupsRecords`. A group value that is not a list contributes nothing. An exception inside it yields `None`. |
| LlmData.GeneralRag.FlattenEntries | llm/llm_data.py:29-34 | The loop over one group's entries yields exactly `EntriesRecords`. It yields `None` when an entry is not a dict or its `triggers` cannot be iterated. |
| LlmData.GeneralRag.FlattenTriggers | llm/llm_data.py:31-34 | The loop over one entry's triggers appends `{q: norm(trigger), a: answer}` exactly when both are non-empty, in trigger order. |
| LlmData.GeneralRag.ParseLines | llm/llm_data.py:39 | The comprehension yields `ParsedLines`: one parsed value per non-blank line, or `None` when any of those lines fails to parse. |
| LlmData.GeneralRag.Lookup | llm/llm_data.py:45-61 | The result is `LookupOutcome` for the normalised query. An empty corpus gives error `general_rag_vacia`, answer `""` and the threshold as score. Otherwise there is no error and the score lies in [0, 1]. The corpus is not modified. |
| LlmData.ItemScore | llm/llm_data.py:53-55 | A record's score is `fuzz.ratio(query, q)/100` for a text `q`, 0 for a null `q`, and lies in [0, 1]. |
| LlmData.Scan | llm/llm_data.py:50-57 | The scan's best score lies in [0, 1]. A selected index is a dict in the corpus, and an exception names a position in it. |
| LlmData.AnswerOf | llm/llm_data.py:60 | `best.get('a', '')` is the value of the record's first `a` field, or `""` when the record has none. |
| LlmData.Round3 | llm/llm_data.py:60-61 | Rounding to three places keeps a score in [0, 1]. |
| Similarity.Lcs | llm/llm_data.py:54 | The longest common subsequence is no longer than either string. |
| Similarity.Ratio | llm/llm_data.py:54 | `fuzz.ratio/100` lies in [0, 1]. |
| Similarity.RatioSelf | llm/llm_data.py:54 | Identity: a string scores 1.0 against itself. |
| Similarity.RatioSymmetric | llm/llm_data.py:54 | Symmetry: `Ratio(a, b) == Ratio(b, a)`. |
| Similarity.RatioOneIffEqual | llm/llm_data.py:54 | The score is 1.0 if and only if the two strings are equal. |
| JsonModel.FalsyValues | llm/llm_data.py:33 | Python truthiness: exactly six values are falsy. They are `None`, `False`, `0`, `""`, `[]` and `{}`. |
| JsonModel.Get | llm/llm_data.py:30-31 | `dict.get(key, default)` gives the default when the key is absent. Any other result is a value stored under the key. |
| JsonModel.GetFirstMatch | llm/llm_data.py:30-31 | When the key is present, `dict.get` gives the value of its first field, whatever the default. |
| JsonModel.Iterated | llm/llm_data.py:31 | `for` over a value succeeds exactly for lists, strings and dicts. |
| TextLines.LinesHaveNoBreaks | llm/llm_data.py:39 | No line produced by `splitlines()` (`SplitLines`) contains a line boundary. The round trip and the two lemmas after it fix which lines these are. |
| TextLines.SplitLinesRoundTrip | llm/llm_data.py:39 | Each line followed by the boundary that ended it gives back the whole text, so `splitlines()` drops the boundaries and nothing else. |
| TextLines.LineEndsAreBoundaries | llm/llm_data.py:39 | Each removed boundary is `\r\n` or a single line-break character. Only the last line may end without one. No line is empty together with its boundary, so a final boundary does not start another line. |
| TextLines.CrLfIsOneBoundary | llm/llm_data.py:39 | `\r\n` is one boundary: a line ended by a lone `\r` is never followed by an empty line ended by `\n`. |
| TextLines.IsSpace | llm/llm_data.py:39 | The characters `str.isspace()` accepts include every line boundary. |
| TextLines.Strip | llm/llm_data.py:39 | `line.strip()` is no longer than the line and neither starts nor ends with white space. |
| TextLines.BlankIffStripEmpty | llm/llm_data.py:39 | `not line.strip()` holds exactly when every character of the line is white space (`IsBlank`). |
| GeneralRagProperties.TriggerRecordsAppend | llm/llm_data.py:31-34 | Records keep trigger order: two runs of triggers give the first run's records followed by the second's, and an exception in either fails the whole. |
| GeneralRagProperties.EntriesRecordsAppend | llm/llm_data.py:29-34 | Records keep entry order, with the same all-or-nothing rule. |
| GeneralRagProperties.GroupsRecordsAppend | llm/llm_data.py:27-34 | Records keep group order (group, then entry, then trigger), with the same all-or-nothing rule. |
| GeneralRagProperties.NonListGroupsSkipped | llm/llm_data.py:27-28 | Removing every group whose value is not a list leaves the records unchanged. |
| GeneralRagProperties.GroupedRecordCount | llm/llm_data.py:26-34 | A grouped load has as many records as there are (entry, trigger) pairs, over the list-valued groups, with a text trigger whose normalisation is non-empty and a truthy answer. |
| GeneralRagProperties.GroupedRecordsFrom | llm/llm_data.py:30-34 | Every grouped record is `{q: norm_text(trigger, False), a: answer}`, with non-empty `q` and `a`, where the trigger and the unnormalised answer come from one entry of a list-valued group. |
| GeneralRagProperties.GroupedLoad | llm/llm_data.py:22-37 | Loading a dict either hits an exception and leaves the corpus empty, or gives the flattened records, with the count and provenance above. |
| GeneralRagProperties.FallbackAllOrNothing | llm/llm_data.py:38-42 | The line-delimited fallback fails, and so leaves the corpus empty, if and only if some non-blank line does not parse. |
| GeneralRagProperties.FallbackParsesNonBlankLines | llm/llm_data.py:39 | A successful fallback holds one value per non-blank line, in line order, each the parse of its line. |
| GeneralRagProperties.BlankTextGivesEmptyCorpus | llm/llm_data.py:20-39 | A text that does not parse and whose lines are all blank gives an empty corpus. This includes an empty file. |
| GeneralRagProperties.ScanFindsFirstMaximum | llm/llm_data.py:50-57 | The selected record has the greatest score and every earlier record scores strictly less, so a later equal score never displaces it. No record is selected exactly when every score is 0, and the best score is then 0. |
| GeneralRagProperties.ScanIsMaximum | llm/llm_data.py:50-57 | Every record is scored, and none scores more than the best score. No record is selected exactly when every score is 0, and the best score is then 0. |
| GeneralRagProperties.ScanKeepsFirst | llm/llm_data.py:56-57 | A selected record scores the best score, which is positive, and every earlier record scores strictly less. |
| GeneralRagProperties.ScanRaisesAtFirstFault | llm/llm_data.py:52-55 | Lookup raises exactly when some record cannot be scored, and it raises at the first such record. |
| GeneralRagProperties.LookupDecision | llm/llm_data.py:58-61 | On a non-empty corpus, the answer is the best record's `a` when a best record exists and its score is at least the threshold, and `""` otherwise. The score is the rounded best score. |
| GeneralRagProperties.ExactMatchWins | llm/llm_data.py:52-57 | When the normalised query equals some record's `q`, the best score is 1.0 and the selected record is the first whose `q` equals the query. |
| GeneralRagProperties.ExactQueryAnswered | llm/llm_data.py:52-61 | With a threshold of at most 1.0, such a query is answered with that first record's `a` and score 1.0. |
| GeneralRagProperties.RecordScored | llm/llm_data.py:53-55 | A record built by the grouped load is always scored, against its `q`. |
| GeneralRagProperties.SecondRecordExact | llm/llm_data.py:52-61 | In a two-record corpus where only the second `q` equals the query, the second record answers with score 1.0. |
| GeneralRagProperties.GreetingsLoad | llm/llm_data.py:26-34 | The document `{"greetings":[{"answer":"Hello!","triggers":["hi","hello there"]}]}` loads as two records with the answer `Hello!`. |
| GeneralRagProperties.GreetingsLookup | llm/llm_data.py:45-61 | On those records, with threshold 0.8, the query "hello there" is answered `Hello!` with score 1.0. |
| Utils.LoadModel.constructor | utils/utils.py:14 | The stored data is the loaded value, or an empty dict when that value is falsy (`data or {}`). |
| Utils.LoadModel.ExtractSectionModels | utils/utils.py:25-39 | The result is `SectionModels`. A section absent from the data gives an empty list. `ValueError` is raised exactly when the section's value is not a list. |
| Utils.LoadModel.EnsureModel | utils/utils.py:41-52 | The result is `ModelPaths`: the section's entries mapped to directories. An error from reading the section propagates unchanged. |
| Utils.SpecsFollowDictItems | utils/utils.py:32-39 | The k-th entry comes from the k-th dict item, in increasing position. Every dict item gives one entry and non-dict items give none, so the count equals the number of dict items. |
| Utils.SpecOfFields | utils/utils.py:35-38 | An entry's `name` and `url` are the values of the item's first field with that key, and `""` when the item lacks it. |
| Utils.ModelDirsAllPresent | utils/utils.py:46-52 | A list is returned if and only if every name is text and every directory exists. It then has one path per model, in order, each `base/section/name`. |
| Utils.ModelDirsFailsAtFirst | utils/utils.py:47-50 | A failure is the error of the first model whose name is not text or whose directory is missing. Every earlier model succeeded, and no list is returned. |

## Left out

- Opening and reading the file, and stripping its text (llm/llm_data.py:19-20). The stripped text is an input, and `None` stands for a failed read.
- The `print` diagnostics (llm/llm_data.py:17, 40, 43, 58 and utils/utils.py:59). They are logging only.
- The internals of `json.loads` and `yaml.safe_load`. They are foreign parsers. JSON is a parser parameter, and the YAML value is given to the constructor.
- `load_yaml`'s file check and read (utils/utils.py:7-13), `Path.home()` and `Path.exists()`. Only its `data or {}` step is modelled.
- `norm_text` (llm/llm_intentions.py). It is not part of this model and is an arbitrary function of text and flag.
- LlmData.TriggerRecord: a trigger that is not text (a number in the `triggers` list) is treated as making `norm_text` raise, because its source is not available.
- The `SequenceMatcher` branch at llm/llm_data.py:54. It is dead code because `HAS_RF = True`.
- LlmData.ItemScore: a `q` that is a list, dict, number or boolean is treated as raising. rapidfuzz raises on numbers, but it compares lists and other sequences of hashable items element by element.
- Floating point. Scores are exact reals, and `fuzz.ratio(...)/100.0` is an exact quotient.
- LlmData.Round3: it rounds ties upward on the exact real. Python's `round(x, 3)` works on the binary double, so the two can differ in the last digit.
- The config constants `FUZZY_LOGIC_ACCURACY_GENERAL_RAG` and `MODELS_PATH`. The threshold is a parameter, and the models path belongs to the YAML reading that is left out.
- pathlib normalisation. A path is its list of segments, and `/` appends one. pathlib drops an empty name, lets an absolute name replace the base, and splits a name that contains `/`. None of this is modelled.
- YAML keys that are not strings. Dicts are keyed by text in this model.
- Duplicate keys in one JSON object. `JsonModel.Get` takes the first field with the key, whereas `json.loads` keeps the last. The parser is expected to deliver each key once.
- The example under `__main__` (utils/utils.py:55-59).
- Monotonicity of the score under character edits is not stated. It depends on the metric alone. Identity, symmetry and the bounds of the metric are stated.
