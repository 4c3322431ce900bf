# Easy Apply question scraper, modelled in Dafny

This project models the question scraper of a LinkedIn Easy Apply bot.
It has two halves.

- **Extraction (`readTheInputsFrom`).** The function walks the
  `div.fb-dash-form-element` containers of one form step in document order.
  - It classifies each container as a checkbox group, a radio group, a
    dropdown, a text, e-mail or phone input, or "Unknown". The order of the
    checks decides the kind.
  - It reads the question text. A container without question text yields
    no record.
  - For each remaining container it reads a coarse `required` flag, the
    options and the current answer.
  - The records are numbered 1, 2, … in document order.
- **The catalog (`saveQuestionsToJson`).** The function merges the records
  into a dictionary keyed by `question + "_" + type`.
  - A new key gets an unverified entry whose `first_seen` and `last_seen`
    are both now.
  - A known key gets `last_seen` set to now and the record's options. It
    also takes the record's answer, unless that answer is absent.
  - Everything else in the entry stays as it was, including the
    human-maintained `verified` flag.

The modules are:

- `Seqs` (`seqs.dfy`): optional values, and `Kept`, the "keep what a
  function yields" pass.
- `Questions` (`questions.dfy`):
  - the record (`Field`, numbered as `Question`);
  - the seven type names;
  - the catalog key. `KeyInjective` proves the key cannot collide, because
    no type name contains `_`.
- `Text` (`text.dfy`): Python's `str.strip()`, `str.lower()` and substring
  test.
- `Extractor` (`extractor.dfy`):
  - the specification of one container (`FieldOf`) and of a page
    (`Fields`);
  - the loop itself, as methods proved against that specification
    (`Classify`, `ReadChoices`, `Analyze`, `ReadTheInputsFrom`).
- `Catalog` (`catalog.dfy`):
  - the merge as functions on maps (`MergeOne`, `MergeAll`), with its
    properties proved key by key;
  - the class `QuestionCatalog`, whose `SaveQuestions` runs the source's
    loop in place.
- `Scraping` (`scraping.dfy`): extraction followed by the save, as
  `readTheInputsFrom` does at its end.

The HTML parser is not modelled. A container is the `Container` datatype:
the answers the extractor gets from the parser about that element (which
marker fieldsets exist, the raw texts of the relevant spans, labels and
options, the checked values, the serialized markup). The clock and the
catalog file are parameters.

## Model

| member | source | states |
|---|---|---|
| Text.Trim | scrapingQuestions.py:37 | `.strip()` output neither starts nor ends with whitespace (Python's `isspace` set) |
| Text.TrimIsInnerPiece | scrapingQuestions.py:37 | the stripped text is the contiguous piece of the original between its leading and trailing whitespace; every character outside it is whitespace |
| Text.TrimIdempotent | scrapingQuestions.py:103-104 | stripping a stripped text changes nothing, so an option equals its own strip |
| Text.Lower | scrapingQuestions.py:82 | `str(element).lower()` keeps the length and lowers character by character |
| Text.LowerAt | scrapingQuestions.py:82 | each character of the lowered markup is the lowered character at the same position |
| Text.LowerSlice | scrapingQuestions.py:82 | lowering a slice gives the same slice of the lowered text |
| Text.Contains | scrapingQuestions.py:82 | Python's `t in s`: true whenever `t` is a prefix, and only when `t` fits in `s` |
| Text.ContainsAt | scrapingQuestions.py:82 | `t in s` holds when `t` occurs at some offset of `s` |
| Text.ContainsOffset | scrapingQuestions.py:82 | conversely, when `t in s` holds, `t` occurs at some offset |
| Text.LowerContains | scrapingQuestions.py:82 | an occurrence of `t` in `s` is an occurrence of `t.lower()` in `s.lower()` |
| Extractor.LabelOptions | scrapingQuestions.py:89-90 | group options are never empty strings, and there are at most as many as labels |
| Extractor.LabelOptionSource | scrapingQuestions.py:90 | every group option is the stripped text of some label, and is already stripped |
| Extractor.LabelOptionKept | scrapingQuestions.py:90 | every label with non-empty stripped text contributes its text to the options |
| Extractor.LabelOptionsInOrder | scrapingQuestions.py:90 | the group options are exactly the non-blank stripped label texts, label after label: order and repetitions are kept |
| Extractor.LabelOptionOrder | scrapingQuestions.py:90 | the i-th group option is the stripped text of a label j, and the labels before j give exactly the first i options |
| Extractor.DropdownOptions | scrapingQuestions.py:102-104 | dropdown options are never empty and never the "Select an option" placeholder |
| Extractor.DropdownOptionSource | scrapingQuestions.py:103-104 | every dropdown option is the stripped text of some `<option>` |
| Extractor.DropdownOptionKept | scrapingQuestions.py:103-104 | every `<option>` whose stripped text is neither empty nor the placeholder is among the options |
| Extractor.DropdownOptionsInOrder | scrapingQuestions.py:103-104 | the dropdown options are exactly the stripped `<option>` texts that are neither blank nor the placeholder, in order and with repetitions |
| Extractor.DropdownOptionOrder | scrapingQuestions.py:103-104 | the i-th dropdown option is the stripped text of an `<option>` j, and the options before j give exactly the first i |
| Extractor.QuestionText | scrapingQuestions.py:24-79 | the question text is stripped: it is empty or neither starts nor ends with whitespace |
| Extractor.KindOf | scrapingQuestions.py:24-79 | the kind names only a marker the container has (its fieldset, select or typed input), and is Unknown exactly when the container has none |
| Extractor.AnswerOf | scrapingQuestions.py:92-115 | an answer is a list exactly for a checkbox group; a dropdown answer is never the placeholder; a typed-input answer is never blank; an Unknown field has none |
| Extractor.FieldOf | scrapingQuestions.py:81-125 | a container yields a record exactly when its question text is non-empty; that record carries the classified text and kind |
| Extractor.CheckboxLegendDecides | scrapingQuestions.py:27-37 | a checkbox group with a legend question yields a Checkbox record with that text, whatever the later checks would find |
| Extractor.RadioLegendDecides | scrapingQuestions.py:39-50 | otherwise a radio group with a legend question yields a Radio record with that text, whatever the later checks would find |
| Extractor.GroupFallsThrough | scrapingQuestions.py:52-79 | without a legend question the group probes no longer matter for the text, which comes from the select's label, else the first label or legend; a select makes the kind Dropdown and a select or typed input overrides the group's kind; only without them does the radio group, then the checkbox group, fix the kind |
| Extractor.FieldRequiredAndOptions | scrapingQuestions.py:82-111 | `required` holds iff the lowered markup contains "required"; options are absent rather than empty; only the choice kinds have options; dropdown options exclude the placeholder and "" |
| Extractor.FieldAnswer | scrapingQuestions.py:92-115 | the answer per kind: all checked values (checkbox), the first checked value (radio), the non-placeholder selected option (dropdown), the non-empty first input value (typed inputs), none for Unknown, each as an if-and-only-if |
| Extractor.AriaRequiredSubsumed | scrapingQuestions.py:82 | the `aria-required="true"` disjunct never changes `required`: it implies the lowered "required" test |
| Extractor.AriaMarkerSplits | scrapingQuestions.py:82 | the second marker is "required" between `aria-` and `="true"` |
| Extractor.RequiredIsLowercase | scrapingQuestions.py:82 | "required" is its own lower-case form |
| Text.ContainsPiece | scrapingQuestions.py:82 | a text containing `a + b + c` contains `b` |
| Extractor.RecordSource | scrapingQuestions.py:81-125 | each record comes from a container with non-empty question text, and the containers before it produced exactly the records before it |
| Extractor.NoRecordsWithoutQuestions | scrapingQuestions.py:81 | a page yields no records iff none of its containers has question text |
| Extractor.Numbered | scrapingQuestions.py:117-119 | the i-th record gets number i + 1 and keeps its content |
| Extractor.NumberedStep | scrapingQuestions.py:81-125 | one loop turn appends the container's record, if any, numbered one past the records so far |
| Extractor.Classify | scrapingQuestions.py:23-79 | the cascade of checks computes exactly the specified kind and question text |
| Extractor.ReadChoices | scrapingQuestions.py:84-115 | the per-kind branches compute exactly the specified options and answer |
| Extractor.Analyze | scrapingQuestions.py:81-115 | one loop body computes exactly the container's record, with `required` from both disjuncts |
| Extractor.ReadTheInputsFrom | scrapingQuestions.py:15-125 | the records are those of the containers with question text, in document order, numbered 1..n, with `question_count` == n |
| Questions.KindNameHasNoSeparator | scrapingQuestions.py:24-67 | none of the seven type names contains `_` |
| Questions.Key | scrapingQuestions.py:158 | the key starts with the question text, followed by `_`, and has no `_` after that one |
| Questions.KeyInjective | scrapingQuestions.py:158 | equal keys imply equal question text and equal type |
| Catalog.SameEntryIffSameQuestion | scrapingQuestions.py:158 | two records share an entry iff they have the same question and type; numbering, options and answers play no part |
| Catalog.NewEntry | scrapingQuestions.py:163-173 | a new entry is unverified, first and last seen now, filed under the record's key, with the record's required flag, options and answer |
| Catalog.Refreshed | scrapingQuestions.py:176-187 | an updated entry is seen now with the record's options, takes the record's answer only when it has one, and keeps verified, first_seen, question, type and required |
| Catalog.MergeOne | scrapingQuestions.py:156-187 | one record: a new key gets an unverified entry first and last seen now; a known key is seen now, takes the options, takes the answer only if present, keeps verified, first_seen, question, type and required; other keys are untouched and none is removed |
| Catalog.MergeAll | scrapingQuestions.py:156-187 | merging a batch removes no key and files the last record of the batch |
| Catalog.WithKey | scrapingQuestions.py:158 | every record filed under a key has that key |
| Catalog.WithKeyEmpty | scrapingQuestions.py:156-158 | a key has records in a batch iff it is among the batch's keys |
| Catalog.MergePerKey | scrapingQuestions.py:156-187 | the merged entry under a key depends only on the old entry under it and on the batch's records with that key, in order |
| Catalog.ObserveExisting | scrapingQuestions.py:174-187 | repeated observations of a stored entry leave it seen now, with the last options, and with the last answer given if any (else the stored one) |
| Catalog.ObserveFresh | scrapingQuestions.py:161-185 | a key first seen in a batch gets its entry from the first record, then the last options and the last answer given |
| Catalog.MergeKeys | scrapingQuestions.py:156-172 | after merging, the keys are the old keys plus the batch's keys: nothing is removed |
| Catalog.MergeLeavesOthers | scrapingQuestions.py:156-187 | entries whose key is not in the batch are unchanged |
| Catalog.MergeKeepsVerified | scrapingQuestions.py:174-187 | stored entries keep verified, first_seen, question, type and required |
| Catalog.MergeRefreshes | scrapingQuestions.py:174-187 | a stored entry in the batch is seen now, with the last record's options and the last answer given, if any |
| Catalog.MergeInserts | scrapingQuestions.py:161-172 | a key new to the catalog gets an unverified entry first and last seen now, with the question, type and required of its first record |
| Catalog.ReMergeAtKey | scrapingQuestions.py:156-187 | merging a batch twice changes each key's entry only in last_seen |
| Catalog.ReMergeOnlyRefreshes | scrapingQuestions.py:156-187 | merging the same batch again yields the once-merged catalog with the batch's entries re-stamped: only last_seen changes |
| Catalog.Loaded | scrapingQuestions.py:144-153 | a missing file, or a file of valid UTF-8 text that is not valid JSON (`json.JSONDecodeError`), gives an empty catalog; a JSON object gives its dictionary |
| Catalog.MergeCoversBatch | scrapingQuestions.py:156-172 | every record of the batch has an entry after the merge |
| Catalog.QuestionCatalog.Load | scrapingQuestions.py:144-153 | the catalog starts from the loaded dictionary |
| Catalog.QuestionCatalog.SaveQuestions | scrapingQuestions.py:156-187 | the in-place loop leaves exactly the merged catalog; keys only grow, and stored entries keep verified and first_seen |
| Scraping.ReadTheInputsFromAndSave | scrapingQuestions.py:5-128 | the page's numbered records are extracted and merged into the loaded catalog, and each gets an entry |

## Left out

- HTML parsing (BeautifulSoup) is not modelled. A container is given by
  what the extractor asks the parser about it, so `Container` assumes the
  parser's answers are consistent with each other (for example, a
  `<select>` is present when `select` is `Present`).
- `print` output is left out: the progress messages, the summary printed
  after extraction (lines 130-138) and the messages of the merge.
- Reading and writing the JSON file are left out (lines 148-151, 190-195).
  Loading becomes the `StoredCatalog` value; a write failure, which is
  only printed, is not modelled. An error opening the file is not
  modelled either; the source does not catch it.
- Catalog.Loaded: the source catches only `json.JSONDecodeError`. A file
  that is not valid UTF-8 raises `UnicodeDecodeError` inside `json.load`.
  A valid JSON value that is not an object (such as `[]`) loads, and then
  raises `TypeError` at the first record. Either way
  `saveQuestionsToJson`, and with it `readTheInputsFrom`, aborts. The model
  has no such files: `StoredCatalog` covers only a missing file, JSON
  syntax errors and JSON objects.
- Loaded entries are taken to be well-formed (each has every field, and
  the type is one of the seven names). The source trusts the file the same
  way.
- `datetime.now()` is left out. The clock is the parameter `now`, one
  value for a whole merge. The source reads the clock once per record, and
  twice for a new entry, so its `first_seen` and `last_seen` of a new
  entry may differ by microseconds.
- Text.Lower: folds ASCII letters only. Non-ASCII characters that Python
  lowers, sometimes into several characters, are kept unchanged.
- Catalog.QuestionCatalog.SaveQuestions: the source mutates the entry
  dictionaries in place. The model replaces the entry value in the map, so
  aliasing between entries (which `json.load` never creates) is not
  modelled.
- `easyApply.py` (the browser automation driving the form) is not part of
  this model.
