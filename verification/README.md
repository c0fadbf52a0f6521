# genanki card generation and note identity, in Dafny

This project models the pure core of genanki, the Python library that builds
Anki decks. It covers the logic between a caller's `Model` and `Note` objects
and the SQLite writer:

- **Required-field analysis.** `Model._req` decides, for each card template,
  which fields must be filled for the card to have content: `'all'` of a list,
  or `'any'` of a list. It also raises when a template has no such field.
- **Card resolution.** `Note.cards` dispatches on the model type.
  - A front/back note gets one card per requirement entry that holds.
  - A cloze note gets one card per distinct `{{cN::…}}` number in the fields
    that the first template's question refers to with `cloze:`.
- **Note identity.** `guid_for` joins the field values with `__`, hashes them
  with SHA-256, folds the first 8 bytes big-endian into an integer, and writes
  that integer in Anki's base-91 alphabet.
- **The small helpers.**
  - the sort-field fallback, the guid override, and the field and tag strings;
  - the `cards` row a `Card` is written as;
  - the `ord` numbering and defaults `to_json` applies to templates and fields;
  - the five built-in models, as constant data;
  - the fixer for one-field notes of the built-in cloze model.

The Python exceptions of this core become the `Error` cases of
`Results.Result`:

| Exception in the library | `Error` case |
|---|---|
| `_req` finding no usable field | `NoRequiredFields` |
| an unknown model type | `UnknownModelType` |
| an index past the field list | `FieldIndexOutOfRange` |
| a cloze model without templates | `NoTemplates` |

Pystache is replaced by a small mustache subset, `Mustache.Node`, with three
node kinds:

- literal text;
- `{{key}}`, which renders the key's value, or "" when the key is unknown, as
  in `{{type:Back}}` or `{{cloze:Text}}`;
- `{{#key}}…{{/key}}`, which renders its body only when the value is non-empty.

A template's question is held as such a tree. The cloze scanner reads the
printed form of that tree (`Mustache.Print`).

SHA-256 is a parameter (`sha256: string -> Digest`), so nothing depends on a
particular hash.

Modules follow the source files:

| Module | Source |
|---|---|
| `Util` | `genanki/util.py` |
| `Models` | `_req` |
| `ModelJson` | the `ord`/default part of `to_json` |
| `Cards` | `genanki/card.py` |
| `Cloze` | the two regular expressions of `_cloze_cards` |
| `Notes` | `genanki/note.py` |
| `BuiltinModels` | `genanki/builtin_models.py` |
| `Scenarios` | the concrete expectations of the test files |

`Results`, `Sequences`, `Strings`, `Json` and `Mustache` are supporting
modules.

## Model

| member | source | states |
|---|---|---|
| Util.TableDistinct | genanki/util.py:3-8 | The base-91 table has exactly 91 entries and no symbol occurs twice. |
| Util.ToBase91 | genanki/util.py:24-29 | The encoding uses only table symbols. It is empty exactly for 0, and a positive value never starts with the zero symbol `a`. |
| Util.FromToBase91 | genanki/util.py:24-29 | Reading the symbols back as digits (each symbol's index in the table), most significant first, gives the encoded integer. |
| Util.Base91Injective | genanki/util.py:24-29 | Distinct integers get distinct encodings. |
| Util.ToFromBase91 | genanki/util.py:24-29 | Every string of table symbols without a leading zero symbol is the encoding of its own value, so the encoding is onto the canonical strings. |
| Util.ToBase91Snoc | genanki/util.py:25-27 | One loop step: the last symbol of a positive value's encoding is its remainder mod 91, and the rest encodes the quotient. |
| Util.Base91Length | genanki/util.py:24-29 | A value below 91^k takes at most k symbols. |
| Util.Pow64Below91To10 | genanki/util.py:17-29 | 2^64 and 91^10 as numbers; the first is below the second, which bounds a guid at 10 symbols. |
| Util.Base91Encode | genanki/util.py:24-29 | The loop that appends `hash_int % 91` and divides, followed by the reversal, yields the base-91 encoding. The result reads back to `hash_int` and is empty exactly when `hash_int` is 0. |
| Util.BigEndianBound | genanki/util.py:17-21 | A big-endian byte string of length n is below 256^n; 8 bytes give a value below 2^64. |
| Util.BigEndianOfBytes | genanki/util.py:17-21 | Writing a value below 256^k as k big-endian bytes and folding them back gives the value. |
| Util.BytesOfBigEndian | genanki/util.py:17-21 | Folding bytes and writing the value back as that many bytes gives the same bytes, so the fold loses nothing. |
| Util.FoldBytes | genanki/util.py:18-21 | The `<<= 8; += b` loop computes the big-endian value of the bytes, which is below 256^len. |
| Util.GuidFor | genanki/util.py:11-29 | The guid is made of table symbols only, is at most 10 symbols long, and reads back as the big-endian value of the first 8 hash bytes of the `__`-joined values. It is empty exactly when that value is 0, and otherwise does not start with the zero symbol `a`. |
| Util.GuidForCanonical | genanki/util.py:11-29 | A string is the guid exactly when it is made of table symbols, has no leading `a`, and reads back as the hash value: those properties fix the guid. |
| Util.ComputeGuid | genanki/util.py:11-29 | The step-by-step computation (join, hash, fold, encode) gives the same guid. |
| Util.GuidDependsOnlyOnJoin | genanki/util.py:12-16 | Value lists with the same `__`-joined string get the same guid. |
| Util.SeparatorCollision | genanki/util.py:12 | `["a__b"]` and `["a", "b"]` join to the same string and so share a guid. |
| Models.ReqFor | genanki/model.py:41-76 | A template's entry carries the template's index and a non-empty, strictly increasing list of field ordinals, each below the field count. The only failure is `NoRequiredFields` for that template. |
| Models.ReqForModes | genanki/model.py:42-76 | The mode is `'all'` exactly when some field's blanking (others at the sentinel) removes the sentinel, and the list is then exactly those fields. Otherwise the mode is `'any'` and the list is exactly the fields whose sole presence shows the sentinel. It fails exactly when neither kind of field exists. |
| Models.ComputeReq | genanki/model.py:26-78 | `_req` has one entry per template, in template order, each the template's own entry. It fails exactly when some template fails, and then reports the first failing template. |
| Models.ComputeReqOfEntries | genanki/model.py:40-78 | When every template's entry is known, `_req` is the list of those entries. |
| Models.NecessaryPass | genanki/model.py:42-53 | The blank-one-field loop collects exactly the necessary fields, in order. |
| Models.SufficientPass | genanki/model.py:60-69 | The sentinel-in-one-field loop collects exactly the sufficient fields, in order. |
| Models.ComputeReqByLoops | genanki/model.py:26-78 | The nested loops with `continue` and `raise` produce the same result as the per-template definition. |
| Models.ContextKeys | genanki/model.py:42-46 | Both render contexts give every field name a value. |
| Models.LeadingFieldReq | genanki/model.py:42-57 | A question that starts with a field of unique name and otherwise reads no field and shows no sentinel text requires exactly that field, in `'all'` mode. |
| Models.SingleFieldTemplateReq | genanki/model.py:42-57 | A question that is one field tag of a unique name requires exactly that field. |
| Models.SectionFieldNecessary | genanki/model.py:44-53 | In `{{#A}}{{B}}{{/A}}`, a field is necessary exactly when it is A or B. |
| Models.SectionFieldReq | genanki/model.py:42-57 | `{{#A}}{{B}}{{/A}}` requires both A and B, in field order, in `'all'` mode. |
| Models.SectionTemplateReq | genanki/model.py:42-57 | The same, for a template of a model. |
| Models.AnyReq | genanki/model.py:59-76 | With no necessary field, the entry is `'any'` over exactly the sufficient fields. |
| Json.SetDefault | genanki/model.py:83 | `setdefault` adds the key, keeps an existing value, and leaves the other keys alone. |
| Json.SetDefaults | genanki/model.py:83-85 | A run of `setdefault` calls keeps every existing key's value, adds exactly the default keys, and fills a missing key with its first default. |
| Json.SetDefaultsIdempotent | genanki/model.py:83-85 | Applying the same defaults twice changes nothing more. |
| ModelJson.TemplateDefaultsShape | genanki/model.py:83-85 | The template defaults are `bafmt`, `bqfmt` and `did`, none is `ord`, and none repeats. |
| ModelJson.FieldDefaultsShape | genanki/model.py:89-93 | The field defaults are `font`, `media`, `rtl`, `size` and `sticky`, none is `ord`, and none repeats. |
| ModelJson.Numbered | genanki/model.py:81-93 | `ord` becomes the list index and every other key the caller gave keeps its value. A default fills only a missing key, and the key set grows by exactly `ord` and the defaults. |
| ModelJson.TemplateJson | genanki/model.py:81-85 | The same for a template, whose name and formats stay as they are. |
| ModelJson.FieldJson | genanki/model.py:87-93 | The same for a field, whose name stays as it is. |
| ModelJson.NumberModel | genanki/model.py:80-93 | Template i becomes exactly `TemplateJson(template i, i)` and field i exactly `FieldJson(field i, i)`: each gets its index as `ord`, keeps its name, question and other keys, and gains the defaults. The model's id, name, css and type stay as they are. |
| ModelJson.NumberedIdempotent | genanki/model.py:81-93 | Numbering an already numbered entry changes nothing. |
| ModelJson.NumberModelIdempotent | genanki/model.py:80-93 | A second `to_json` leaves the templates and fields as the first left them. |
| ModelJson.NumberModelKeepsReq | genanki/model.py:80-93 | The in-place numbering does not change `_req`. |
| Cards.NewCard | genanki/card.py:6-8 | A new card keeps its ord and is not suspended. |
| Cards.Queue | genanki/card.py:11 | The queue is -1 exactly for a suspended card and 0 exactly for one that is not. |
| Cards.CardRowOf | genanki/card.py:15-34 | The row carries the note id, deck id, time and ord unchanged. The queue follows the suspension, usn is -1, data is "", and type, due, ivl, factor, reps, lapses, left, odue, odid and flags are 0. |
| Cards.CardRowRoundTrip | genanki/card.py:15-34 | The row keeps everything a card holds: its ord and whether it is suspended. |
| Cards.CardRowsAgreeElsewhere | genanki/card.py:15-34 | Two cards of one note written at one time give rows that differ at most in ord and queue. |
| Cloze.LazyUntil | genanki/note.py:48 | `(.+?)}}` from a position: the first end at or after it where `}}` follows, with no newline before, and no earlier such end. |
| Cloze.LazyGroup | genanki/note.py:48 | The lazy group is the shortest non-empty newline-free prefix followed by the closing text. There is none exactly when no end qualifies. |
| Cloze.MatchFieldRef | genanki/note.py:42 | A match of the field-reference pattern has a non-empty group, stays inside the text, and implies that the text contains `cloze:`. |
| Cloze.MatchLegacyRef | genanki/note.py:43 | The same for the `<%cloze:…%>` pattern. |
| Cloze.NoClozeNoRefs | genanki/note.py:41-43 | A question without `cloze:` refers to no field. |
| Cloze.FieldRefOfName | genanki/note.py:42 | `{{cloze:x}}` followed by more text refers to `x`, then to whatever the rest refers to. |
| Cloze.SoleFieldRef | genanki/note.py:41-43 | `{{cloze:x}}` alone refers to `x` only. |
| Cloze.DigitRun | genanki/note.py:48 | `\d+` takes the whole run of leading digits. |
| Cloze.Decimal | genanki/note.py:48 | The canonical digit string of n: non-empty, no leading zero, and `int()` of it, as the line applies to a deletion's number, is n. It is used to write the deletion lemmas' inputs. |
| Cloze.MatchMarker | genanki/note.py:48 | A cloze deletion at the start of the text spans at least 7 characters and stays inside the text. |
| Cloze.MatchMarkerSound | genanki/note.py:48 | A match is a `{{c<digits>::<non-empty one-line text>}}` occurrence, and its number is the value of its digits. |
| Cloze.MatchMarkerComplete | genanki/note.py:48 | Conversely, any `{{c<digits>::<non-empty one-line text>}}` at the start of the text is matched, with the value of its digits as the number; the match ends no later than that deletion's `}}`. |
| Cloze.MarkerNumbersComplete | genanki/note.py:48 | A deletion that follows text without `{` is found by the scan, and its number is the first one reported. |
| Cloze.MatchMarkerOf | genanki/note.py:48 | `{{cN::x}}` with x non-empty, without `}` or a newline, matches with number N and its full length. |
| Cloze.MarkerNumbersSound | genanki/note.py:48 | Every number found comes from a cloze deletion occurring in the text. |
| Cloze.MarkerNumbersOfMarker | genanki/note.py:48 | A deletion numbered N followed by more text yields N, then the numbers of the rest. |
| Cloze.MarkerNumbersSkipText | genanki/note.py:48 | Text without `{` adds no numbers. |
| Cloze.MultilineMarkerIgnored | genanki/note.py:48 | A deletion whose text spans a line break is not found. |
| Cloze.NestedMarkerHidden | genanki/note.py:48 | In `{{c1::{{c2::a}}` only deletion 1 is found: the scan resumes after the first match, so the inner deletion is never seen. |
| Notes.SortField | genanki/note.py:19-25 | A non-empty override is the sort field; otherwise the first field value is. With neither there is an index error. |
| Notes.EmptySortFieldFallsBack | genanki/note.py:21 | An empty-string override behaves as no override. |
| Notes.NoteGuid | genanki/note.py:62-70 | A set guid is returned as is. Otherwise the guid is `guid_for` of the field values: a base-91 string of at most 10 symbols, without a leading `a`, that reads back as the hash value of the fields. |
| Notes.DerivedGuidFollowsFields | genanki/note.py:62-66 | Two notes without a set guid and with equal fields get equal guids. |
| Notes.EvalAll | genanki/note.py:57-58 | `all(...)` over the listed field values is true exactly when all are non-empty. It fails exactly when an ordinal past the end comes after only non-empty values, and the error names that ordinal. |
| Notes.EvalAny | genanki/note.py:57-58 | `any(...)` is true exactly when some listed value is non-empty before any ordinal past the end. It fails exactly when an ordinal past the end comes after only empty values, and the error names that ordinal. |
| Notes.Satisfied | genanki/note.py:56-58 | An entry's test passes exactly when the entry holds on the fields. It fails exactly when, for its mode, the generator reaches an ordinal past the end before `all` or `any` stops; so it cannot fail when every ordinal is in range, and a failure is an index error. |
| Notes.FrontBackCards | genanki/note.py:53-60 | A `_req` failure is passed on. The cards come out in increasing template order and none is suspended. |
| Notes.FrontBackCardsErrors | genanki/note.py:56-58 | Card generation succeeds exactly when every entry's test succeeds, in particular whenever every ordinal is in range. Its only failure is an index error. |
| Notes.TestsErrors | genanki/note.py:56-58 | The tests of all entries, run in order, fail exactly when one of them fails, and then with an index error. |
| Notes.FrontBackCardsChosen | genanki/note.py:53-60 | A card with ord t is produced exactly when t is a template whose entry holds on the note's fields. |
| Notes.FrontBackCardsOutcome | genanki/note.py:53-60 | Given each entry's outcome, the cards are new cards for exactly the templates whose entry holds, in order. |
| Notes.FrontBackOutcome | genanki/note.py:29-60 | The same through `Note.cards` for a front/back model. |
| Notes.SatisfiedAllOne | genanki/note.py:57-58 | `'all'` over one field holds exactly when that field is non-empty. |
| Notes.SatisfiedAllTwo | genanki/note.py:57-58 | `'all'` over two fields holds exactly when both are non-empty. |
| Notes.SatisfiedAnyFirst | genanki/note.py:57-58 | `'any'` holds as soon as its first listed field is non-empty. |
| Notes.AnyFirstCard | genanki/note.py:29-60 | A one-template `'any'` model gives card 0 when the first listed field is filled. |
| Notes.FieldPerTemplateCards | genanki/note.py:29-60 | A front/back model whose two templates need field 0 and field 1 respectively gives card 0 exactly when field 0 is filled and card 1 exactly when field 1 is. |
| Notes.FirstIndex | genanki/note.py:45 | The `next(...)` lookup finds the first field with the name, or nothing when no field has it. |
| Notes.RefValue | genanki/note.py:45-46 | A referenced name absent from the model reads as "". A present name reads the note's value at its first index, or fails when the note has no value there. |
| Notes.Predecessors | genanki/note.py:48 | `int(m) - 1 for m … if int(m) > 0`: o is listed exactly when o + 1 is among the numbers. |
| Notes.OrdsOfNumbers | genanki/note.py:39-48 | The union of those ordinals over several lists, strictly increasing, so each ordinal occurs once. |
| Notes.OrdsOfValuesMembers | genanki/note.py:44-48 | An ordinal is collected exactly when some value holds a deletion numbered one higher. |
| Notes.ClozeOrds | genanki/note.py:39-49 | `card_ords` succeeds exactly when every referenced field can be read. It is strictly increasing, and its only failure is an index error. |
| Notes.ClozeOrdsMembers | genanki/note.py:39-49 | An ordinal is in `card_ords` exactly when some referenced field holds a deletion numbered one higher. |
| Notes.AbsentRefAddsNothing | genanki/note.py:45-46 | A reference to a field the model lacks leaves `card_ords` unchanged. |
| Notes.ClozeCards | genanki/note.py:37-51 | A model without templates fails. Otherwise the cards are new, unsuspended cards for exactly the ordinals of `card_ords`, and fail exactly when those do. |
| Notes.ClozeRefsOfVar | genanki/note.py:41-43 | A question that is just `{{cloze:Name}}` refers to `Name` only. |
| Notes.ClozeReadsOneField | genanki/note.py:41-48 | When the question refers to one field only, the cards are exactly the ordinals of that field's deletions. |
| Notes.NoMarkersNoCards | genanki/note.py:49-51 | A cloze note whose referenced fields hold no deletion gets no card at all: the `{0}` fallback does not apply. |
| Notes.NoteCards | genanki/note.py:29-35 | Front/back models take the front/back path, cloze models the cloze path, and any other type fails with `UnknownModelType`. The cards are in increasing ord order and none is suspended. |
| Notes.FormatFields | genanki/note.py:90-91 | The joined string is at least as long as each field. |
| Notes.FormatFieldsRoundTrip | genanki/note.py:90-91 | Splitting on `\x1f` gives the fields back when none contains `\x1f`. |
| Notes.FormatFieldsEmptyAmbiguous | genanki/note.py:90-91 | No fields and one empty field give the same string. |
| Notes.FormatTags | genanki/note.py:93-94 | The tag string starts and ends with a blank. |
| Notes.FormatTagsRoundTrip | genanki/note.py:93-94 | Stripping the outer blanks and splitting on blanks gives the tags back when no tag contains a blank. |
| Notes.NoteRowOf | genanki/note.py:72-84 | The note row exists exactly when the sort field does. It carries the guid, model id, time, usn -1, tags, fields, sort field, and zero csum and flags. |
| Notes.CardRowsOf | genanki/note.py:86-88 | One row per card of the list the caller holds, in order. Each row describes its card, ord and suspension alike, under the note id, deck id and timestamp. |
| Notes.ComputedCardRows | genanki/note.py:29-35 | Written as computed, a note's cards give one row per card with the card's ord, all in the new queue 0. |
| Notes.SuspendedCardRow | tests/test_genanki.py:365-377 | Suspending card k of the cached list before writing puts row k, and only row k, in the suspended queue -1. |
| BuiltinModels.BuiltinIdsDistinct | genanki/builtin_models.py:18-147 | The five built-in models have five different ids. |
| BuiltinModels.BasicModelReq | genanki/builtin_models.py:18-39 | The basic model requires "Front": `[[0, 'all', [0]]]`. |
| BuiltinModels.BasicAndReversedModelReq | genanki/builtin_models.py:41-67 | `[[0, 'all', [0]], [1, 'all', [1]]]`. |
| BuiltinModels.OptionalReversedModelReq | genanki/builtin_models.py:69-99 | Card 2 requires both "Back" and "Add Reverse": `[[0, 'all', [0]], [1, 'all', [1, 2]]]`. |
| BuiltinModels.TypeInModelReq | genanki/builtin_models.py:101-122 | `{{type:Back}}` reads no field, so only "Front" is required: `[[0, 'all', [0]]]`. |
| BuiltinModels.OptionalReverseCards | genanki/builtin_models.py:69-99 | A note gets card 0 exactly when "Front" is filled, and card 1 exactly when "Back" and "Add Reverse" both are. |
| BuiltinModels.ClozeModelReq | genanki/builtin_models.py:124-147 | `{{cloze:Text}}` reads no field, so both passes render "" and every field counts as necessary: `_req` is `[[0, 'all', [0, 1]]]`. |
| BuiltinModels.ClozeModelRefs | genanki/builtin_models.py:124-147 | The cloze model's question refers to "Text" only. |
| BuiltinModels.ClozeModelReadsFirstField | genanki/builtin_models.py:124-147 | So a note of it gets the cards of the deletions in its first field. |
| BuiltinModels.FixDeprecated | genanki/builtin_models.py:149-159 | It warns exactly when the model is the `CLOZE_MODEL` object and there is one field, and then pads with "" to the model's two fields, keeping the first. In every other case the fields are unchanged. |
| BuiltinModels.FixDeprecatedIdempotent | genanki/builtin_models.py:149-159 | Fixing a fixed list changes nothing and does not warn. |
| BuiltinModels.FixDeprecatedFillsClozeModel | genanki/builtin_models.py:149-159 | A one- or two-field cloze note ends up with one value per model field, with the text first. |
| Scenarios.TestModelReq | tests/test_genanki.py:227-228 | `{{AField}}` gives `[[0, 'all', [0]]]`. |
| Scenarios.CnModelReq | tests/test_genanki.py:230-231 | The two-template model gives `[[0, 'all', [0]], [1, 'all', [1]]]`. |
| Scenarios.HintModelReq | tests/test_genanki.py:233-234 | `{{Question}}{{#Hint}}…{{/Hint}}` gives `[[0, 'any', [0, 1]]]`. |
| Scenarios.CnCards | tests/test_genanki.py:236-247 | A note of the two-template model gets card 0 exactly when the traditional field is filled, and card 1 exactly when the simplified field is. |
| Scenarios.CnExamples | tests/test_genanki.py:236-247 | `['中國', '中国', 'China']` gets cards 0 and 1; `['你好', '', 'hello']` gets card 0 only. |
| Scenarios.HintCards | tests/test_genanki.py:249-257 | A hint-model note with a question gets card 0 only, with or without a hint. |
| Scenarios.HintExamples | tests/test_genanki.py:249-257 | Both notes of the test get card 0 only. |
| Scenarios.MyClozeModelRefs | tests/test_cloze.py:26-39 | The test's cloze model refers to "Text" only. |
| Scenarios.MyClozeCards | tests/test_cloze.py:26-39 | A note of that model gets exactly the cards one below its text's deletion numbers, in increasing order. |
| Scenarios.OneDeletionCards | tests/test_cloze.py:46-48 | Plain text followed by one deletion numbered N gets card N - 1 only. Examples are `NOTE ONE: {{c1::single deletion}}` and `NOTE THREE: {{c1::1st deletion::C1-CLOZE}}`, whose `::C1-CLOZE` hint is part of the deletion. |
| Scenarios.ThreeDeletionCards | tests/test_cloze.py:51-53 | Plain text followed by deletions 1, 2 and 3 gets cards 0, 1 and 2. |
| Scenarios.NoteOneCards | tests/test_cloze.py:46-48 | `NOTE ONE: {{c1::single deletion}}` gets card 0 only. |
| Scenarios.NoteTwoCards | tests/test_cloze.py:51-53 | `NOTE TWO: {{c1::1st deletion}} {{c2::2nd deletion}} {{c3::3rd deletion}}` gets cards 0, 1 and 2. |
| Scenarios.NoteThreeCards | tests/test_cloze.py:56-58 | `NOTE THREE: {{c1::1st deletion::C1-CLOZE}}` gets card 0 only: the hint is part of the deletion. |
| Scenarios.ClozeNoteWithoutDeletions | genanki/note.py:49-51 | A cloze note without deletions gets no card. |

## Left out

- **YAML loading** in `set_fields`/`set_templates` (genanki/model.py:14-24). Fields and templates are given as lists.
- **Pystache.** The question format is a three-kind template tree. HTML escaping, inverted sections, lists, partials and delimiter changes are not modelled. `_req` only renders the sentinel (letters only) and "", so escaping cannot change its outcome. The tree also has no form for:
  - whitespace inside a tag. In `{{ cloze:Text }}` the cloze regex at genanki/note.py:42 captures `Text ` with its trailing space, which names no field, so that reference adds no card ordinal;
  - comments (`{{! … }}`);
  - unescaped tags (`{{{…}}}` and `{{&…}}`);
  - dotted names (`{{a.b}}`).
- **`_req` of cloze models.** A `cloze:` key renders "" in every context, so every field counts as necessary and `_req` is `'all'` over all fields (`BuiltinModels.ClozeModelReq`). The cloze path never consults it.
- **Caching.** `cached_property` on `_req` and `cards` is not modelled as state. `_req` and the computed cards are functions of the model and note. The cached card list that `write_to_db` writes is a parameter of `Notes.CardRowsOf`, so cards a caller suspended are written suspended. A model or note changed after the cache was filled is not modelled. `ModelJson.NumberModelKeepsReq` shows that the numbering `to_json` applies in place does not change `_req`.
- **SHA-256** is an uninterpreted parameter. The literal guids a hash would produce cannot be derived.
- **The rest of `to_json`** (genanki/model.py:95-112) is not modelled: the dictionary of constants, the LaTeX preamble and `req`. Only the `ord` numbering and the defaults are.
- **The clock-derived card id and the 1 ms sleep** (genanki/card.py:3, 12-14). The row is modelled without its id.
- **SQL, files and packaging:** `cursor.execute`, `lastrowid`, and the deck, package and database modules. `Notes.NoteRowOf` and `Notes.CardRowsOf` give the values written, with the note id as a parameter.
- **The row-writing order** of `write_to_db`: the note row first, then the card rows.
- **Deck-side behaviour:** the tests' `guid_method` modes, tag and field-count validation, HTML-tag warnings, `due`, deck options, LaTeX and sort-field-index options. genanki's `Note` and `Model` code does not implement them.
- **The card-suspension test** (tests/test_genanki.py:365-377) reads the cards back from a live Anki collection; that part is not modelled. What it relies on, the suspended card written to queue -1, is `Notes.SuspendedCardRow`.
- **Unicode digits.** Python's `\d` also matches non-ASCII decimal digits. The model reads only `0`-`9`.
- **Non-string field values.** Fields are strings; Python's truthiness of other values is not modelled.
- **Test-model CSS.** The test models of `Scenarios` carry an empty `css`, because no operation here reads it.
- Notes.ClozeCards: Python builds the cards from a `set`, whose iteration order is not specified. The model lists them smallest first.
- BuiltinModels.FixDeprecated: `model is CLOZE_MODEL` tests object identity, which a value cannot express. The caller states it as the flag `isClozeModel`. An equal copy of the model is not the object, and the object stays itself after `to_json` numbers it in place.
- Notes.FrontBackCards: the field values are those the note holds after construction. The fixer for deprecated cloze notes is modelled standalone, as `BuiltinModels.FixDeprecated`, because `note.py` does not call it.

## Where the code and the usual reading differ

The model follows the code as written. These lemmas show where that differs
from what a reader of the docstrings would expect.

- **The `{0}` fallback never fires.** genanki/note.py:49 compares the set
  `card_ords` with `{}`, which is an empty dict, so the test is always false.
  A cloze note without deletions gets no card (`Notes.NoMarkersNoCards`,
  `Scenarios.ClozeNoteWithoutDeletions`).
- **Deletions cannot span lines.** The marker pattern at genanki/note.py:48 has
  no DOTALL flag (`Cloze.MultilineMarkerIgnored`).
- **An empty sort-field override falls back** to the first field, because
  genanki/note.py:21 uses `or` (`Notes.EmptySortFieldFallsBack`).
- **Nested deletions hide the inner one** (`Cloze.NestedMarkerHidden`).
- **Field and guid encodings are not injective.**
  - No fields and one empty field format alike
    (`Notes.FormatFieldsEmptyAmbiguous`).
  - Values containing `__` can collide in `guid_for`
    (`Util.SeparatorCollision`).
- **`to_json` always writes `"type": 0`** at genanki/model.py:109. The
  cloze test at tests/test_cloze.py:44 expects 1. genanki's `Model` class at
  this revision does not take a model type, yet note.py and builtin_models.py use one. The
  model gives `Model` a `modelType` field with the three cases front/back,
  cloze and unrecognised.
