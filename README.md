# Resume reviewer pipeline — a Dafny model

This project models the deterministic core of the Autonomous Resume Reviewer Agent backend:

- **Bullet extraction** (`extract_resume_bullets`): a line segmenter with two selection rules (a marker prefix, an action verb) and a lenient fallback.
- **Keyword relevance and job-description mapping**:
  - the Jaccard-based score;
  - the sentence and paragraph excerpts of a job description;
  - the best excerpt per bullet;
  - the stable sort by score and the `top_k` cut.
- **The three language-model callers**, reduced to their outcome-to-record logic. These are `call_bullet_improvement`, `call_self_critique` and `call_bullet_improvement_for_relevance`.
  - The model service is an oracle: a key flag, a response per call, and a JSON decoder.
  - An outcome is `NoKey`, `Raised(message)` or `Reply(content)`. A reply decodes to an object or to "not JSON".
- **The four pipeline nodes and their fixed composition**: extract, then map, then improve, then critique.
  - The payload dicts are objects (`Values.Payload`) that the improve and critique nodes update in place.
  - The critique node aliases the same objects into `critique_payloads`.
- **The two endpoints**:
  - `analyze`: choose the payload list, then convert each payload field by field with its defaults.
  - `improve_bullet`: re-improve one bullet, then re-score it.

Modules follow the source files:
- `Text`: Python string built-ins.
- `Values`: JSON values, `dict.get`, truthiness and the mutable dict.
- `Schemas`: the pydantic records.
- `Parser`, `Embeddings`, `Llm`, `Graph` and `Endpoints`: the source files of the same names.

Three behaviours of the code that a reader might not expect are kept as written:
- Mappings come back sorted by score, not in bullet order.
- An empty word set scores 0.5, not 0.
- Every fallback record claims `is_supported_by_resume = True`.

## Model

| member | source | states |
|---|---|---|
| Text.StripCharacterised | backend/app/parser.py:36 | `strip()` leaves no surrounding whitespace, and a string is its own strip exactly when it has none |
| Text.StripIdempotent | backend/app/parser.py:43 | stripping twice is stripping once |
| Text.StripIsSlice | backend/app/parser.py:36 | the stripped string is a contiguous slice of the original |
| Text.StripChars | backend/app/parser.py:36 | every character of the stripped string occurs in the original |
| Text.StripAllSpace | backend/app/parser.py:36-39 | a line of whitespace only strips to the empty string |
| Text.TrimStartShape | backend/app/parser.py:43 | `lstrip(chars)` leaves a suffix not starting with a stripped character, and drops only stripped characters |
| Text.TrimEndShape | backend/app/parser.py:36 | `rstrip` leaves a prefix not ending with a stripped character, and drops only stripped characters |
| Text.SplitLinesParts | backend/app/parser.py:33 | no line of `splitlines()` holds a line boundary, and every character of a line comes from the text |
| Text.JoinSplit | backend/app/embeddings.py:90 | joining the pieces of `split(sep)` with `sep` gives back the text |
| Text.SplitChars | backend/app/embeddings.py:97 | every character of every piece of `split(sep)` comes from the text |
| Text.SplitLinesKeepsText | backend/app/parser.py:33 | the lines of `splitlines()`, concatenated, are the text with every line-boundary character removed: no other character is lost, added or reordered |
| Text.SplitCharPieces | backend/app/embeddings.py:90 | no piece of a split on one character contains that character |
| Text.LowerIdempotent | backend/app/embeddings.py:15-16 | lower-casing twice is lower-casing once |
| Text.LowerConcat | backend/app/embeddings.py:15-16 | lower-casing distributes over concatenation |
| Text.NatToString | backend/app/main.py:95 | `str(len(bullets))` is a non-empty string of decimal digits |
| Text.NatToStringRoundTrip | backend/app/main.py:95 | the digits of `str(n)` denote `n`, with no leading zero |
| Values.KeyOf | backend/app/llm.py:101 | the key a decoder gives a JSON name has that name, and is canonical (`Values.KeyOfName`) |
| Values.NameInjective | backend/app/main.py:78-89 | on canonical keys two fields with the same JSON name are the same field |
| Values.Payload.Set | backend/app/graph.py:64-66 | `d[k] = v` replaces one entry and keeps the others |
| Values.Payload.Update | backend/app/graph.py:88-93 | `d.update(u)` gives `u`'s keys `u`'s values and keeps every other key |
| Schemas.ImprovedBulletDefaults | backend/app/schemas.py:13-23 | an `ImprovedBullet` built without the optional fields has no issues, no evidence, score 0.0, snippet "" |
| Schemas.AnalyzeResponseDefaults | backend/app/schemas.py:26-28 | `notes` is absent by default |
| Schemas.ImproveBulletRequestDefaults | backend/app/schemas.py:31-38 | `current_relevance` defaults to 0.0 and `target_relevance` to 0.8 |
| Schemas.ImproveBulletResponseDefaults | backend/app/schemas.py:41-51 | issues and evidence default to [] and `new_relevance_score` to 0.0 |
| Parser.ConsiderLine | backend/app/parser.py:36-53 | one loop iteration adds exactly the bullet the selection rules give for that line |
| Parser.ExtractResumeBullets | backend/app/parser.py:26-59 | the loop with its fallback computes the rule-selected lines, or the fallback when none is selected |
| Parser.MarkerRule | backend/app/parser.py:42-45 | a marker line contributes its body, with leading marker characters removed and re-stripped, only if at least 3 characters remain |
| Parser.ActionVerbRule | backend/app/parser.py:47-53 | any other line contributes its stripped form only when an action verb occurs in its first 20 lower-cased characters and it has at least 5 characters |
| Parser.SelectedWellFormed | backend/app/parser.py:43-45 | whatever either rule or the fallback keeps is stripped and at least 3 characters long |
| Parser.FilterMapOrigins | backend/app/parser.py:35-53 | each output comes from its own line, in increasing line order, as the rule rewrites it, and every kept line is among them |
| Parser.FilterMapNone | backend/app/parser.py:56 | a rule that keeps no line yields no bullet |
| Parser.BulletsWellFormed | backend/app/parser.py:43-45 | every extracted bullet equals its own strip and has length at least 3 |
| Parser.BlankTextHasNoBullets | backend/app/parser.py:37-39 | empty or all-whitespace text yields no bullet |
| Parser.BulletsFollowLines | backend/app/parser.py:35-53 | output follows line order, one bullet per distinct line, so there are at most as many bullets as lines |
| Parser.FallbackKeepsLongLines | backend/app/parser.py:57 | the fallback keeps every line whose stripped form has at least 3 characters |
| Parser.FallbackOnlyLongLines | backend/app/parser.py:57 | the fallback keeps only stripped lines of at least 3 characters |
| Parser.FallbackWhenNothingSelected | backend/app/parser.py:56-57 | when neither rule selects a line, the result is the fallback: exactly the stripped lines of length at least 3 |
| Parser.SomeLineGivesSomeBullet | backend/app/parser.py:56-57 | a text with a line of at least 3 non-blank characters yields at least one bullet |
| Embeddings.Relevance | backend/app/embeddings.py:9-34 | the score lies in [0, 1] |
| Embeddings.SetScore | backend/app/embeddings.py:23-34 | the score on word sets lies in [0, 1]; its values (0.5 for an empty side, 0 for disjoint sets, 1 from half overlap on) are stated by the score lemmas below |
| Embeddings.ContentWordsMembers | backend/app/embeddings.py:15-21 | a word is a content word exactly when it is a lower-cased token and not a stop word |
| Embeddings.NoContentScoresHalf | backend/app/embeddings.py:23-24 | with no content word on either side the score is exactly 0.5 |
| Embeddings.EmptyJdScoresHalf | backend/app/embeddings.py:23-24 | an empty job description scores 0.5 |
| Embeddings.DisjointScoresZero | backend/app/embeddings.py:27-34 | content words but none shared gives 0 |
| Embeddings.HalfOverlapScoresOne | backend/app/embeddings.py:33-34 | once the shared words are at least half of all words the score is capped at 1 |
| Embeddings.SameWordsScoreOne | backend/app/embeddings.py:27-34 | identical non-empty word sets score 1 |
| Embeddings.SharedWordScoresPositive | backend/app/embeddings.py:27-34 | one shared content word gives a positive score |
| Embeddings.RelevanceSymmetric | backend/app/embeddings.py:15-34 | the score is symmetric in its two texts |
| Embeddings.RelevanceIgnoresCase | backend/app/embeddings.py:15-16 | lower-casing either text does not change the score |
| Embeddings.RelevanceIgnoresRepetition | backend/app/embeddings.py:15 | repeating the bullet does not change the score |
| Embeddings.StopWordIsLowerWord | backend/app/embeddings.py:19 | every stop word is a non-empty run of lower-case letters |
| Embeddings.RelevanceIgnoresStopWords | backend/app/embeddings.py:19-21 | appending a stop word does not change the score |
| Embeddings.KeepLong | backend/app/embeddings.py:91-94 | the loop that strips each piece and keeps it when long enough computes the kept pieces |
| Embeddings.ExtractJdChunks | backend/app/embeddings.py:82-103 | the two loops and the cut compute the excerpts: sentences, then sections, at most 50 |
| Embeddings.LongPiecesWellFormed | backend/app/embeddings.py:92-94 | every kept piece is stripped and longer than the bound |
| Embeddings.SentenceChunksShape | backend/app/embeddings.py:90-94 | sentence excerpts are stripped, longer than 20 characters, and hold neither '.' nor a newline, because `Text.ReplaceChar` turns every newline into a space |
| Embeddings.LongPiecesExactly | backend/app/embeddings.py:91-101 | the kept pieces are exactly the stripped pieces longer than the bound, in piece order: each comes from its own piece, at increasing positions, and every long piece is among them |
| Embeddings.LongPiecesComplete | backend/app/embeddings.py:91-101 | every piece whose stripped form is longer than the bound is kept, stripped |
| Embeddings.LongPiecesAvoid | backend/app/embeddings.py:90-94 | a character that occurs in no piece occurs in no kept piece |
| Embeddings.LongExcerptsKept | backend/app/embeddings.py:87-103 | every sentence longer than 20 and every section longer than 30, stripped, is an excerpt candidate; with at most 50 candidates the excerpts are all of them, sentences first |
| Embeddings.JdChunksShape | backend/app/embeddings.py:87-103 | at most 50 excerpts, each stripped and longer than 20; the sentence excerpts come first, then the sections, each longer than 30 |
| Embeddings.EmptyJdHasNoChunks | backend/app/embeddings.py:87-103 | an empty job description has no excerpt |
| Embeddings.ChunkScores | backend/app/embeddings.py:68-69 | one score per excerpt, each the relevance of the bullet to it, in [0, 1] |
| Embeddings.BestChunk | backend/app/embeddings.py:65-74 | the inner loop computes the best (score, excerpt) pair, replacing it only on a strictly higher score |
| Embeddings.BestSoFarIsFirstMaximum | backend/app/embeddings.py:65-72 | with scores in [0, 1], the best score is the maximum and the snippet is the first excerpt attaining it |
| Embeddings.MatchBulletIsBest | backend/app/embeddings.py:55-74 | each mapping takes the maximum excerpt score with the first excerpt attaining it; with no excerpt, the score on the whole description and its first 200 characters |
| Embeddings.MatchAll | backend/app/embeddings.py:55-74 | both branches of the scoring loop compute the mappings in bullet order |
| Embeddings.MapBulletsToJd | backend/app/embeddings.py:37-79 | the method computes the mapping: no bullets give [], else score, sort and cut |
| Embeddings.Truncate | backend/app/embeddings.py:79 | `mappings[:top_k] if top_k else mappings` is a prefix of the mappings, including for a negative `top_k` |
| Embeddings.SortSorted | backend/app/embeddings.py:77 | the sort leaves scores non-increasing |
| Embeddings.SortPermutes | backend/app/embeddings.py:77 | the sort is a permutation |
| Embeddings.SortStable | backend/app/embeddings.py:77 | for every score, the mappings with that score keep their relative order |
| Embeddings.SortProperties | backend/app/embeddings.py:77 | sorted, a permutation of the mappings and of their bullets, and stable |
| Embeddings.MapAllBullets | backend/app/embeddings.py:57-79 | with `top_k` 0 or at least the bullet count, exactly one mapping per bullet: the result is a sorted, stable permutation of `Embeddings.Unsorted`, the mappings in bullet order |
| Embeddings.MapTopK | backend/app/embeddings.py:77-79 | with a positive `top_k`, the `top_k` best mappings of the sorted list, still sorted |
| Embeddings.MapScoresBounded | backend/app/embeddings.py:9-34 | every mapping's score lies in [0, 1] |
| Embeddings.EmptyJdMapping | backend/app/embeddings.py:55-60 | an empty job description gives every bullet the score 0.5 and the empty snippet |
| Llm.ImproveFallback | backend/app/llm.py:77-85 | a fallback improvement record: the seven keys, the stripped bullet, given texts and issues, supported, no evidence |
| Llm.ImprovementCases | backend/app/llm.py:76-123 | through `Llm.OutcomeOf` (no client, a raised call, or the stripped reply content): no key: the placeholder record; raised: the error text and `["groq_api_error"]`; not JSON: the reply as critique and `["model_output_not_json"]`; JSON: the decoded object unchanged |
| Llm.CritiqueFallback | backend/app/llm.py:299-304 | a fallback critique: the four keys, supported, the given issues, no evidence |
| Llm.CritiqueCases | backend/app/llm.py:298-335 | no key: no issues; raised: `"Critique API call failed: "` and `["critique_api_error"]`; not JSON: the reply and `["critique_output_not_json"]`; JSON: the object unchanged |
| Llm.CritiqueFields | backend/app/llm.py:224-229 | the merged critique has exactly the four critique keys, the critique's values, and defaults "", True, [], [] |
| Llm.FallbackCritiqueFields | backend/app/llm.py:224-229 | a fallback critique merges in unchanged |
| Llm.RelevanceNoKey | backend/app/llm.py:193-199 | without a key: the stripped current bullet, empty relevance improvements, and no critique keys |
| Llm.RelevanceFallback | backend/app/llm.py:231-252 | a relevance fallback: the eight keys, the stripped current bullet, "" improvements, supported, no evidence |
| Llm.CallBulletImprovementForRelevance | backend/app/llm.py:139-252 | the method, which updates the decoded dict in place, returns the relevance record |
| Llm.RelevanceCases | backend/app/llm.py:193-252 | no key: only the four no-key fields; raised: `["improve_relevance_api_error"]`; not JSON: `["model_output_not_json"]` |
| Llm.RelevanceMergesCritique | backend/app/llm.py:214-229 | a JSON reply is critiqued on its own `improved` (or the current bullet); the record is the decoded object updated with the four critique fields, each the critique's value or its default ("", True, [], []); every other key is kept |
| Llm.FallbacksClaimSupport | backend/app/llm.py:82-84 | every fallback of the three callers claims support and quotes no evidence |
| Llm.NoKeyRelevance | backend/app/llm.py:193-199 | without a key the relevance call returns the no-key record |
| Llm.NoKeyFallbacks | backend/app/llm.py:76-85 | without a key the improver and the critic return their placeholder records |
| Graph.ExtractBulletsNode | backend/app/graph.py:22-28 | only `bullets` changes, to the extracted bullets, each stripped and at least 3 long |
| Graph.MapToJdNode | backend/app/graph.py:31-45 | no bullets: the state is unchanged; otherwise only `mapped_bullets` changes, to one mapping per bullet, a permutation of the bullets, sorted |
| Graph.Stamped | backend/app/graph.py:64-66 | the mapping's bullet, score and snippet override whatever the model returned; other keys are kept |
| Graph.ImprovePayload | backend/app/graph.py:56-66 | one loop iteration gives a fresh payload holding the stamped improvement of the bullet against `Graph.EnhancedJd`: the description, the section marker, then the snippet |
| Graph.ImproveBulletsNode | backend/app/graph.py:48-69 | only `improved_payloads` changes: one fresh, distinct payload per mapping, in mapping order, each the stamped improvement |
| Graph.Critiqued | backend/app/graph.py:88-93 | exactly the four critique keys change, to the critique's values with defaults "", True, [], []; every other key is kept |
| Graph.CritiquePayload | backend/app/graph.py:80-93 | one loop iteration merges the critique of the payload's `original` and `improved` (default "") into it, against the plain description |
| Graph.SelfCritiqueNode | backend/app/graph.py:72-97 | every improved payload, each a distinct object, is critiqued once in place, and `critique_payloads` is the same list of objects |
| Graph.RunPipeline | backend/app/graph.py:116-120 | extract, map, improve, critique in turn: the dicts of the final payloads (`Values.Contents`) are `Graph.DictsFor` the mapped bullets, one critiqued, stamped improvement per mapping, and both payload lists are the same objects |
| Graph.DictsStamped | backend/app/graph.py:64-66 | each of `Graph.DictsFor` the mappings carries its mapping's bullet, score and snippet and the four critique keys |
| Graph.PipelineOnePerBullet | backend/app/graph.py:36-45 | one mapping per extracted bullet, each bullet once, sorted, every score in [0, 1] |
| Graph.PipelineBulletsStripped | backend/app/graph.py:27 | every bullet the pipeline improves is stripped and at least 3 long |
| Graph.NoKeyRecord | backend/app/graph.py:53-97 | without a key every final payload holds the stripped bullet, the placeholder texts, support, no issues, no evidence, and the mapping |
| Graph.NoKeyKeepsStrippedBullet | backend/app/llm.py:78 | without a key the improvement of a stripped bullet is the bullet itself |
| Graph.NoKeyDictsKeepBullets | backend/app/graph.py:79-97 | without a key, for stripped bullets, every final payload has `improved == original`, claims support and quotes no evidence |
| Graph.NoKeyPipelineKeepsBullets | backend/app/graph.py:116-120 | without a key every payload of the pipeline has `improved == original`, claims support and quotes no evidence |
| Endpoints.AsStrList | backend/app/main.py:86-87 | `list(v or [])`: falsy gives [], a list must hold only strings and yields them in order, a non-empty string splits into its one-character strings (`Text.Characters`), a truthy number or bool fails |
| Endpoints.AsStrListOfStrArr | backend/app/main.py:86-87 | a list of strings reads back from its JSON form (`Values.StrArr`) unchanged |
| Endpoints.ToImprovedBullet | backend/app/main.py:77-90 | a converted payload keeps its `original` and `improved` strings and the truthiness of its support flag |
| Endpoints.ConvertsBack | backend/app/main.py:77-90 | a payload whose `Values.Get` of each field, with its default, is the bullet's field in JSON form converts to exactly that bullet; so `Endpoints.AsStr` reads a JSON string back and `Endpoints.AsFloat` a number |
| Endpoints.EmptyPayloadDefaults | backend/app/main.py:78-89 | a payload with none of the read keys converts to the all-defaults bullet: "", True, [], 0.0 |
| Endpoints.ToBullets | backend/app/main.py:74-91 | one bullet per payload, in payload order, or failure when some payload does not convert |
| Endpoints.BuildBullets | backend/app/main.py:74-91 | the append loop computes the converted bullets of the payloads' dicts (`Values.Contents`), failing on the first payload that does not convert |
| Endpoints.PrefixFailure | backend/app/main.py:74-91 | one payload that does not convert makes the whole conversion fail |
| Endpoints.NotesReportCount | backend/app/main.py:95 | the notes line (`Endpoints.Notes`) is its fixed prefix, then digits that read back as the number of bullets |
| Endpoints.Analyze | backend/app/main.py:52-96 | `analyze` returns the converted bullets of the pipeline's payloads and the notes line; whichever list `Endpoints.ChoosePayloads` picks, it holds the critiqued payloads |
| Endpoints.AnalyzeOnePerBullet | backend/app/main.py:74-95 | one bullet per extracted resume bullet, each converted from its payload, and the notes report that number |
| Endpoints.NoKeyAnalyze | backend/app/main.py:61-95 | without a key `analyze` always answers, one bullet per mapping, each the extracted bullet unchanged with the placeholder texts, support, no issues, no evidence and its mapping |
| Endpoints.NoKeyBullet | backend/app/main.py:77-90 | without a key a stripped bullet comes back unchanged, with the placeholder texts, support, no issues and no evidence |
| Endpoints.ImproveBullet | backend/app/main.py:99-130 | the returned `improved` is the result's (default: the current bullet), and `new_relevance_score` is its score against the description, in [0, 1] |
| Endpoints.ImproveBulletConverts | backend/app/main.py:105-130 | a relevance record whose fields, read with their defaults, are a response's fields in JSON form, and whose `improved` scores as the response's `new_relevance_score`, gives exactly that response |
| Endpoints.ImproveBulletRejectsNumbers | backend/app/main.py:121-125 | a number in any of the five string fields of the relevance record makes the response fail validation |
| Endpoints.NoKeyImproveBullet | backend/app/main.py:105-130 | without a key: the stripped current bullet, the no-key texts, no critique, scored against the description |

## Left out

- `parse_pdf` and `parse_docx` are left out (backend/app/parser.py:10-23): they read files through libraries.
- The Groq client, the network call, model names, temperatures and prompt text are left out.
  - Each call is an oracle: `Env` holds a key flag, one response function per caller and a JSON decoder.
  - Each oracle is a deterministic function of its arguments.
- The text of `str(exc)` is an opaque message string.
- `json.loads` is an abstract decoder that returns a flat object or fails. Nested objects and non-object JSON are not modelled, because the calls request `json_object` output.
- Field names are the `Values.Key` constructors. A real decoder names its keys through `Values.KeyOf`, so its keys are `Values.Canonical`. The abstract decoder in `Env` is not constrained to this: an `Other` key spelling a listed name would read as a missing field, which Python would not do. No lemma relies on decoded keys being canonical.
- The environment and `.env` loading in backend/app/config.py are left out. Key presence is the boolean `Env.hasKey`.
- FastAPI construction, CORS handling and `/health` are left out (backend/app/main.py:16-49). So are the frontend Netlify handlers, which repeat main.py's assembly behind HTTP plumbing.
- The LangGraph wiring is left out (backend/app/graph.py:100-122). `Graph.RunPipeline` is the four nodes in sequence.
- Unicode is handled through assumptions:
  - `\w`, `lower()` and `isdigit()` are ASCII-only.
  - `strip()` and `splitlines()` use Python's whitespace and line-boundary sets, written out in `Text`.
- Scores are `real`, not floating point. `float(...)` of a numeric string is not modelled: `Endpoints.AsFloat` accepts only numbers and booleans.
- `mappings.sort(...)` is a library call that sorts in place. It is modelled on values as a stable insertion sort. The in-place update of that one list is not modelled.
- A failed conversion or validation in an endpoint makes the result `None`. The HTTP error it causes is not modelled.
- Graph.SelfCritiqueNode: requires every payload to hold "original". The source raises `KeyError` otherwise, and the improve node always stamps this key.
- Graph.SelfCritiqueNode: requires the payloads to be distinct objects. The improve node always builds one fresh payload per mapping; a list holding one object twice, which would be critiqued twice, is not modelled.
- Endpoints.ToImprovedBullet: its own contract states only the `original`, `improved` and support fields. The full field-by-field conversion is stated by `Endpoints.ConvertsBack` and `Endpoints.EmptyPayloadDefaults`.
