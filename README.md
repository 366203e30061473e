# Retrieve-and-rerank search and grounded prompt assembly

This project models the core of a small retrieval-augmented-generation
assistant in Dafny and proves properties of that model.

**The semantic searcher** (`SearchLogic`) runs a two-stage search:
- It normalises the query once.
- It asks the vector index for up to `top_k` (by default 10) candidate
  nodes for the normalised query. With no candidates it answers with the
  empty list and does not consult the re-ranker.
- Otherwise the cross-encoder scores every candidate's text against the
  normalised query.
- Each candidate's `score` is overwritten in place with the score at its
  retrieval position.
- The candidates come back in a stable sort by that score, highest first.

In the model:
- Nodes are objects of a `Node` class whose `score` field the search
  updates.
- The overwrite loop is a method with loop invariants.
- The sort is a reference stable insertion sort (`StableSort`).
- The normaliser, the index and the cross-encoder are function-valued
  parameters.
- A ghost call trace records what each of them was given.

**The generator** (`Generation`, `GroundingTemplate`) covers three things:
- It refuses a missing or empty API key.
- It builds the prompt sent to the hosted model: a header, the node texts
  joined by blank lines, the query, and a fixed instruction.
- The engine's grounding template is a constant with a `{context_str}`
  placeholder before a `{query_str}` placeholder, ending in the answer cue.
  The model spells the template out character for character and parses
  its placeholders.

The prompt assembly has two partners:
- Splitting the context at blank lines gives back the node texts.
- Parsing a built prompt gives back its context and its query.

The re-ranker, like the index, receives the normalised query, not the
raw one (src/search_logic.py:13,24).

The code indexes the re-ranker's scores without a length check. A
re-ranker that returns fewer scores than there are candidates makes the
search raise after it has already overwritten the earlier candidates'
scores. The model keeps that path: the result is
`Err(ScoreIndexOutOfRange(k))`, where `k` is the number of scores, and
the first `k` candidates carry their new scores.

## Model

| member | source | states |
|---|---|---|
| SearchLogic.SemanticSearcher.SearchAndRank | src/search_logic.py:11-29 | the normaliser is called once on the query, and the index and the re-ranker both get the normalised query, the index with `top_k`; no candidates gives `Ok([])` with no re-ranker call; otherwise the result is Ok exactly when there are at least as many scores as candidates, and is an index error naming the score count when there are fewer; each candidate's score becomes the re-ranker score at its position, and text and metadata are untouched; an Ok result is the stable descending sort by score: a permutation of the candidates, non-increasing in score, with each score class in retrieval order |
| SearchLogic.OverwriteScores | src/search_logic.py:26-27 | candidate `i` gets `scores[i]` for every `i` that has a score; the rest keep their old score; text and metadata do not change; the loop completes exactly when the scores cover every candidate |
| SearchLogic.RankedByScore | src/search_logic.py:29 | sorting distinct candidates by their current scores gives a permutation of them, ordered by score from highest to lowest, and keeps every score class in retrieval order |
| SearchLogic.KeyAtPosition | src/search_logic.py:26-29 | with distinct candidates, the sort key of the candidate at position `i` is the score written at position `i` |
| SearchLogic.ScoredAtWithKey | src/search_logic.py:29 | the candidates with a given current score are the candidates whose sort key is that score, in the same order |
| StableSort.SortDescPermutes | src/search_logic.py:29 | the descending sort is a permutation of its input, so it has the same length |
| StableSort.SortDescOrdered | src/search_logic.py:29 | the descending sort never increases in key from left to right |
| StableSort.SortDescStable | src/search_logic.py:29 | for every key, the elements with that key appear in the sort in their input order |
| StableSort.SortDescStableAt | src/search_logic.py:29 | for one given key, the elements with that key keep their input order |
| StableSort.SortDescUnique | src/search_logic.py:29 | any sequence ordered by key whose key classes equal the input's is exactly the sort, so the three properties above fully characterise it |
| StableSort.SameClassesEqual | src/search_logic.py:29 | two key-ordered sequences with the same key classes are equal |
| StableSort.InsertPermutes | src/search_logic.py:29 | inserting one element adds exactly that element |
| StableSort.InsertSorted | src/search_logic.py:29 | inserting into a key-ordered sequence keeps it ordered |
| StableSort.InsertWithKey | src/search_logic.py:29 | an inserted element lands ahead of the elements with its key |
| GroundingTemplate.GetIndicPrompt | src/generation.py:9-27 | the engine's template has exactly the placeholders `context_str` then `query_str`, and it ends with `Answer:` |
| GroundingTemplate.IndicTemplateShape | src/generation.py:14-26 | the template's text, spelled out line by line, has balanced braces, its placeholders are `context_str` before `query_str`, and its last seven characters are `Answer:` |
| GroundingTemplate.TwoSlotFields | src/generation.py:14-26 | brace-free text around two placeholders yields exactly those two names, in order |
| GroundingTemplate.PlaceholderFields | src/generation.py:18 | a `{name}` placeholder contributes `name` ahead of the placeholders after it |
| GroundingTemplate.PlainTextFields | src/generation.py:15-17 | brace-free template text contributes no placeholder |
| Generation.NewGenerator | src/generation.py:31-36 | construction fails with the missing-key error exactly when the key is absent or empty; otherwise the generator uses the `llama-3.3-70b-versatile` model and the given key |
| Generation.SplitContextText | src/generation.py:39 | splitting the joined context at its blank-line separators gives back the node texts in order, when no text holds a blank line or ends in a line break |
| Generation.ParseBuildPrompt | src/generation.py:41-46 | the prompt is the header, then the context, a blank line, the query label and the query, then a blank line and the instruction; reading a built prompt back gives exactly its context and its query, the context first |
| Generation.GenerateResponse | src/generation.py:38-49 | the answer is the model's completion of the prompt built from the query and the texts of the context nodes, in order |

## Left out

- SearchLogic.SemanticSearcher.SearchAndRank: requires the index to return distinct node objects. The same node listed twice, where a later overwrite would change an earlier candidate's score too, is not modelled.
- SearchLogic.OverwriteScores: requires distinct nodes, for the same reason.
- Generation.SplitContextText: holds only for a non-empty list of texts without a blank line and without a trailing line break. The empty list and the list holding one empty text both join to the empty context, and for other texts the joined context does not determine the list of texts.
- Generation.ParseBuildPrompt: holds only for single-line queries. A query containing a line break makes the prompt ambiguous to read back.
- GroundingTemplate.GetIndicPrompt: states the template's placeholders and ending, not how the prompt library fills it in. `{{` escapes, which the template does not use, are not modelled.
- Scores are integers. The cross-encoder's floating-point scores, NaN and the ordering of floats are not modelled.
- The normaliser, the vector index and the cross-encoder are opaque functions. Idempotence of normalisation cannot be stated because the normaliser's code is not part of this model.
- Failures of the index itself, such as an unreachable database, are not modelled.
- The warning printed when the index returns nothing is console output and is not modelled.
- The hosted model's network call is an opaque completion function. Response streaming and errors are not modelled.
- The generator stores its client once at construction. The model keeps the model name and the key.
- Callers elsewhere pass a `model=` argument that the generator's constructor does not accept. That call site is outside this model.
- The Streamlit front end, the command-line driver, the evaluation harness, document ingestion and chunking, and the vector-database setup are not part of this model. They are user interfaces, timing, file I/O or foreign libraries.
