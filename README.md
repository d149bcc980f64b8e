# Text-statistics aggregator, modelled in Dafny

This project models the statistics core of the T3xtAnlys analyser
(`analyze.py`). The analyser runs spaCy over the input text (analyze.py:38-45)
and reduces the parsed document to the values that fill a prompt template. The
model starts from the parsed document (see "## Left out"). The values are:

- per-sentence token counts, punctuation included;
- the character lengths of the tokens that are not punctuation;
- the lemmas of content words (ADJ, ADV, INTJ, NOUN, SCONJ, VERB, PROPN);
- per-sentence morphological-feature lists, with empty lists dropped;
- `Counter` tables over parts of speech, dependency labels and verb tags
  (tags starting with `V`);
- per-sentence clause counts: one main clause plus one for each token whose
  dependency is `ccomp`, `xcomp`, `advcl`, `relcl` or `conj`;
- the five most common lemmas;
- the first 500 characters of the input;
- for each of the three numeric lists, the summary `variance_measures`
  computes: average, spread, range (max − min) and oscillation ratio. The
  oscillation ratio is the share of adjacent pairs whose values differ.

`text_analyze_eng` and `text_analyze_chn` differ only in the model they load
and the template file they read. One model covers both.

Modules:

- `Prelude` (`prelude.dfy`): a `Result` type and Python's `s[:k]` slice.
- `Variance` (`variance.dfy`): `variance_measures`, written as functions plus
  lemmas. Averages and ratios are exact `real` quotients. The standard
  deviation is kept as its exact square, the sample variance.
- `Frequency` (`frequency.dfy`): `Counter(labels)` as a `map<string, nat>`.
  `Counter` keys follow insertion order. `most_common(k)` is a stable sort of
  the items by decreasing count, then the first k.
- `Annotation` (`annotation.dfy`): the token, sentence and document
  datatypes, and filter/map functions that say what each list holds.
- `Reduction` (`reduction.dfy`): the imperative walk over sentences and
  tokens and the clause-count loop. These are methods with loop invariants,
  proved equal to the `Annotation` functions. `Analyze` and its
  specification `Analysis` assemble the prompt values.

The outer `for sent` loop is `WalkDocument`. Each of its passes is
`WalkSentence`, which holds the inner `for token` loop. The lists the source
keeps in local variables are the fields of a `Walk` value.

Two behaviours of the code are worth spelling out:

- `variance_measures` guards the standard deviation and the average against
  short lists, but not `max(...) - min(...)` (analyze.py:13). `max` and `min`
  raise on an empty list, so a document with no sentence, or with only
  punctuation tokens, fails. The model returns `Err(EmptySequence)`, and the
  contract of `Reduction.Analysis` states exactly when that happens.
- The oscillation ratio counts the adjacent pairs whose values differ. In
  [3, 5, 3] both pairs differ, so its ratio is 1 (`Variance.OscillationExamples`).

## Model

| member | source | states |
|---|---|---|
| `Variance.Max` | analyze.py:13 | `max` of a non-empty list is an element of the list, and no element exceeds it |
| `Variance.Min` | analyze.py:13 | `min` of a non-empty list is an element of the list, and no element is below it |
| `Variance.VarianceMeasures` | analyze.py:10-24 | fails exactly on the empty list. Otherwise the range is the largest difference between two elements and is reached by some pair, so it equals max − min ≥ 0. The average is `Average`, which lies between min and max. The spread is `SampleVariance`, never negative. The ratio is `OscillationRatio`, in [0, 1]. Below two elements, spread and ratio are 0 |
| `Variance.Average` | analyze.py:12 | 0 for an empty list; otherwise the average times the number of values is their sum |
| `Variance.SampleVariance` | analyze.py:11 | the sample variance (stdev squared) is never negative |
| `Variance.AverageWithin` | analyze.py:12 | sum/len of a non-empty list lies within any bounds that hold for all its elements |
| `Variance.SampleVarianceZeroIffConstant` | analyze.py:11 | the standard deviation is 0 exactly when there are fewer than two values or all values are equal |
| `Variance.OscillationCount` | analyze.py:14-17 | the number of changes is 0 below two elements and at most n − 1 |
| `Variance.OscillationCountIsChangeCount` | analyze.py:17 | the count equals the number of indices i in [1, n) with S[i] ≠ S[i−1] |
| `Variance.OscillationRatio` | analyze.py:14-18 | the ratio lies in [0, 1]. It is 0 below two elements; otherwise ratio · (n − 1) = the change count |
| `Variance.OscillationCountReverse` | analyze.py:17 | reversing the list keeps its change count |
| `Variance.OscillationRatioReverse` | analyze.py:17-18 | reversing the list keeps its oscillation ratio |
| `Variance.SentenceLengthsExample` | analyze.py:10-24 | lengths [5, 8, 5] give average 6, sample variance 3, range 3 and ratio 1 |
| `Variance.OscillationExamples` | analyze.py:14-18 | [3, 3, 5] gives 1/2, [3, 5, 3] gives 1 and [3, 3, 3] gives 0 |
| `Frequency.Tabulate` | analyze.py:69-72 | `Counter` has exactly the labels that occur as keys, each mapped to its (positive) number of occurrences |
| `Frequency.TabulateIgnoresOrder` | analyze.py:69-72 | two label lists with the same multiset give the same table |
| `Frequency.TabulateTotal` | analyze.py:69-72 | the counts of a table, over all its keys, sum to the number of labels tabulated |
| `Frequency.TabulateExample` | analyze.py:69 | NOUN, VERB, NOUN gives {NOUN: 2, VERB: 1} |
| `Frequency.Keys` | analyze.py:72 | the `Counter` keys in iteration order: exactly the labels that occur, each once |
| `Frequency.KeysInFirstOccurrenceOrder` | analyze.py:72 | `Counter` keys come in the order of first occurrence in the input |
| `Frequency.Items` | analyze.py:125 | `items()` has one entry per `Counter` key, in key order, each carrying the count the table holds for that key |
| `Frequency.ItemsAreTable` | analyze.py:125 | an entry is among the items exactly when it is a (key, count) pair of the `Counter` table, and no key appears twice |
| `Frequency.Insert` | analyze.py:125 | stable insertion keeps every entry and adds exactly the new one |
| `Frequency.SortByCount` | analyze.py:125 | the sort behind `most_common` permutes the items |
| `Frequency.InsertRanked` | analyze.py:125 | inserting an entry first seen after all the others keeps the list ranked (count descending, ties by first occurrence) |
| `Frequency.SortByCountRanked` | analyze.py:125 | sorting items that come in first-occurrence order ranks them by count descending, with ties broken by first occurrence |
| `Frequency.SortedItems` | analyze.py:125 | the sorted items are ranked, carry true counts, and include every label that occurs |
| `Frequency.MostCommon` | analyze.py:125 | `most_common(k)` lists at most k entries (ranking and completeness are the next two rows) |
| `Frequency.MostCommonRanked` | analyze.py:125 | `most_common(k)` lists min(k, #distinct) distinct labels with their true counts, count descending, ties by first occurrence |
| `Frequency.MostCommonComplete` | analyze.py:125 | a label that `most_common(k)` leaves out means k entries are listed, and the last of them ranks before the missing label |
| `Frequency.MostCommonExample` | analyze.py:125 | run, run, jump, run, fast gives [(run, 3), (jump, 1), (fast, 1)] |
| `Prelude.Take` | analyze.py:106 | `s[:k]` is the prefix of length min(k, len(s)) |
| `Annotation.AllTokens` | analyze.py:48-58 | the tokens walked number exactly the sum of the sentence lengths |
| `Annotation.SentenceLengths` | analyze.py:50 | `sent_lengths` has one entry per sentence |
| `Annotation.SentenceLengthsAt` | analyze.py:50 | entry i of `sent_lengths` is the token count of sentence i, punctuation included |
| `Annotation.TokenLengths` | analyze.py:59-60 | `token_lengths` has at most one entry per token |
| `Annotation.ContentLemmas` | analyze.py:61-62 | `lemmas` has at most one entry per token |
| `Annotation.SentenceMorphs` | analyze.py:55-57 | a sentence's morph sublist has at most one feature list per token, and none of them is empty |
| `Annotation.PosLabels` | analyze.py:66 | `pos_list` has one entry per token |
| `Annotation.DepLabels` | analyze.py:67 | `dep_list` has one entry per token |
| `Annotation.VerbTenseLabels` | analyze.py:68 | `verb_tense_list` has at most one entry per token, and every entry starts with 'V' |
| `Annotation.TokenLengthsCount` | analyze.py:59-60 | the length of `token_lengths` plus the PUNCT count in `pos_list` is the token count |
| `Annotation.TokenLengthsMembers` | analyze.py:59-60 | a length is in `token_lengths` exactly when some non-PUNCT token has that length |
| `Annotation.ContentLemmasMembers` | analyze.py:61-62 | a lemma is in `lemmas` exactly when some token with a content part of speech has it |
| `Annotation.TokenLengthsKeepOrder` | analyze.py:59-60 | `token_lengths` keeps document order: a concatenation of tokens gives the concatenation of the lists |
| `Annotation.ContentLemmasKeepOrder` | analyze.py:61-62 | `lemmas` keeps document order: a concatenation of tokens gives the concatenation of the lists |
| `Annotation.VerbTenseLabelsKeepOrder` | analyze.py:68 | `verb_tense_list` keeps document order: a concatenation of tokens gives the concatenation of the lists |
| `Annotation.SentenceMorphsKeepOrder` | analyze.py:53-57 | a sentence's morph sublist keeps token order: a concatenation of tokens gives the concatenation of the sublists, so each token with features adds its list once, in its place |
| `Annotation.SentenceMorphsMembers` | analyze.py:55-57 | a sentence's morph sublist holds exactly the non-empty feature lists of its tokens, and never an empty one |
| `Annotation.Morphs` | analyze.py:52 | `morphs` has one sublist per sentence |
| `Annotation.MorphsAt` | analyze.py:52-57 | sublist i of `morphs` is the feature-list sublist of sentence i |
| `Annotation.LabelsAt` | analyze.py:66-67 | `pos_list` and `dep_list` hold, position by position, each token's part of speech and dependency label |
| `Annotation.VerbTenseLabelsMembers` | analyze.py:68 | a tag is in `verb_tense_list` exactly when it starts with 'V' and some token carries it |
| `Annotation.ClauseCount` | analyze.py:95 | a sentence has between 1 and (token count + 1) clauses |
| `Annotation.ClauseCountIsOnePlusClauseTokens` | analyze.py:92-95 | the clause count is 1 plus the number of tokens whose dependency is ccomp, xcomp, advcl, relcl or conj |
| `Annotation.ClauseCounts` | analyze.py:93-96 | `clauses_per_sent` has one entry per sentence |
| `Annotation.ClauseCountsAt` | analyze.py:93-96 | entry i of `clauses_per_sent` is the clause count of sentence i, and it is at least 1 |
| `Reduction.WalkSentence` | analyze.py:49-62 | one pass appends the sentence's tokens and its length, appends its morph sublist, and keeps `token_lengths` and `lemmas` in step with the tokens |
| `Reduction.WalkDocument` | analyze.py:48-62 | the nested walk yields all tokens in order, the sentence lengths, the non-punctuation token lengths, the content lemmas and the morph sublists |
| `Reduction.CountClauses` | analyze.py:93-96 | the clause loop yields one clause count per sentence, in order |
| `Reduction.Analysis` | analyze.py:37-127 | the analysis fails exactly when the document has no sentence or only punctuation tokens, the lists on which `max()` raises at lines 77-78 |
| `Reduction.Analyze` | analyze.py:37-127 | the imperative analysis gives the same prompt values, or the same error, as the specification `Analysis` |
| `Reduction.AnalysisExcerpt` | analyze.py:106 | the excerpt is the first min(500, length) characters of the input |
| `Reduction.AnalysisTopLemmas` | analyze.py:125 | the lemma list holds the five most frequent lemmas (all when fewer are distinct): min(5, #distinct) entries with their true counts, ranked count descending with ties in first-seen order, and every lemma left out ranks after the fifth one listed |
| `Reduction.AnalysisMorphSample` | analyze.py:126 | the morph sample has min(2, #sentences) sublists, sublist i being the morph lists of sentence i |
| `Reduction.AnalysisTables` | analyze.py:66-71 | the POS and dependency tables each count every token once. The verb-tense table holds only tags starting with 'V', with their counts |
| `Reduction.ClausesAtLeastOne` | analyze.py:95-98 | the average clause count is at least 1, and the range is below the largest count |

## Left out

- Variance.VarianceMeasures: holds the sample variance (the square of `stdev`) rather than `statistics.stdev`, because the square root of a rational has no exact `real` value; zero, non-negativity and the n < 2 guard carry over unchanged.
- Floating point: averages, variances and ratios are exact rationals, not IEEE doubles. `round(..., 2)`, `round(..., 3)` and the percentage formatting of `output_variance` are left out.
- The NLP pipeline (`spacy.load`, `nlp(input_text)`, `doc.sents`, `str(token.morph).split('|')`), because it is an external library. A document is given as a value, and each token's morph features come already split (an empty sequence when the morph string is empty).
- `output_variance` and every `print` call, because they are console presentation.
- Reading `prompt_template.txt` / `prompt_template_Chn.txt` and `str.format`, because they are file I/O and templating. `PromptFields` holds the values passed to the template, before rounding.
- Table key order: `posFreq`, `depFreq` and `verbTenseFreq` are maps, so they do not carry the key order in which `dict(...)` renders them. That order is first occurrence, and it is modelled separately by `Frequency.Keys` (`Frequency.KeysInFirstOccurrenceOrder`).
- The `tokens` list itself is modelled, but spaCy `Token` objects are reduced to the six attributes the analyser reads.
- backend/app.py (HTTP routing, language detection, the Gemini call), backend/database/models.py (persistence) and main.py (CLI file reading), because they are glue outside the statistics core.
