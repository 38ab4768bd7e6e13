# Span conversion for a very simple spaCy NER script

The script trains a spaCy named-entity recogniser on a handful of sentences
about cats. The only logic it owns is `create_annotations`. That function
turns training data in an "easy format" into the format spaCy's training loop
expects. The easy format is a text plus one tag per word, where `"O"` means
"no entity". The output is the text plus a list of character-offset entity
spans `[start, end, label]`.

For each example, `create_annotations` does the following:

- It splits the text on whitespace.
- It walks the tags, keeping the list `consumed` of words already seen.
- For every tag other than `"O"`, it emits a span. The span starts at
  `len(" ".join(consumed)) + 1` and ends that many characters plus the
  word's length.
- If the example has more tags than words, `words[i]` raises `IndexError`.
  That error ends the whole conversion.

The project has three modules:

- `PyStr` (`pystr.dfy`) models the two Python string built-ins the
  converter relies on.
  - `Split` is `str.split()` with no arguments. It splits on runs of the
    characters for which `str.isspace()` holds, and drops leading and
    trailing whitespace.
  - `JoinWords` is `" ".join`.
  - The lemmas prove that `Split` cuts at every whitespace character and
    keeps every non-whitespace character, in order. They also prove that
    splitting the join of words gives those words back.
- `SpanConverter` (`span_converter.dfy`) holds the converter itself.
  - `CreateAnnotations` is a method with the source's outer loop.
    `TagsToEntities` is a method with the inner loop. It carries the
    invariant `consumed == words[..i]`.
  - Both are proved against specification functions: `Annotations`,
    `AnnotateExample` and `Entities`.
  - Lemmas state what those functions promise. There is one entity per
    tag other than `"O"`, labelled with that tag and as long as its word.
    Spans are ascending and never overlap. Every span after the first
    word cuts its word out of the single-space join. A tagged first word
    starts at 1, one character too far. The whole conversion fails exactly
    when one example has more tags than words.
- `Dataset` (`dataset.dfy`) proves the conversion of the script's nine
  training examples and of the docstring example. It also proves a few
  edge cases: a tagged first word, too many tags, and fewer tags than
  words.

Three behaviours of the code are kept as they are:

- The code checks no lengths. It fails only when there are more tags than
  words, through the `IndexError` of `words[i]`. With fewer tags than words
  it converts without complaint, and so does the model (`Dataset.FewerTags`).
- The offsets are computed against the single-space join of the words, not
  against the original text. For a word after the first, the span matches
  the text when the text in front of that word is the words before it,
  joined by single spaces and followed by one space. A tagged first word
  starts one character too far (below). The model proves the match for
  texts that are exactly the single-space join of their words
  (`SpansSelectWords`, `EntityCoversWord`).
- The off-by-one start of a tagged first word is the code's behaviour. It is
  kept and proved (`FirstWordOffByOne`), not corrected.

## Model

| member | source | states |
|---|---|---|
| SpanConverter.CreateAnnotations | 0_1_spacy_ner_very_simple.py:11-42 | converting a list of examples gives `Annotations(inputs)`: the per-example annotations in input order, or the `IndexError` of the first example that has more tags than words |
| SpanConverter.TagsToEntities | 0_1_spacy_ner_very_simple.py:27-36 | the inner loop succeeds exactly when there are no more tags than words, and then yields `Entities(words, tags)`; otherwise it stops at tag `|words|` with the entities of the tags before it; `consumed` is `words[..i]` throughout |
| SpanConverter.EntitiesSpec | 0_1_spacy_ner_very_simple.py:29-35 | there is one entity per tag other than `"O"`, in tag-position order; each is labelled with its tag, ends at start plus the length of its word, and starts at the sum of the lengths of the words before it plus their count, plus one for the first word |
| SpanConverter.TaggedPositions | 0_1_spacy_ner_very_simple.py:29-30 | the positions whose tag is not `"O"`: each tagged position appears, in strictly increasing order, and nothing else |
| SpanConverter.AllOutsideNoEntities | 0_1_spacy_ner_very_simple.py:30-32 | tags that are all `"O"` give no entities |
| SpanConverter.EntitiesAscending | 0_1_spacy_ner_very_simple.py:29-36 | each span ends at or before the start of every later span |
| SpanConverter.EntityCoversWord | 0_1_spacy_ner_very_simple.py:33-34 | a span on a word at position `i >= 1` lies inside `" ".join(words)` and slices out exactly `words[i]` |
| SpanConverter.FirstWordOffByOne | 0_1_spacy_ner_very_simple.py:33 | a tagged first word gets the span `[1, 1 + len(word)]`, although `" ".join(words)` starts with that word, at offset 0 |
| SpanConverter.ExtraWordsIgnored | 0_1_spacy_ner_very_simple.py:29-36 | words after the last tag do not change the entities |
| SpanConverter.ErrorPersists | 0_1_spacy_ner_very_simple.py:20-40 | once a prefix of the examples fails, the whole conversion fails with that error, so the method may return at once |
| SpanConverter.AnnotationsOkIff | 0_1_spacy_ner_very_simple.py:20-40 | the conversion succeeds exactly when every example converts |
| SpanConverter.AnnotationsInOrder | 0_1_spacy_ner_very_simple.py:20-21 | a successful conversion holds one annotation per example, in input order; each is that example's conversion and keeps its text unchanged |
| SpanConverter.AnnotationsOfExamples | 0_1_spacy_ner_very_simple.py:38-40 | when every example converts, the result is exactly those annotations in input order |
| SpanConverter.AnnotationsFirstError | 0_1_spacy_ner_very_simple.py:20-36 | a failed conversion reports an example that fails with that very error, and every example before it converts |
| SpanConverter.SpansSelectWords | 0_1_spacy_ner_very_simple.py:25-35 | for a text that is its words joined by single spaces: it converts exactly when there are no more tags than words, otherwise it fails with the `IndexError` at position `len(words)`; the text is kept, and every span except one on the first word slices its word out of the text |
| SpanConverter.ConvertJoined | 0_1_spacy_ner_very_simple.py:25-36 | a text that is its words joined by single spaces converts to the entities of those words |
| PyStr.Split | 0_1_spacy_ner_very_simple.py:25 | `str.split()` yields only non-empty words without whitespace |
| PyStr.SplitKeepsNonSpace | 0_1_spacy_ner_very_simple.py:25 | the words of `str.split()`, concatenated, are exactly the non-whitespace characters of the text |
| PyStr.SplitAround | 0_1_spacy_ner_very_simple.py:25 | `str.split()` cuts at every whitespace character: splitting `a + c + b` for a whitespace `c` gives the words of `a` followed by the words of `b`, so runs of whitespace and leading or trailing whitespace yield no word |
| PyStr.SplitJoin | 0_1_spacy_ner_very_simple.py:25 | splitting the single-space join of words gives those words back |
| PyStr.JoinWords | 0_1_spacy_ner_very_simple.py:33 | the single-space join is as long as its words together plus one space between each two |
| PyStr.JoinWordAt | 0_1_spacy_ner_very_simple.py:33 | word `i >= 1` stands in the join right after the join of the words before it and one space |
| Dataset.DocstringExample | 0_1_spacy_ner_very_simple.py:13-16 | `[("the cat is fluffy", ["O", "KATZ", "O", "O"])]` converts to the single span `[4, 7, "KATZ"]` |
| Dataset.TrainingData | 0_1_spacy_ner_very_simple.py:49-60 | the script's nine training examples convert, to the spans listed in `TrainData` |
| Dataset.InputTexts | 0_1_spacy_ner_very_simple.py:49-57 | the texts of `Inputs` are the strings of the script's `inputs` |
| Dataset.TrainingExample3 | 0_1_spacy_ner_very_simple.py:52 | the longest training example converts to the span `[34, 37, "KATZ"]` |
| Dataset.TrainingExample2 | 0_1_spacy_ner_very_simple.py:51 | the example with two tagged words converts to `[5, 8, "KATZ"]` and `[16, 19, "KATZ"]` |
| Dataset.FirstWordTagged | 0_1_spacy_ner_very_simple.py:33 | "cat is fluffy" with its first word tagged converts to the span `[1, 4, "KATZ"]` |
| Dataset.FirstWordText | 0_1_spacy_ner_very_simple.py:33 | that span cuts "at " out of "cat is fluffy" |
| Dataset.TooManyTags | 0_1_spacy_ner_very_simple.py:29-34 | "the cat" with three tags fails with the `IndexError` at position 2 |
| Dataset.SecondExampleFails | 0_1_spacy_ner_very_simple.py:20-40 | an `IndexError` in the second example ends a conversion whose first example converts |
| Dataset.FewerTags | 0_1_spacy_ner_very_simple.py:29-36 | "the cat is fluffy" with only two tags converts, with the span `[4, 7, "KATZ"]` |

## Left out

- Everything from line 66 on is not part of this model: the spaCy blank model, the `ner` pipe, `add_label`, `disable_pipes`, `begin_training` and `nlp.update`. That code lives in the library, not in the repository.
- The `decaying` and `compounding` schedules are not modelled. They are floating-point code inside spaCy.
- `shuffle` and `minibatch` are not modelled. They are randomness and a library call.
- The printing of losses and predictions is left out, and so is the comment that records sample predictions. Both are I/O.
- The unused `json` import and `char_len_sequence` (line 24) are left out. Neither affects the result.
- Python raising `IndexError` is modelled as the result `Err(IndexError(example, position))`. The example number and the tag position are added by the model to name where the exception arises. The partial list of annotations is lost with the exception in Python as in the model.
- `str.isspace()` is modelled by listing its characters explicitly, as of Python 3: TAB to CR, FS to US, SPACE, NEL, NO-BREAK SPACE, the Unicode space separators (category Zs), U+2028 LINE SEPARATOR and U+2029 PARAGRAPH SEPARATOR. Unicode tables beyond that list are not modelled.
- Each example's tags and entities are Python lists. The model uses immutable sequences, so the in-place `append` calls become sequence concatenation. Aliasing of the input lists does not arise, because the function never mutates its inputs.
- The loop over the tags is the separate method `TagsToEntities`. `CreateAnnotations` calls it once per example, in place of the source's nested loop.
