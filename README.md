# Symptom-to-disease predictor: the request rule, in Dafny

The demo takes a free-text symptom description, asks a pretrained
text-to-text model (`google/flan-t5-base`) for a disease name, filters the
model's output for degenerate repetition, and looks the prediction up in a
fixed table of "Thonglish" transliterations. This project models the part of
`app.py` that is logic rather than UI or model hosting, and proves what that
logic guarantees:

- `Text` gives the Python string built-ins the rule relies on, as functions:
  the whitespace test, `strip()`, `lower()`, `split()` and `list.count`.
- `Thonglish` holds the sixteen-entry `thonglish_dict` and the exact-match
  lookup with the fallback `"maruthuva vilakkam kedaiyadhu"`.
- `Predictor` holds the prompt builder, the normaliser, the repetition filter
  (`ExtractPrediction`) and `Handle`, one press of "Predict Disease". Each
  press ends in one of four outcomes: `ModelUnavailable`, `EmptyInput`,
  `InferenceFailed` or `Predicted(english, thonglish)`.
- `Scenarios` works four complete requests through `Handle`.

The model pipeline is a parameter of `Handle`, of type
`Option<string -> Option<string>>`. The outer `None` is a pipeline that
failed to load: `load_model` then returns `None`. The inner `None` is a
pipeline call that raised. `Handle` only ever applies the generator to
`BuildPrompt(symptoms)`, and it does so only after both guards pass.
`BlankSymptomsSkipModel` and `ModelAskedOnlyThePrompt` state this.

Two behaviours of `app.py` that are easy to miss:

- The prompt embeds the symptom text untrimmed. The guard at app.py:66 trims
  only to test for blankness, and the prompt at app.py:71 uses the raw text.
- Blank generated text is not turned into an empty prediction. `words[0]`
  raises, and the request ends on the error path of app.py:89-91. The model
  shows this as `Err(NoFirstWord)` and then `InferenceFailed(NoFirstWord)`.

## Model

| member | source | states |
|---|---|---|
| `Text.IsSpace` | app.py:66-77 | the code points for which Python's `str.isspace()` holds, which `strip()` and `split()` treat as whitespace |
| `Text.Trim` | app.py:74 | `strip()` gives a string with no whitespace at either end. The result is empty exactly when the input is all whitespace, and a string that is already stripped comes back unchanged |
| `Text.TrimDropsOnlyMargins` | app.py:66 | `strip()` keeps one contiguous piece of its input and drops only whitespace before and after it |
| `Text.Lower` | app.py:74 | `lower()` keeps the length, maps every character through the ASCII case mapping and leaves no ASCII capital in the result |
| `Text.LowerKeepsShape` | app.py:74 | lowercasing does not move whitespace, so `strip().lower()` is still stripped |
| `Text.LowerIdempotent` | app.py:74 | lowercasing twice gives the same string as lowercasing once |
| `Text.Words` | app.py:77 | `split()` returns only non-empty, whitespace-free words, and returns no words exactly when the text is all whitespace |
| `Text.WordsKeepNonSpace` | app.py:77 | joining the words of `split()` with no separator gives exactly the non-whitespace characters of the input, in order |
| `Text.WordsAfterBlank` | app.py:77 | whitespace in front of text that starts with a visible character does not change `split()`'s result |
| `Text.WordsOfWordThen` | app.py:77 | a whitespace-free word followed by whitespace or by the end of the text is split off as the first word, so words break exactly at whitespace runs |
| `Text.WordThenSpace` | app.py:77 | a word, one space and text starting with a visible character split into that word followed by the words of the rest |
| `Text.FirstWordIsPrefix` | app.py:77 | on stripped, non-blank text, `words[0]` is a prefix of the text and is followed by whitespace or by the end of the text |
| `Text.SingleWordIsWhole` | app.py:77 | stripped text that splits into one word is that word |
| `Text.WordWithoutSpace` | app.py:77 | a non-empty string with no whitespace splits into itself alone |
| `Text.Count` | app.py:78 | `words.count(w)` is the multiplicity of `w` in the list. It is zero exactly when `w` is absent and is at most the list's length |
| `Thonglish.Translate` | app.py:81 | a key gets its entry in the sixteen-entry `thonglish_dict` of app.py:23-40 as its transliteration. The fallback text comes back exactly when the name is not a key, with no normalisation of near misses |
| `Thonglish.FallbackIsNoValue` | app.py:23-40 | no configured transliteration equals the fallback text |
| `Thonglish.OnlyMultiWordKey` | app.py:23-40 | "rheumatoid arthritis" is the only key that contains whitespace |
| `Thonglish.MultiWordKeySplit` | app.py:35 | "rheumatoid arthritis" contains whitespace and splits into the two words "rheumatoid" and "arthritis" |
| `Predictor.BuildPrompt` | app.py:71 | the prompt is the prefix `"Predict the disease based on these symptoms: "` followed by the unmodified symptom text |
| `Predictor.BuildPromptInjective` | app.py:71 | two symptom texts give the same prompt only if they are equal, so surrounding whitespace reaches the model |
| `Predictor.Normalize` | app.py:74 | the normalised output is stripped and has no ASCII capitals. It is empty exactly when the generated text is all whitespace |
| `Predictor.NormalizeIdempotent` | app.py:74 | normalising normalised text changes nothing |
| `Predictor.ExtractPrediction` | app.py:74-78 | the filter fails (`words[0]` raises) exactly when the generated text is blank. Otherwise the prediction is a non-empty prefix of the normalised text, and is either that whole text or one whitespace-free word |
| `Predictor.RepeatedFirstWord` | app.py:77-78 | a first word that occurs more than twice is the prediction, and it contains no whitespace |
| `Predictor.UnrepeatedFirstWord` | app.py:77-78 | a first word that occurs at most twice leaves the whole trimmed, lowercased text as the prediction |
| `Predictor.SingleWordOutput` | app.py:77-78 | one-word output is returned as it is, and both branches of the filter agree on it |
| `Predictor.ExtractPredictionIdempotent` | app.py:74-78 | filtering a prediction again gives the same prediction |
| `Predictor.MultiWordPredictionIsWhole` | app.py:78 | a prediction that contains whitespace always comes from the whole-text branch |
| `Predictor.RheumatoidArthritisOnlyWhole` | app.py:78-81 | the prediction "rheumatoid arthritis" arises only from output that normalises to exactly that text |
| `Predictor.KeyOutputPredicted` | app.py:74-81 | output that normalises to a key of the table is predicted as that key |
| `Predictor.Handle` | app.py:63-91 | the model-unavailable warning comes exactly when no model is loaded, for every input. With a model, the empty-input warning comes exactly for blank symptoms. A pipeline call that raises ends the request with `InferenceFailed(GenerationError)`. Generation and its failures happen only after both guards, and a shown Thonglish label is the translation of the shown English one |
| `Predictor.BlankSymptomsSkipModel` | app.py:66-67 | blank symptoms give the same warning whatever the model would generate |
| `Predictor.ModelAskedOnlyThePrompt` | app.py:71-74 | the outcome depends on the model only through its output for `BuildPrompt(symptoms)` |
| `Predictor.HandleSucceeds` | app.py:68-88 | a prediction is shown exactly when a model is loaded, the symptoms are not blank, generation does not raise and its text is not blank. The labels shown are then the filtered prediction and its translation |
| `Predictor.BlankGenerationFails` | app.py:89-91 | blank generated text ends the request on the error path, and no prediction is shown |
| `Predictor.KeyOutputTranslated` | app.py:74-81 | model output that normalises to a key is shown as that key with its configured transliteration |
| `Scenarios.RepeatedColdIsKulir` | app.py:74-81 | output "cold cold cold cold" is predicted as "cold" and shown as "kulir" |
| `Scenarios.VariedOutputFallsBack` | app.py:74-81 | output "migraine headache pain" is kept whole, misses the table and gets the fallback |
| `Scenarios.WhitespaceSymptomsWarn` | app.py:66-67 | whitespace-only symptoms give the empty-input warning |
| `Scenarios.NoModelWarns` | app.py:64-65 | without a model, every request gives the model-unavailable warning |

## Left out

- Loading the model and tokenizer through `transformers` (app.py:10-20) is a
  foreign call. It appears only as the presence or absence of a generator.
- `@st.cache_resource` memoisation of the loaded pipeline (app.py:9) is
  framework caching with no effect on the rule.
- All Streamlit rendering is UI: page setup, title, text area, button,
  `st.warning`, `st.error`, `st.success` and `st.markdown` (app.py:18-19,
  47-56, 63-67, 84-91). An outcome names the message that would be shown.
  `Handle` models what happens once the button has been pressed.
- `traceback.format_exc()` and the start-up `print` (app.py:19, 41, 91) are
  diagnostics and I/O.
- `.title()` display casing (app.py:86) only changes how the prediction is
  shown. `Predicted.english` is the prediction before that casing.
- `max_new_tokens=50` and the `[0]["generated_text"]` indexing (app.py:74)
  belong to the pipeline call. Together they are the opaque generator.
- Text.Lower: maps only ASCII `A`-`Z`. Python's `lower()` also applies
  Unicode case mappings, some of which change the length of a string, and
  those are not modelled.
- The whitespace test follows Python's `str.isspace()`, which `strip()` and
  `split()` both use. It is written as a fixed list of code points rather
  than derived from Unicode's character database.
