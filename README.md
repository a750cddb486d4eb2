# Spam/ham prediction service: a Dafny model

The repository is a small Flask front end to a pre-trained spam classifier
(`app.py`). At startup it picks the serialized model file, preferring
`Model/spam_classifier.joblib` and falling back to `Model/spam_classifier.pkl`.
It fails naming both paths when neither exists. For every `POST /api/predict` it
runs `_predict_one` on the payload's `message`:

1. a missing or null message becomes `""`, and the text is stripped with `str.strip()`;
2. an empty text is rejected with "Message is empty.";
3. a text of more than 5000 code points is rejected with "Message too long (max 5000 characters).";
4. otherwise the model classifies the stripped text, and `predict_proba` is asked for the spam probability if the model has it;
5. the reply is a success or an error record, sent with status 200 or 400.

This project models that logic as pure Dafny functions, with lemmas about them:

- `wrappers.dfy`, module `Wrappers`: the `Option` type.
- `text.dfy`, module `Text`: Python's `str.strip()` over `seq<char>`. `IsSpace` is the set of code points that `str.isspace()` accepts, written out. `Strip` is proved to satisfy a declarative definition, `IsStripOf`, and to be the only string that does.
- `prediction_service.dfy`, module `PredictionService`: `_predict_one` as `PredictOne`, the result dictionary as `ToJson`, and the handler's status rule as `ApiPredict`. The model is a `Predictor` value. Its `predict` is a function parameter. Its `predictProba` is an `Option` of a function whose outcome is `Raised` or `Returned(row)`.
- `model_loader.dfy`, module `ModelLoader`: the path choice of `load_model`. Whether a file exists is a function parameter.

Two facts about the success record, as the code has them:

- The class field is `prediction`.
- The class is whatever integer the classifier returns. Every class other than 1 is labelled `HAM`.

## Model

| member | source | states |
|---|---|---|
| Text.IsSpaceAscii | app.py:40 | on ASCII, the whitespace that `str.strip()` removes is exactly space, tab, line feed, vertical tab, form feed, carriage return and the four separators U+001C to U+001F; no code point above U+3000 is whitespace |
| Text.LeadingSpace | app.py:40 | the count of leading code points is at most the length, all of them are whitespace, and the next one is not |
| Text.TrailingSpace | app.py:40 | the count of trailing code points is at most the length, all of them are whitespace, and the one before them is not |
| Text.Strip | app.py:40 | the result is a slice of the input, no longer than it, with only whitespace cut off at both ends and no whitespace left at either end (`IsStripOf`) |
| Text.StripsToUnique | app.py:40 | two slices that both strip the same string are equal |
| Text.StripCharacterised | app.py:40 | a string satisfies the declarative strip definition exactly when it equals `Strip`'s result (both directions) |
| Text.StripEmptyIff | app.py:40-41 | the stripped text is empty exactly when every code point of the input is whitespace |
| Text.StripUnpadded | app.py:40 | a string with no whitespace at either end is left unchanged |
| Text.StripIdempotent | app.py:40 | stripping twice equals stripping once |
| Text.StripIgnoresPadding | app.py:40 | whitespace added before and after a string does not change its strip |
| PredictionService.MessageText | app.py:40 | a missing message becomes the empty string; a present one is kept as it is |
| PredictionService.SpamProbability | app.py:57-64 | the probability is present exactly when the capability exists, did not raise, and returned a row with an index 1; it is then that row's element 1 |
| PredictionService.LabelOf | app.py:68 | the label is SPAM or HAM, and SPAM exactly when the class is 1 |
| PredictionService.PredictOne | app.py:39-76 | rejects with "Message is empty." exactly when the stripped text is empty; rejects with the too-long error exactly when it is longer than 5000; succeeds exactly for 1 to 5000 code points; on success the class is the classifier's answer on the stripped text, the label is SPAM iff the class is 1, the probability comes from the optional capability, and latency is non-negative for a monotonic clock |
| PredictionService.ToJson | app.py:42-76 | an error record has exactly the keys ok and error; a success record has exactly ok, label, prediction, spam_probability and latency_ms; ok is true only on success; every field holds the record's value, and spam_probability is null when the record has no probability |
| PredictionService.StatusOf | app.py:89 | the status is 200 or 400; it is 400 without an ok key, and for a boolean ok it is 200 exactly when ok is true |
| PredictionService.ApiPredict | app.py:84-90 | the body is the record of `PredictOne`; the status is 200 exactly when ok is true and 400 exactly when it is false |
| PredictionService.MissingMessageIsEmpty | app.py:40-45 | a missing message behaves as the empty one and yields the error body with status 400 |
| PredictionService.WhitespaceOnlyIsEmpty | app.py:40-51 | an all-whitespace message gets the empty error, never the too-long one, whatever its length |
| PredictionService.EmptyIffAllSpace | app.py:40-45 | the empty error is returned exactly for messages made only of whitespace (both directions) |
| PredictionService.OverLongMessageRejected | app.py:47-51 | 5001 copies of 'a' are rejected as too long, with status 400 |
| PredictionService.PaddingIsIgnored | app.py:40-55 | whitespace around a message does not change the result, so the classifier sees only the stripped text |
| PredictionService.StrippedMessageSameResult | app.py:40-55 | sending the stripped text gives the same result as sending the original message |
| PredictionService.DeterministicFields | app.py:53-76 | acceptance, label and class do not depend on the probability capability (absent, raising or returning) nor on the clock readings |
| ModelLoader.Join | app.py:12-15 | a joined path ends with the file name |
| ModelLoader.JoblibPath | app.py:14 | the path ends with `spam_classifier.joblib`; for a base directory without a trailing separator it is `<base>/Model/spam_classifier.joblib` |
| ModelLoader.PklPath | app.py:15 | the path ends with `spam_classifier.pkl`; for a base directory without a trailing separator it is `<base>/Model/spam_classifier.pkl` |
| ModelLoader.CandidatePathsDiffer | app.py:14-15 | the `.joblib` and `.pkl` candidate paths are different |
| ModelLoader.NotFoundMessage | app.py:27-30 | the not-found message contains both candidate paths |
| ModelLoader.LocateArtifact | app.py:18-30 | a chosen path exists and is one of the two candidates; `.joblib` is chosen whenever it exists; `.pkl` is chosen when only it exists; the result is not-found exactly when neither exists, with a message naming both |
| ModelLoader.PklOnlyAsFallback | app.py:20-25 | the `.pkl` path is chosen exactly when the `.joblib` path is missing and the `.pkl` path exists |

## Left out

- Flask routing, `render_template` for `GET /`, `jsonify`, JSON parsing of the request body and the 1 MiB `MAX_CONTENT_LENGTH` cap are framework plumbing. The payload's `message` enters as an `Option<string>`. `None` stands for every value that `(message or "")` turns into `""`: a missing key, a null value, an unparsable body, and the falsy non-string values `false`, `0`, `[]` and `{}`. All of these get "Message is empty." with status 400.
- A truthy non-string `message`, on which `.strip()` would raise, is not modelled.
- A truthy JSON body that is not an object (such as `[1]`) has no `.get`, so the handler raises before `_predict_one` runs. This is not modelled.
- A lone surrogate code point is a valid character of a Python `str` but not a Dafny `char`. Messages containing one are not modelled.
- `joblib.load` and the model-level `MODEL = load_model()` are foreign library calls and process startup. `LocateArtifact` gives the path that would be loaded, or the error that aborts startup.
- `BASE_DIR` comes from resolving the script's own path on the filesystem. It is a parameter (`baseDir`), taken to be that resolved absolute path. `Join` matches pathlib only for such a normalised directory: for `"."` pathlib gives `Model`, while `Join` gives `./Model`.
- The scikit-learn `predict` and `predict_proba` internals are foreign calls. A `predict` that raises, or a class that `int()` cannot convert, would propagate out of the handler; the model's classifier always returns an integer.
- Floating point: the probability and the clock readings are `real`. `float(proba[1])` is taken as the identity.
- PredictOne: `latency_ms` is `(stop - start) * 1000` without the `round(..., 2)` of the source, because that rounding is float arithmetic.
- SpamProbability: does not state that the probability lies in [0, 1], because that is a promise of the external model, not of this code.
- The `app.run` development-server entry point is not modelled.
