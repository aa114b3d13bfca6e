# CURA-AI core, modelled in Dafny

CURA-AI is a symptom-to-disease predictor. It is a small Flask service in front of a trained neural
network. This project models the service's hand-written logic and proves properties of it. The ML
runtime, CSV files and web framework are not modelled.

- **Data preparation** (`utils_data.py`), module `UtilsData`:
  - `load_and_clean` drops the stray `Unnamed: 133` training column, then aligns the testing table
    to the training features (reindex with zero fill, then put `prognosis` back);
  - `get_symptom_list` is the feature schema;
  - `generate_doctor_mapping` is the case-insensitive, first-match-wins keyword heuristic that
    suggests a specialist for each disease.
  - Tables are modelled as a column sequence, a map from column name to cells, and a row count.
- **Prediction and chat** (`app.py` and `api/app.py`), module `App`:
  - `predict_disease_from_symptoms` one-hot encodes the symptoms, ranks the classifier's scores,
    keeps the best three, and looks up a doctor with `"General Physician"` as the default;
  - `chat` tokenises every entry of the request, answers each with an error or a prediction, and
    collapses a single response.
  - The live code of `app.py:51-195` and `api/app.py:157-228` is the same, so one model serves both.
    Each row below cites one of the two copies.
- **Dummy login** (`api/app.py`, also `app.py:44-85`), module `Auth`: a `Session` class holding the
  optional current user, and `Login` / `Logout` against the fixed `USERS` table.
- **Command-line predictor** (`testing1.py`), module `Testing1`: `predict_disease` builds the vector
  with a warning per unknown symptom and returns the argmax class, or the error `model.predict`
  raises when the vector is not as wide as the network's input.
- Supporting modules:
  - `Strings` models the Python string operations used: `str.strip` with Python's whitespace set,
    `split`, `replace`, ASCII `lower`, and substring `in`;
  - `Seqs` models `list.index` and column removal;
  - `Encoding` holds the one-hot vector;
  - `Wrappers` holds `Option` and `Result`.

Modelling choices:
- The classifier (`model.predict`) is an opaque function from the input vector to one integer score
  per class. In `testing1.py` the network also has the input width it was trained with (`1.py:63`),
  and a vector of another width is refused with an error outcome.
- The label encoder is the sequence `classes`.
- numpy's `argsort` is an opaque function constrained to return an ascending permutation. Its tie
  order is left open.
- Printing in `testing1.py` becomes a returned list of warning lines.
- A pandas `KeyError` becomes a `Failure(KeyError(column))` result.

The documentation and the code agree on everything the model covers. The one discrepancy found is between two scripts, `testing1.py` and `1.py`, and is listed under "## Findings".

## Model

| member | source | states |
|---|---|---|
| Seqs.IndexOf | app.py:55 | `symptom_columns.index(s)`: the first position holding the element |
| Seqs.WithoutSplice | utils_data.py:34 | removing a column from distinct columns keeps every other column in the original order (prefix before it and suffix after it) |
| Strings.StripLeftSpec | app.py:178 | the left strip removes only leading whitespace, keeps a suffix of the input, and what it keeps does not start with whitespace |
| Strings.StripRightSpec | app.py:178 | the right strip removes only trailing whitespace, keeps a prefix of the input, and what it keeps does not end with whitespace |
| Strings.StripSpec | app.py:178 | `str.strip()`: empty exactly when the piece is all whitespace; otherwise neither end is whitespace and every character comes from the piece |
| Strings.Split | app.py:178 | `entry.split(",")`: at least one piece, none containing the separator |
| Strings.JoinSplit | app.py:178 | splitting loses nothing: joining the pieces with the separator gives the entry back |
| Strings.SplitJoin | app.py:178 | splitting the join of separator-free pieces gives the pieces back |
| Strings.Replace | app.py:178 | `replace(" ", "_")`: same length, each target character replaced and every other character kept |
| Strings.ContainsAt | utils_data.py:44 | `k in ld` holds exactly when k occurs at some position of ld |
| UtilsData.GetSymptomList | utils_data.py:33-34 | fails with KeyError("prognosis") exactly when there is no prognosis column; otherwise every other column, in original order |
| UtilsData.DropColumnWellFormed | utils_data.py:20 | dropping an existing column keeps the table well formed |
| UtilsData.CleanTrainWellFormed | utils_data.py:19-20 | the cleaned training table is well formed, keeps prognosis exactly when the raw one has it, and has no "Unnamed: 133" |
| UtilsData.LoadAndCleanFails | utils_data.py:23-24 | load_and_clean fails exactly when the training table or the testing table lacks prognosis, and the error is KeyError("prognosis") |
| UtilsData.LoadAndCleanTrain | utils_data.py:19-20 | "Unnamed: 133" is dropped exactly when present; otherwise the training table is unchanged; no other column is removed, order and cells are kept |
| UtilsData.ReindexColumns | utils_data.py:25 | reindexing yields exactly the requested columns; a column the table lacks is all zeros, a present one keeps its cells |
| UtilsData.SetNewColumn | utils_data.py:29 | assigning a new column appends it last with the given values and leaves the other columns unchanged |
| UtilsData.AlignTestColumns | utils_data.py:24-29 | the aligned table is the features in order followed by prognosis; missing features are zeros, present ones and prognosis are carried over row for row |
| UtilsData.LoadAndCleanShape | utils_data.py:9-31 | with prognosis in both tables the load succeeds and returns the cleaned training table and the testing table aligned to its symptom list |
| UtilsData.LoadAndCleanTest | utils_data.py:23-29 | test columns are exactly the training features then prognosis; test-only columns disappear; same rows; zero fill; prognosis carried over |
| UtilsData.FirstMatch | utils_data.py:44-63 | the index of a matching rule with no earlier rule matching, or the number of rules when none matches |
| UtilsData.SpecialistNames | utils_data.py:44-65 | every suggestion is one of the ten rule specialists or "General Physician" |
| UtilsData.RulesSpecialtiesDistinct | utils_data.py:44-63 | the ten branches name ten different specialists, none of them the fallback |
| UtilsData.SpecialtyFirstMatchWins | utils_data.py:44-63 | rule k decides exactly when one of its keywords occurs in the lowered name and no earlier rule's does |
| UtilsData.SpecialtyFallback | utils_data.py:64-65 | "General Physician" exactly when no keyword of any rule occurs in the lowered name |
| UtilsData.SpecialtyCaseInsensitive | utils_data.py:43 | the suggestion depends only on the lowered name |
| UtilsData.KeywordsLowerCase | utils_data.py:44-63 | every keyword is its own lower case |
| UtilsData.SkinIsDermatology | utils_data.py:44-45 | a name containing "skin" goes to Dermatologist whatever later keywords it contains |
| UtilsData.PneumoniaIsPulmonology | utils_data.py:50-55 | "Pneumonia" contains the Neurologist keyword "neu" but goes to Pulmonologist |
| UtilsData.GenerateDoctorMapping | utils_data.py:36-66 | the keys are exactly the given names, unmodified; each value is the heuristic's suggestion for that name |
| Encoding.OneHot | app.py:52 | the vector has one position per schema column |
| Encoding.OneHotDependsOnKnownNames | app.py:52-55 | only which schema columns are named matters; order, duplicates and unknown tokens do not change the vector |
| Encoding.OneHotUnknown | testing1.py:22-26 | an unknown symptom leaves the vector unchanged |
| Encoding.OneHotNoneKnown | testing1.py:20-24 | with no known symptom the vector is all zeros |
| App.TopThreeOfArgsort | app.py:58 | the last three argsort indices, reversed, are the min(3, n) best classes, distinct, best first, each at least every unchosen score |
| App.EncodeSymptoms | app.py:52-55 | the array loop builds exactly the one-hot vector: position i is 1 iff schema[i] is among the symptoms |
| App.PredictRanked | app.py:57-65 | min(3, classes) results, disease and score of the top classes, non-increasing confidence, every chosen score at least every unchosen one, doctor from the mapping or "General Physician" |
| App.PredictWithGeneratedMapping | app.py:42 | with the generated mapping, every doctor is the heuristic's suggestion for the predicted disease |
| App.PredictDiseaseFromSymptoms | app.py:51-66 | the results loop returns the ranked predictions, min(3, classes) of them, in non-increasing confidence |
| App.NormalizeToken | app.py:178 | a stripped, non-blank, comma-free piece with spaces replaced is a token: non-empty, no space or comma, no whitespace at either end |
| App.Tokens | app.py:178 | the comprehension keeps at most one token per piece, each a token as above |
| App.Tokenize | app.py:178 | every token of an entry is non-empty, has no comma or space, and is not whitespace at either end |
| App.TokensEmpty | app.py:178 | no tokens exactly when every piece is blank |
| App.SplitAllBlank | app.py:178 | all pieces are blank exactly when every character is a comma or whitespace |
| App.TokenizeEmpty | app.py:178-182 | an entry has no tokens exactly when it is only commas and whitespace |
| App.CommasAndSpacesOnly | app.py:178-182 | " , ," has no tokens |
| App.KnownSymptoms | app.py:184 | exactly the tokens that are schema columns are kept, and nothing else |
| App.EntryResponseCases | app.py:178-191 | "No symptoms provided" iff no tokens; "No valid symptoms recognized" iff tokens but none known; otherwise a prediction on a non-empty list of schema members; the input is always the entry |
| App.CollapseUnwrap | app.py:193-195 | exactly one response is sent bare, any other number wrapped, and no response is lost |
| App.AnswerEntry | app.py:177-191 | the loop body answers an entry with exactly the response EntryResponseCases characterises: the no-symptoms error, the no-valid-symptoms error, or the prediction on its known tokens |
| App.Chat | api/app.py:193-228 | a message that is neither a string nor a list is refused; otherwise the loop answers every entry in order through AnswerEntry and the reply collapses them, exactly as the reply function says |
| App.ChatReplyShape | api/app.py:199-222 | 400 "Invalid input format" exactly for a non-string non-list message; otherwise one response per entry, in order, each carrying its entry; an error in one entry does not stop later ones; bare exactly for one entry |
| App.ChatStringIsSingletonList | api/app.py:199-202 | a string s and the list [s] get the same reply, the bare response for s |
| App.ChatEmptyList | api/app.py:206-228 | an empty list gets {"responses": []} |
| App.ChatMissingMessage | app.py:167 | a missing message counts as "" and gets a bare "No symptoms provided" |
| Auth.AcceptsExactly | api/app.py:151-154 | exactly the two hard-coded e-mail/password pairs are accepted |
| Auth.AcceptsNeedsBoth | api/app.py:182-183 | a login with no e-mail (whatever the password) or with no password (whatever the e-mail, including a known one) is refused, and so are a known e-mail with the wrong password and an unknown e-mail with a known password |
| Auth.Session.constructor | api/app.py:184-190 | a session starts with no user: Flask hands the handlers an empty session, which no source line creates; line 184 is the only place that sets the user and line 190 clears it |
| Auth.Session.Login | api/app.py:179-186 | success iff the e-mail is a key and its password matches; then the user is the e-mail and status 200; otherwise 401, "Invalid credentials", session unchanged |
| Auth.Session.Logout | api/app.py:188-191 | always succeeds with "Logged out" and leaves no user, whether or not one was logged in |
| Testing1.Schema | testing1.py:14 | the columns are exactly the raw training columns other than prognosis |
| Testing1.StrayColumnKeptInTestingSchema | testing1.py:14 | a raw "Unnamed: 133" stays a vector position here, while the service's schema after load_and_clean omits it |
| Testing1.ArgMax | testing1.py:29 | np.argmax: a position of a largest score, and the first one among ties |
| Testing1.WarningsOne | testing1.py:23-26 | a symptom warns exactly when it is not a schema column |
| Testing1.WarningsAppend | testing1.py:22-26 | warnings of a concatenation are the warnings of its parts, in order: one per unknown occurrence |
| Testing1.WarningsNone | testing1.py:22-26 | no warning exactly when every symptom is known; never more warnings than symptoms |
| Testing1.DiagnoseIsBest | testing1.py:28-30 | the result is the class of a largest score, the first among ties |
| Testing1.DiagnoseAllUnknown | testing1.py:28 | all-unknown or empty input still runs the classifier, on the all-zero vector, with one warning per symptom |
| Testing1.PredictDisease | testing1.py:19-30 | the loop builds the one-hot vector and the warnings in order; the outcome is Run's: the argmax class when the vector has the network's width, otherwise the width error, with the warnings printed either way |
| Testing1.Run | testing1.py:28-30 | model.predict yields a disease exactly when the vector's width is the trained width, and that disease is the class of a largest score, the first one among equals (np.argmax); otherwise it reports both widths |
| Testing1.TestingSchemaWidth | testing1.py:14 | testing1's vector is as wide as the trained network's input (1.py:28-33, 63) exactly when the training table has no "Unnamed: 133"; with one it is one wider |
| Testing1.StrayColumnBreaksTesting | testing1.py:14-28 | with "Unnamed: 133" in the training table every call fails with the width error whatever the symptoms; without it every call yields a disease |
| Testing1.CleanedSchemaFitsNetwork | testing1.py:14 | the schema taken from the cleaned training table never holds the stray column and always gets a disease |

## Left out

- Training and the network (`1.py`), TensorFlow and joblib loading: foreign numeric libraries. The classifier and the label encoder are parameters. Of `1.py`, only the input width used at line 63 is modelled, as `Testing1.TrainedWidth`; it comes from the columns left once lines 28-33 have dropped "Unnamed: 133" and "prognosis".
- App.PredictRanked: confidences are the integer scores. The float `(p * 100).round(2)` of app.py:60 is not modelled, because scores are opaque integers here.
- App.TopThreeOfArgsort: among equal scores the order is not fixed. numpy's default sort is not stable, so the model specifies only score order.
- CSV reads (utils_data.py:15-16, testing1.py:13) and the mapping CSV load (app.py:38-40): file I/O. The tables and the doctor mapping are inputs.
- `generate_mapping.py`, `server.js`, and the Flask routing, `jsonify`, templates, CORS and secret key: plumbing with no logic of its own. The `generate_doctor_mapping` that `app.py` imports from `generate_mapping.py` is modelled from its definition in `utils_data.py`.
- The commented-out variants (app.py:87-162, api/app.py:1-115): dead code.
- Non-string elements of a `message` list: `App.Chat` requires every element to be a string, because a non-string element makes `entry.split` raise in the source.
- Non-string login fields: e-mail and password are optional strings. A non-string JSON value (for instance a list, which raises in `email in USERS`) is not modelled.
- Unicode case mapping: `str.lower` is modelled for ASCII letters only; other characters are left as they are. All keywords are ASCII lower case, but Python also lowers some non-ASCII capitals to ASCII letters: U+212A KELVIN SIGN lowers to `k`, so a disease named "\u212Aidney failure" gets "Nephrologist" in Python and "General Physician" in the model; U+0130 lowers to `i` followed by U+0307. Disease names with such characters can therefore be categorised differently.
- Non-object request bodies: `chat` and `login` are modelled with a body that is a JSON object (`App.ChatReply` takes a map of fields, `Auth.Session.Login` the two fields). A body that parses to a list, a string or null makes `data.get` raise AttributeError, which Flask answers with status 500 (`app.py:166-167`, `api/app.py:181-182`, `api/app.py:195-196`); that path is not modelled.
- Duplicate column labels: tables are assumed to have distinct column labels, since pandas de-duplicates CSV headers on read.
- Testing1.Schema: requires a "prognosis" column, and so do `Testing1.TrainedWidth` and the Testing1 lemmas built on them. A training table without it makes `train_data.drop("prognosis", axis=1)` at testing1.py:14 raise KeyError while the script is loading, before `predict_disease` is defined (1.py:32 fails the same way during training). That path is not modelled here, unlike `UtilsData.GetSymptomList`, which returns the KeyError.
- Console output of `testing1.py`: the printed warnings are returned as a list. `Testing1.PredictDisease` requires at least one class, because `np.argmax` raises on an empty score vector.
- The Flask session is a single `Session` object per client. Cookies and concurrency are not modelled. `chat` takes no session, so its replies do not depend on who is logged in.

## Findings

| source | as written | input that shows it | evidently intended | confidence | as-written member | corrected member |
|---|---|---|---|---|---|---|
| testing1.py:14 | the schema is the raw training columns minus "prognosis", so a stray "Unnamed: 133" stays a vector position, while 1.py:28-29 drops it before the network's input width is fixed at 1.py:63 | a training CSV whose header holds "Unnamed: 133" (with any symptoms): the vector is one position wider than the network's input and `model.predict` at testing1.py:28 refuses it | take the schema from the training table with the stray column dropped, as 1.py and utils_data.py do | not executed | Testing1.StrayColumnBreaksTesting | Testing1.CleanedSchemaFitsNetwork |
