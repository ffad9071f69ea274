# Personality quiz to 3D character: a Dafny model of the core

The application asks the user a short personality quiz. It turns the
answers into four trait scores: energy, imagination, decision and order.
From those scores it derives a character profile, made of a vibe, a theme,
details and a colour. The profile becomes a text prompt for a text-to-3D
service, whose preview and refine tasks the result page polls until a GLB
model can be shown. Generated models can be saved to a catalog (an object
store plus a document collection) and listed back.

This project models the logic of that pipeline and proves properties of it:

- **Profile** (`app.py`): art-style normalisation, the score-to-profile
  deriver, the prompt, the three summary lines and the legacy MBTI request.
- **Scoring** (`app.py`): the loop that turns answers into trait scores, as
  a method proved against a specification function.
- **TaskWait** (`app.py`): `_wait_task_succeeded`, the bounded poll loop.
  The status request is an oracle.
- **Markers** (`utils/gemini_client.py`, `static/js/quiz.js`): the removal
  of calibration markers such as `(やや左)`. The one pattern is stated as a
  deterministic scanner.
- **Questions**, **TopUp**, **Generate** (`utils/gemini_client.py`): the
  twelve-question fallback pool and the repair of generated records. Also
  the top-up to the wanted count, as two loops (pool, then synthetic
  titles), and the whole `generate_questions_v1`.
- **Summary** (`utils/gemini_client.py`): `_fallback_summary`. It collects
  the axis tendencies, sorts them (stable, descending), and collects the
  paired strengths and points of care. It then writes three sentences.
- **Catalog** (`utils/firebase_storage.py`): metadata merging. Registration
  is a class holding the bucket (path to object) and the growing document
  list. Listing is a loop over a
  query stream.
- **Meshy** (`utils/meshy_client.py`): the status check and the request
  bodies of the preview, refine, rigging and animation calls. The HTTP
  exchange is an oracle.
- **Quiz** (`static/js/quiz.js`): the page's answer state (questions,
  answers, index, submission lock) as a class with `Choose`,
  `LoadQuestions` and the failed-submit reset.
- **ResultPoll** (`static/js/result.js`): the progress clamp, the
  per-response decision and `pollTask` with its nested refine polls. The
  nested polls are one loop whose task id changes at each refine. It runs
  against a response oracle with a fetch budget.

Support modules: `Wrappers` (Option, Result), `Text` (trim, ASCII case,
join, decimal numerals) and `Json` (JSON values and Python truthiness).

## Model

| member | source | states |
|---|---|---|
| Profile.NormalizeArtStyle | app.py:37-41 | the style sent is always "realistic" or "sculpture"; a missing or empty style is "realistic"; it is "sculpture" exactly when the trimmed, lower-cased input is "sculpture" |
| Profile.NormalizeArtStyleIdempotent | app.py:37-41 | normalising an already normalised style changes nothing |
| Profile.FallbacksAreRealistic | app.py:27-34 | every legacy style name (cartoon, lowpoly, anime, toon) maps to "realistic" |
| Profile.Clamp | app.py:169 | `max(-1, min(1, x))` lies in [-1, 1], is the identity inside it and saturates outside |
| Profile.NormThresholds | app.py:169-190 | the deriver's thresholds on v/20 (±0.2, 0.3, 0) are the integer thresholds ±4, 6 and 0 on the raw score |
| Profile.Vibe | app.py:170-178 | one or two tags; "cheerful" iff energy > 0.2, "calm" iff energy < -0.2, "cool and sharp" iff decision > 0.2, "cute and friendly" iff decision < -0.2; exactly ["balanced"] iff both are within ±0.2; the energy tag comes first |
| Profile.VibeTagsDistinct | app.py:170-178 | the five vibe tags are distinct, and energy and decision tags do not overlap |
| Profile.ColorOf | app.py:185-194 | the four colours are the four quadrants split at energy 0.3 and decision 0, each as an iff |
| Profile.ScoresToProfile | app.py:168-201 | the norm has the score's keys, each the clamped score/20; the vibe, theme, details and colour follow the normalised energy, imagination, decision and order values (theme and details as iffs) |
| Profile.ProfileByScores | app.py:168-201 | the same profile read off the integer scores: cheerful iff energy > 4, pastel pink iff energy >= 6 and decision <= 0, and so on |
| Profile.ExtremeScoresExample | app.py:168-201 | scores (20, -20, 20, -20) give norm (1, -1, 1, -1), vibe [cheerful, cool and sharp], student uniform, playful accessories, mint green |
| Profile.ZeroScoresExample | app.py:168-201 | all-zero scores give ["balanced"], student uniform, playful accessories, lavender |
| Profile.ProfileToPrompt | app.py:204-219 | the negative prompt is the fixed one; the prompt contains the joined vibe, "<colour> color scheme", the theme and the details |
| Profile.ScoresToSummaryLines | app.py:222-237 | three lines; the first writes out the energy and imagination leanings, the second the decision and order leanings, the third the joined vibe, the theme and the colour |
| Profile.LeaningByScore | app.py:225-231 | an axis reads as leaning right iff its score is above 6, left iff below -6, and balanced otherwise |
| Profile.MbtiScores | app.py:343-352 | the legacy scores have exactly the four traits, each +1 or -1; energy is +1 iff the type has E, imagination iff N, decision iff T, order iff J |
| Profile.Sign | app.py:347-350 | +1 exactly for a letter that is present, -1 otherwise |
| Profile.MbtiProfile | app.py:343-353 | a legacy request is always "balanced"; theme follows N, details follow J; navy blue for T types, else lavender |
| Profile.MbtiDefault | app.py:343 | with no type the request is read as ENFP: balanced, fantasy mage, playful accessories, lavender |
| Scoring.ChoiceIndex | app.py:264 | the index lies in 0..4, is the given one inside that range and saturates outside; a missing index is 2 |
| Scoring.Contribution | app.py:264-266 | an answer adds twice the score of its choice: one of -4, -2, 0, 2, 4 |
| Scoring.Scores | app.py:261-266 | the scores hold exactly the four traits, each the total of its answers' contributions |
| Scoring.AccumulateScores | app.py:261-266 | the loop computes exactly `Scores(answers)` |
| Scoring.TraitTotalAppend | app.py:262-266 | totals add up over consecutive batches of answers |
| Scoring.UnknownTraitIgnored | app.py:263-265 | an answer whose trait is not one of the four changes no score |
| Scoring.OwnTraitOnly | app.py:265-266 | an appended answer changes its own trait's total by its contribution and no other total |
| Scoring.TraitTotalBounds | app.py:264-266 | a trait's total lies within ±4 per answer given for that trait |
| Scoring.ScoreBounds | app.py:261-266 | every score lies within ±4 times the number of answers |
| TaskWait.WaitTaskSucceeded | app.py:241-250 | nothing is fetched (None returned) iff max_wait <= 0; each request starts before max_wait has elapsed; every request but the last returned without success; the last one decides the outcome; an unsuccessful last one means the time ran out |
| TaskWait.NeverSucceedsExample | app.py:241-250 | a 4 s wait at 2 s steps on a task that never succeeds makes two requests and returns the last snapshot |
| Markers.StripMarkers | utils/gemini_client.py:8-14 | the result is no longer than the input and is trimmed at both ends; `cleanLabel` (static/js/quiz.js, lines 25-28) is the same removal and trim |
| Markers.MarkerEndOf | utils/gemini_client.py:8-10 | every string of the marker pattern (each bracket, space run, label and inner space) is recognised as a marker of exactly its length |
| Markers.MarkerEndSound | utils/gemini_client.py:8-10 | conversely, whatever the scanner recognises as a marker is a string of the pattern: an opening bracket, spaces, a label, spaces, a closing bracket |
| Markers.RemoveFromSpan | utils/gemini_client.py:13-14 | text where no marker starts is copied through; a marker found is deleted whole |
| Markers.StripMarkerFree | utils/gemini_client.py:13-14 | text without markers is only trimmed |
| Markers.OnePassLeavesAssembledMarker | utils/gemini_client.py:13-14 | one pass does not rescan its own output: "(（中立）中立)" becomes "(中立)", which is itself a marker |
| Questions.PoolQuestion | utils/gemini_client.py:151-158 | a pool question has its title, the trait of its group of three and the five-step scale |
| Questions.FallbackPool | utils/gemini_client.py:148-184 | twelve questions, the k-th being PoolQuestion(k) |
| Questions.PoolQuestionId | utils/gemini_client.py:153 | pool question k has id "q" followed by k + 1 |
| Questions.PoolTitlesDistinct | utils/gemini_client.py:160-182 | no two pool questions share a title |
| Questions.PoolIdsDistinct | utils/gemini_client.py:151-158 | no two pool questions share an id |
| Questions.PoolTraitCounts | utils/gemini_client.py:160-182 | three pool questions per trait, in trait order (an iff on positions) |
| Questions.RepairedOptions | utils/gemini_client.py:92-94 | exactly five options: the first five given, cleaned of markers, then the neutral text |
| Questions.RepairOne | utils/gemini_client.py:88-102 | a record is kept iff its trimmed trait is one of the four; a kept record gets that trait, the repaired options, its cleaned title or "質問 i", and its id or "q i" |
| Questions.Normalized | utils/gemini_client.py:85-104 | no longer than the input; every result has a valid trait and five options |
| Questions.NormalizedKeepsValid | utils/gemini_client.py:85-104 | when every trait is valid nothing is dropped, and the k-th result is the repair of the k-th record at position k + 1 |
| Questions.NormalizedDropsInvalid | utils/gemini_client.py:90-91 | a record with an invalid trait leaves the result unchanged |
| Questions.RepairOptions | utils/gemini_client.py:92-94 | the padding loop computes RepairedOptions |
| Questions.TextField | utils/gemini_client.py:88-89 | a falsy field reads as missing, a string as its text, and any other value raises |
| Questions.OptionValues | utils/gemini_client.py:92 | `list(...)` of the options: a list is itself, a string its characters, a falsy value nothing; a number, `True` or a timestamp raises TypeError |
| Questions.ReadOptions | utils/gemini_client.py:92 | the first five options are read as texts, and any truthy non-string among them raises TypeError |
| Questions.ReadRecord | utils/gemini_client.py:86-101 | a non-dict record raises AttributeError; a truthy non-string title TypeError, then a truthy non-string trait id AttributeError; a kept record also raises on options that are not texts; a well-typed record is read with the texts it holds |
| Questions.ReadRecords | utils/gemini_client.py:86-101 | the list reads without error iff every record does, record by record |
| Questions.ReadRecordsFirstError | utils/gemini_client.py:86-101 | the error raised is the one of the first record that raises, all before it being read |
| Questions.ReadRecordsPrefixErr | utils/gemini_client.py:86-101 | once a prefix raises, the whole list raises with the same error |
| Questions.NormalizeQs | utils/gemini_client.py:85-104 | the loop computes Normalized of the records read, or stops with the error of the first record that raises |
| TopUp.TitlesOf | utils/gemini_client.py:107 | the set holds exactly the questions' titles: each title is in it, and everything in it is some question's title |
| TopUp.Fresh | utils/gemini_client.py:108-114 | the pool questions on offer have titles not yet used |
| TopUp.FreshFromPool | utils/gemini_client.py:108-114 | everything on offer is a pool question |
| TopUp.FreshDistinct | utils/gemini_client.py:108-114 | the questions on offer have distinct titles |
| TopUp.PoolFillTakesFresh | utils/gemini_client.py:108-114 | the pool loop appends exactly the first missing-many questions on offer |
| TopUp.PoolSuffices | utils/gemini_client.py:106-114 | when the count is at most the pool size, the pool offers at least as many questions as are missing |
| TopUp.SyntheticTitleOfTrait | utils/gemini_client.py:136-145 | for the four traits the synthetic title does not depend on the step number |
| TopUp.NextSynthetic | utils/gemini_client.py:118-119 | step i tries trait `TRAIT_ORDER[(len + i) % 4]` and its fixed title |
| TopUp.FourStepsCoverTraits | utils/gemini_client.py:117-122 | four skips in a row mean every synthetic title is used |
| TopUp.SkipBound | utils/gemini_client.py:117-122 | while a synthetic title is unused, at most three steps in a row are skipped |
| TopUp.SyntheticTailAppend | utils/gemini_client.py:124-131 | appending an unused synthetic title keeps the appended questions well formed, with "g" ids and distinct unused titles |
| TopUp.SyntheticFill | utils/gemini_client.py:116-131 | the synthetic loop reaches the count, and appends only questions with fresh, distinct synthetic titles and "g" ids |
| TopUp.TopUpToCount | utils/gemini_client.py:106-132 | the result is the given questions followed by the first missing-many unused pool questions |
| TopUp.PoolStepResult | utils/gemini_client.py:107-114 | what the pool loop leaves is that same list, of length max(len, count) |
| TopUp.TopUpShape | utils/gemini_client.py:106-132 | the given questions are kept as a prefix; the count is reached; appended titles are new and distinct |
| Generate.EffectiveCount | utils/gemini_client.py:59 | the count lies in 1..10; missing or zero means 10; it saturates outside the range |
| Generate.KeyedQuestions | utils/gemini_client.py:79-82 | exactly `count` questions |
| Generate.KeyedFromShape | utils/gemini_client.py:79-82 | the repaired questions come first, cut to the count; then come unused pool questions with distinct titles |
| Generate.GenerateQuestionsV1 | utils/gemini_client.py:57-82 | without a key the first `count` pool questions; with a key the call fails exactly when a generated record cannot be read, with that record's error; otherwise exactly `count` questions, the repaired ones, then unused pool questions |
| Generate.RepairAndTopUp | utils/gemini_client.py:79-82 | the error of the first unreadable record, or the repaired records topped up and cut as KeyedQuestions |
| Generate.TopUpAndCut | utils/gemini_client.py:80-82 | topping up and cutting compute KeyedQuestions |
| Generate.FailedGenerationUsesPool | utils/gemini_client.py:76-82 | a failed generation call yields the first `count` pool questions |
| Summary.Adj | utils/gemini_client.py:265-275 | the word is non-empty iff abs(v) >= 0.20; the side's word from ±0.45, "やや" + word in between |
| Summary.TendencyOf | utils/gemini_client.py:285-287 | an axis contributes its entry exactly when it is described |
| Summary.TendenciesIncreasing | utils/gemini_client.py:283-287 | the collected entries come in axis order |
| Summary.TendenciesSound | utils/gemini_client.py:283-287 | every collected entry is the entry of a described axis |
| Summary.TendenciesComplete | utils/gemini_client.py:283-287 | every described axis has its entry collected |
| Summary.CollectTendencies | utils/gemini_client.py:283-287 | the loop computes TendenciesUpTo over all axes |
| Summary.Insert | utils/gemini_client.py:288 | insertion is a permutation of the list plus the new entry |
| Summary.SortByWeight | utils/gemini_client.py:288 | sorting is a permutation |
| Summary.SortOrdered | utils/gemini_client.py:288 | the sorted entries descend by weight; ties keep axis order (the sort is stable) |
| Summary.TopTendencies | utils/gemini_client.py:288-289 | the summary uses the two strongest tendencies, or all of them when fewer |
| Summary.AdviceInPairs | utils/gemini_client.py:297-313 | every fired rule is one of the table's rules and fires; strengths and cautions are the good and care texts of the same rules, in order |
| Summary.AdviceComplete | utils/gemini_client.py:297-313 | every rule whose condition holds is collected; with AdviceInPairs, the collected rules are exactly the firing ones, in table order |
| Summary.AdviceCount | utils/gemini_client.py:297-313 | the number of strengths (and of cautions) equals the number of axes beyond ±0.2 |
| Summary.CollectAdvice | utils/gemini_client.py:297-313 | the `add` calls compute the strengths and cautions of the fired rules |
| Summary.Opening | utils/gemini_client.py:315-318 | the first sentence starts with "あなたは、" |
| Summary.WithVibe | utils/gemini_client.py:319-322 | adding the vibe keeps the "あなたは、" opening |
| Summary.Caution | utils/gemini_client.py:327-334 | the third sentence ends with "。" |
| Summary.SummaryUntrimmed | utils/gemini_client.py:336 | the final strip changes nothing |
| Summary.SummaryNamesTendencies | utils/gemini_client.py:289-318 | every tendency the summary describes is written out in the text |
| Summary.FallbackSummary | utils/gemini_client.py:255-336 | the method computes SummaryText |
| Catalog.CoerceMeta | utils/firebase_storage.py:14-32 | the merged metadata has exactly title, user, profile, ext and slug; the title rules for a plain title, none or a dict; each other key is extra's value when truthy, else the dict's when truthy, else its fallback |
| Catalog.MetaFieldsTruthy | utils/firebase_storage.py:28-31 | user, ext and slug always come out truthy; the title does unless an empty plain title was given |
| Catalog.BlobPathShape | utils/firebase_storage.py:51-52 | the path starts with "models/model_" and ends in ".glb"; two uploads get the same path iff they happen in the same second |
| Catalog.RecordMatchesDocument | utils/firebase_storage.py:58-78 | the returned record and the written document agree on every shared field; the thumbnail comes from extra; only the timestamps differ |
| Catalog.CatalogStore.constructor | utils/firebase_storage.py:7 | the store starts empty |
| Catalog.Upload | utils/firebase_storage.py:53-54 | after an upload the path holds the new object and every other path keeps its object |
| Catalog.SameSecondOverwrites | utils/firebase_storage.py:51-54 | two registrations in the same second write one path, and the second's bytes replace the first's; in different seconds both stay |
| Catalog.CatalogStore.Register | utils/firebase_storage.py:35-78 | a failed fetch writes nothing and passes the error on; otherwise the fetched bytes are uploaded at the second's path (replacing any object there), then one document is written, and the record is returned |
| Catalog.CreatedText | utils/firebase_storage.py:88-92 | a timestamp becomes its ISO text, a missing one "", anything else passes through |
| Catalog.Listed | utils/firebase_storage.py:86-102 | eight keys; title, user and profile are the stored values when truthy, else their defaults; the other fields pass through |
| Catalog.ListedDisplayable | utils/firebase_storage.py:95-101 | a listed record always has a truthy title and user |
| Catalog.ListModels | utils/firebase_storage.py:81-103 | one record per streamed document, in stream order |
| Catalog.RegisteredListsBack | utils/firebase_storage.py:58-103 | a registered document lists back with the record's fields and the server time as text |
| Meshy.CheckStatus | utils/meshy_client.py:15-21 | the check fails iff the status is 400 or more, carrying the JSON body or `{"message": text}` |
| Meshy.TaskIdOf | utils/meshy_client.py:37-38 | an error status gives the API error; otherwise the body's "result" |
| Meshy.Send | utils/meshy_client.py:36-38 | a failed argument check sends nothing; a sent body gets an API error iff the status is 400 or more |
| Meshy.Overlay | utils/meshy_client.py:35 | the payload's keys override the defaults; the other defaults remain |
| Meshy.PreviewMode | utils/meshy_client.py:24-35 | a preview body is in "preview" mode with remeshing, unless the payload says otherwise |
| Meshy.RefineMode | utils/meshy_client.py:40-46 | a refine body is in "refine" mode with PBR, unless the payload says otherwise; payload keys always win |
| Meshy.CreatePreview | utils/meshy_client.py:24-38 | the preview body is sent |
| Meshy.CreateRefine | utils/meshy_client.py:40-49 | the refine body is sent |
| Meshy.RiggingBody | utils/meshy_client.py:57-69 | an error iff neither a task id nor a model URL is given; otherwise the height, plus each optional field exactly when given, and no other key |
| Meshy.CreateRigging | utils/meshy_client.py:57-73 | nothing is posted iff neither a task id nor a model URL is given |
| Meshy.AnimationBody | utils/meshy_client.py:81-89 | an error iff the rig task id is empty; otherwise rig task id, action id, and post_process exactly when non-empty |
| Meshy.CreateAnimation | utils/meshy_client.py:81-93 | nothing is posted without a rig task id |
| Meshy.CreateFailsOnErrorStatus | utils/meshy_client.py:36-49 | preview and refine report an API error iff the service answers with status 400 or more |
| Quiz.AnswerId | static/js/quiz.js:66 | a non-empty id, the question's own when it has one |
| Quiz.AnswerTrait | static/js/quiz.js:67 | a non-empty trait, the question's own when it has one |
| Quiz.Loaded | static/js/quiz.js:86-95 | at most ten questions: a prefix of the fetched list, or the built-in question on failure |
| Quiz.QuizPage.constructor | static/js/quiz.js:6-11 | the page starts with no questions, no answers, index 0, unlocked |
| Quiz.QuizPage.Choose | static/js/quiz.js:61-82 | while locked nothing changes; otherwise the answer for the shown question is pushed, then the page moves on, or locks on the last question |
| Quiz.QuizPage.LoadQuestions | static/js/quiz.js:84-98 | the loaded questions are installed and the page starts over, unlocked |
| Quiz.QuizPage.SubmitFailed | static/js/quiz.js:137-145 | a failed submit keeps the questions and starts over, unlocked |
| ResultPoll.ParseStatus | static/js/result.js:142-163 | a status text is read as the status it names: writing it back gives the text, and `Running` never holds "SUCCEEDED", "FAILED" or "CANCELLED" |
| ResultPoll.ParseStatusText | static/js/result.js:142-163 | reading back a well-formed status gives that status |
| ResultPoll.ShownProgress | static/js/result.js:136-139 | nothing is shown for a response carrying an error; otherwise the clamped progress |
| ResultPoll.ClampProgress | static/js/result.js:138 | the progress shown lies in [0, 100], is the given one inside it, saturates outside, and is 0 when missing |
| ResultPoll.DecideCases | static/js/result.js:136-161 | an error field or a failed/cancelled status fails; a finished preview or untextured task is refined (iff); any other finished task shows its GLB (iff), or fails when it has none; every other status waits (iff), which for a status read from its text is any text but the three the page compares against |
| ResultPoll.StopsOrContinues | static/js/result.js:133-163 | no response both continues and ends polling; the outcome is determined and never shows an empty URL |
| ResultPoll.PollTask | static/js/result.js:129-164 | the first fetch is the given task; waits refetch it, refines move to the started task; each response's clamped progress is shown unless it carries an error; polling ends at the deciding response or when the budget runs out; every refine is requested with the preview task's id |

## Left out

- The network, the SDKs (Gemini, Meshy, Firebase), the clock, sleeping, the
  DOM and browser storage are not modelled. Their results are parameters or
  oracles: fetched bytes, public URLs, document ids, timestamps,
  `respond`, `startRefine`, `fetch`, `post` and the generated question list.
- Prompt templates, HTTP routes and Flask request parsing around the core
  are not modelled. So are `summarize_profile_jp`'s call to the text model,
  `showModel`, the overlay and rendering.
- Lists that the source updates in place (`out`, `qs`, `pairs`, `ANSWERS`,
  `items`) are sequences that the loops reassign. Aliasing of the caller's
  list by `_topup_to_count` is not captured.
- Python floats and JavaScript numbers are exact reals. The thresholds
  compared (0.2, 0.3, 0.45, 0.20) are decided the same way for the values
  that arise here, but rounding is not modelled.
- Whitespace for `strip()`/`trim()` and `\s` is a fixed set: the ASCII
  space characters, the no-break space and the ideographic space.
  `lower()`/`upper()` fold ASCII letters only.
- Profile.ProfileToPrompt: states that the prompt contains each profile
  fragment, not the exact order of the nine fragments.
- Scoring.ChoiceIndex: a `choice_index` present but not convertible by
  `int()` raises in the source. Here only a missing index (read as 2) and
  integer indices are modelled.
- TaskWait.WaitTaskSucceeded: requires a positive interval. The source
  loops for ever with a non-positive interval unless a snapshot succeeds.
- TopUp.SyntheticFill: requires as many unused synthetic titles as missing
  questions. The source's loop never ends otherwise.
- TopUp.TopUpToCount: requires a count of at most twelve, which is all the
  only caller passes (at most ten). Under that bound the synthetic loop
  appends nothing.
- Markers.StripMarkers: models the single left-to-right pass of `re.sub`
  and of a global `replace`. Its result can contain a marker that the
  deletions assembled (see Markers.OnePassLeavesAssembledMarker).
- Questions.ReadRecord: a truthy `id` that is not a string is kept as it is
  by the source; the model's ids are text, and such an id reads as missing,
  so the question is numbered instead. A non-empty object given as
  `options` is listed by its keys in the source, in insertion order, which
  a map does not keep; the model reads it as no options.
- Catalog.CatalogStore.Register: failures of the upload or of the document
  write are not modelled. Only the fetch can fail here.
- Catalog.ListModels: the query's ordering by `created_at` and its limit
  are done by the database. The model takes the stream they produce.
- Meshy.CheckStatus: the exception message `f"{status} {j}"` is kept as
  its parts (status, details), not formatted as text.
- Meshy.RiggingBody: `height_meters` defaults to 1.7 in the source. Here
  the caller passes it.
- Meshy.TaskIdOf: a success response whose body is not a JSON object,
  where Python fails while reading it, is the single error `Malformed`.
- Quiz.QuizPage.Choose: with the index past the last question, the script
  throws while reading the question. Here nothing changes instead.
- ResultPoll.PollTask: the page polls without a bound. Here it stops after
  `fuel` fetches with `StillPolling`. `REFINE_AUTORUN` is fixed at true, as
  the page ships.
- ResultPoll.PollTask: the refine ids are stated only when a task id or a
  preview id is non-empty. With both empty, the nested poll fixes the
  preview id to the first refine task's id.
