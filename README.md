# AI Behavioral Interview Coach — a verified Dafny model of its core

The interview coach asks a candidate a behavioural interview question, records
or accepts a typed answer, stores the recording with its metadata, transcribes
it, and has a hosted language model rate the answer. Most of the program is glue
around hosted model calls and Streamlit widgets. This project models the local
logic between those calls and proves what it guarantees:

- **Rater** (`RateResponse.dfy`). The model's free-form reply goes through a
  three-tier extraction:
  - the whole reply, if it parses as JSON;
  - otherwise the span from the first `{` to the last `}`, if that parses;
  - otherwise a fixed minimal record.

  The extracted record is then normalised one key at a time:
  - the score is rounded half to even and clamped to 0–10;
  - `strengths` and `improvements` become lists of at most six strings;
  - `summary` falls back to `""`.

  `NormalizeInPlace` does this the way the source does: it rewrites the
  dictionary step by step, including the loop over the two list keys. It is
  proved equal to the pure `Normalized`.
- **Question generator** (`QuestionGenerator.dfy`):
  - ten fixed topics;
  - a prompt template;
  - the strip / at-least-ten-characters / trailing `?` rule;
  - error wrapping under a common prefix.
- **Recording store** (`Files.dfy`, `AudioManager.dfy`). A `FileSystem` class
  holds files and directories by path. An `AudioManager` class writes each
  recording's audio to a deterministic `.wav` path. It keeps one JSON list of
  metadata per user, read whole, extended by one record and written back whole.
  The imperative `SaveAudioWithMetadata` is proved equal to the pure `Save`.
  The lemmas about `Save` give:
  - the append-at-end property;
  - other users' files are untouched;
  - the orphan audio file left by a failed metadata step;
  - the same-second collision.
- **Transcriber** (`Transcribe.dfy`). It checks that the file exists before the
  recogniser is called. It joins the segment texts with single spaces and
  strips the result. It derives the `.txt` path with POSIX `splitext` and
  optionally writes the transcript.
- **App session** (`StreamlitApp.dfy`):
  - the four session fields, each initialised only when absent;
  - one method per button handler;
  - the submit rule;
  - the app's own copy of the question generator, which returns None instead
    of raising. It is proved to agree with the stand-alone generator.

`Text.dfy` holds the parts of Python's `str` the code relies on (`isspace`,
`strip`, `find`/`rfind`, `join`, `str(int)`). `Json.dfy` holds the values
`json.loads` produces.

Behaviour worth noting, as the code has it:

- The candidate span runs from the first `{` to the LAST `}` (the pattern
  `\{[\s\S]*\}` is greedy). It is not the first balanced `{...}` block, so two
  objects in one reply give a span that usually does not parse.
- A score that is neither a number nor missing (say the string `"7"`) is
  written back unchanged. It is not set to null. A bool counts as a number
  (`True` becomes 1).
- The fallback summary is the first 500 characters of the STRIPPED reply.
- The rater can raise on malformed output. A reply that as a whole is valid JSON
  but not an object (`5`, `[1]`) makes `result.get` raise AttributeError.
  `RaisesOnlyOnNonObjectReply` proves this is the only such case.
- `is_recording` is set and cleared within one handler run. `InitDefaults`
  gives a fresh session the value false. `RecordAudio` and `StartRecording` end
  with it false, and the contracts of `StartSession`, `Back` and `NewQuestion`
  keep it. `StopRecording` requires it true, so no sequence of these handlers
  from a fresh session enables "Stop Recording".

## Model

| member | source | states |
|---|---|---|
| RateResponse.MatchBounds | rate_response.py:15-16 | the pattern's match starts at the first '{' of the reply and ends just after the last '}' that follows it |
| RateResponse.NoMatchIff | rate_response.py:15-16 | there is no match exactly when no '{' comes before a '}' |
| RateResponse.ExtractJson | rate_response.py:8-27 | a reply that parses is returned as parsed; otherwise the result is the parsed brace span or the fallback record |
| RateResponse.ExtractRecoversEmbeddedObject | rate_response.py:14-18 | an object wrapped in prose with no '{' before it and no '}' after it is recovered exactly, whatever it contains |
| RateResponse.ExtractFallbackShape | rate_response.py:21-27 | with no parse, the record has exactly the four keys, no score, empty lists, and a summary that is the prefix of the stripped reply of length min(its length, 500) |
| RateResponse.RoundHalfEven | rate_response.py:73 | `round` gives an integer within one half of the value, and the even one on a tie |
| RateResponse.RoundHalfEvenUnique | rate_response.py:73 | that is the only such integer |
| RateResponse.Clamp | rate_response.py:76-77 | the clamped score lies in [0, 10] |
| RateResponse.ClampNearest | rate_response.py:77 | the clamped score is the point of [0, 10] nearest the rounded one |
| RateResponse.NormalizeScoreShape | rate_response.py:69-78 | a number becomes an integer 0-10: a finite float is rounded to the nearest integer, ties to even, and one at or beyond a bound becomes that bound; an integer is clamped; a bool becomes 0 or 1; None comes only from NaN, the infinities and integers too large for a float; a non-number, a missing score included, is left as it was |
| RateResponse.NormalizeList | rate_response.py:80-88 | a list keeps its first six elements, in order, each as its string form; a non-blank string becomes the one-element list of its stripped text; anything else becomes [] |
| RateResponse.NormalizeListKeeps | rate_response.py:83-84 | a list of at most six strings is left unchanged |
| RateResponse.NormalizeSummary | rate_response.py:90-92 | a string summary is kept as it is; anything else, a missing summary included, becomes "" |
| RateResponse.Normalized | rate_response.py:67-94 | the result has the extracted keys plus the four rating keys, every other key passes through unchanged, and the rating is well formed |
| RateResponse.NormalizedFixedPoints | rate_response.py:69-92 | normalisation leaves a record unchanged exactly when it is already a well-formed rating, so normalising twice changes nothing |
| RateResponse.NormalizedKeepsRating | rate_response.py:69-92 | a well-formed rating is its own normal form |
| RateResponse.NormalizedRatingFields | rate_response.py:69-92 | a record of exactly the four keys is normalised by applying each rule to its own key's value |
| RateResponse.RatingIsWellFormed | rate_response.py:66-94 | every rating returned is well formed and carries the extra keys of the extracted object unchanged |
| RateResponse.UnparsedReplyGivesObject | rate_response.py:8-27 | when the reply as a whole is not JSON, the extracted value is always an object |
| RateResponse.RatedSummary | rate_response.py:90-94 | the returned summary is the extracted summary when that is a string, and "" otherwise |
| RateResponse.RaisesOnlyOnNonObjectReply | rate_response.py:67-70 | the rater raises on a reply exactly when the whole reply is valid JSON that is not an object |
| RateResponse.RatesProseReply | rate_response.py:21-27 | a reply of at most 500 stripped characters, with no '{', that is not JSON is rated as no score, the stripped reply as summary, and empty lists |
| RateResponse.ProseReplyFallsBack | rate_response.py:21-27 | a short reply with no '{' that is not JSON extracts to no score, the whole stripped reply, and empty lists |
| RateResponse.RatesEmbeddedExample | rate_response.py:66-88 | for an object after prose with score 11.6 and strengths given as one word, the score becomes 10 and the word a one-element list |
| RateResponse.ExampleFieldRules | rate_response.py:73-86 | 11.6 is rounded to 12 and clamped to 10; one trimmed word is wrapped into a list; [] stays [] |
| RateResponse.Prompt | rate_response.py:52-56 | the prompt carries the question after its heading, then the transcript after its own heading, and ends with the rubric |
| RateResponse.RateResponseCall | rate_response.py:35-94 | the rater sends the fixed system instructions and the prompt, then extracts and normalises, as `Rate` specifies |
| RateResponse.ElementTexts | rate_response.py:84 | the comprehension turns each element into its string form, in order |
| RateResponse.NormalizeInPlace | rate_response.py:69-92 | rewriting the dictionary key by key gives exactly `Normalized` |
| Json.Get | rate_response.py:70 | `dict.get` gives the stored value, or None for a missing key |
| Text.StripEnds | rate_response.py:24 | what `strip` leaves has no whitespace at either end |
| Text.TrimStartSpec | question_generator.py:42 | the leading part `strip` removes is all whitespace, and what it keeps is a suffix not starting with whitespace |
| Text.TrimEndSpec | question_generator.py:42 | the trailing part `strip` removes is all whitespace, and what it keeps is a prefix not ending with whitespace |
| Text.StripUnique | question_generator.py:42 | `strip` is the unique infix with whitespace-only margins and non-space ends |
| Text.StripIdempotent | question_generator.py:42 | stripping twice changes nothing |
| Text.StripTrimmed | question_generator.py:42 | a text with no whitespace at its ends strips to itself |
| Text.StripEmptyIff | rate_response.py:85 | a string strips to "" exactly when it is all whitespace |
| Text.IndexOf | rate_response.py:15 | the first occurrence of a character, or None when it does not occur |
| Text.LastIndexOf | rate_response.py:15 | the last occurrence of a character, or None when it does not occur |
| Text.JoinSnoc | transcribe.py:23 | joining one more part adds one separator and that part at the end, so parts keep their order |
| Text.JoinLength | transcribe.py:23 | the joined text's length is the parts' total length plus one separator between neighbours |
| Text.Digits | audio_manager.py:16 | the decimal rendering of a natural number is a non-empty string of digits |
| Text.Decimal | audio_manager.py:16 | an integer renders as a non-empty string |
| Text.DigitsRoundTrip | audio_manager.py:16 | the digits read back as the number |
| Text.DecimalRoundTrip | audio_manager.py:16 | the decimal rendering of an id reads back as that id, so distinct ids render as distinct text |
| QuestionGenerator.Prompt | question_generator.py:28 | the prompt is the fixed template with the topic in its slot |
| QuestionGenerator.PromptInjective | question_generator.py:28 | different topics give different prompts |
| QuestionGenerator.Polish | question_generator.py:42-51 | the reply succeeds exactly when its stripped text has at least ten characters; the question then starts with that text, ends with '?', and has a '?' appended only when one is missing; otherwise the fixed too-short error |
| QuestionGenerator.PolishIgnoresBlanks | question_generator.py:42 | only the stripped reply decides the outcome |
| QuestionGenerator.PolishAccepts | question_generator.py:42-51 | a question of ten or more characters that starts with a non-space and ends with '?' passes unchanged |
| QuestionGenerator.PolishIdempotent | question_generator.py:42-51 | a question that passed is accepted again unchanged |
| QuestionGenerator.GenerateQuestion | question_generator.py:23-54 | every failure message starts with "Failed to generate AI question: "; a question comes back exactly when the model answered with content of at least ten stripped characters, and it is that reply polished |
| QuestionGenerator.GenerateQuestionTooShort | question_generator.py:45-54 | an empty reply fails with the prefix followed by the too-short reason |
| Files.Parent | audio_manager.py:20 | the directory of a path is the text before its last '/': a prefix followed by a '/' with no '/' after it, or "" when the path has no '/' |
| Files.PathJoin | audio_manager.py:19 | `os.path.join` ends with the joined name |
| Files.PathJoinInjective | audio_manager.py:35 | different relative names joined onto one directory give different paths |
| Files.PathJoinParent | audio_manager.py:19 | a name without '/' joined onto a directory lies directly in that directory |
| Files.WriteFault | audio_manager.py:20 | `open` for writing raises IsADirectoryError on a directory and FileNotFoundError otherwise |
| Files.Utf8Length | transcribe.py:30-31 | a text written as UTF-8 takes between one and four bytes per character |
| Files.Utf8LengthAppend | transcribe.py:30-31 | encoded sizes add up over concatenation |
| Files.JoinUtf8Length | transcribe.py:23-31 | the UTF-8 size of segments joined by single spaces is the sum of their sizes plus one byte per space |
| Files.FileSize | audio_manager.py:54 | a binary file's size is its byte count; a text file's is its UTF-8 length |
| Files.LoadJson | audio_manager.py:39-40 | `json.load` succeeds exactly on a text file that decodes, and gives the decoded value |
| Files.FileSystem.WriteFile | audio_manager.py:20-21 | a write replaces the whole file when the path is writable, and otherwise raises and changes nothing |
| Files.FileSystem.MakeDirs | audio_manager.py:10 | the directory is added and no file changes |
| Files.FileSystem.ReadJson | audio_manager.py:62-63 | reading a JSON file gives what `LoadJson` specifies |
| AudioManager.FileName | audio_manager.py:16 | the audio file name ends with ".wav" and starts with the "u" of "user_" |
| AudioManager.MetadataName | audio_manager.py:35 | the metadata file name ends with ".json" and starts with the "m" of "metadata_", so it never equals an audio name |
| AudioManager.MetadataPathInjective | audio_manager.py:35 | each user has a metadata file of their own |
| AudioManager.AudioIsNotMetadata | audio_manager.py:15-35 | no audio path is ever a metadata path |
| AudioManager.StoredList | audio_manager.py:38-42 | a missing metadata file reads as the empty list, an existing one as what `json.load` gives |
| AudioManager.StoredListAfterAudio | audio_manager.py:20-40 | writing the audio does not change what any metadata file holds |
| AudioManager.SaveSucceedsIff | audio_manager.py:12-49 | a save succeeds exactly when both paths are writable and the user's metadata is missing or a list; it returns the path and a record of the ids, text, timestamp, file name and path |
| AudioManager.SaveWritesAudio | audio_manager.py:19-21 | the audio file holds exactly the payload once it can be written, even if the metadata step then fails; otherwise nothing changes |
| AudioManager.SaveTouchesOnly | audio_manager.py:19-47 | a save changes no path other than its audio file and its user's metadata file |
| AudioManager.SaveLeavesOtherUsers | audio_manager.py:35-47 | another user's recordings list reads the same before and after a save |
| AudioManager.SaveAppends | audio_manager.py:38-47 | when both files can be written and the user's metadata is missing or a list, the save succeeds and the user's list becomes the previous list, or [] without a file, with the new record last, whenever `json.load` reads back the list `json.dump` wrote |
| AudioManager.ToJsonInjective | audio_manager.py:24-32 | different metadata records give different JSON objects, so each appended record can be told apart |
| AudioManager.SameSecondSavesCollide | audio_manager.py:15-47 | when the first save can succeed, two saves with the same ids in the same second share one audio path, so the second recording replaces the first, while the list gains two equal records (when the written lists read back) |
| AudioManager.AudioManager.constructor | audio_manager.py:6-10 | the recordings directory is created only when nothing exists at its path |
| AudioManager.AudioManager.SaveAudioWithMetadata | audio_manager.py:12-49 | the step-by-step save yields exactly the result and the files that `Save` specifies |
| AudioManager.AudioManager.GetFileInfo | audio_manager.py:51-56 | the size of whatever exists at the path, else None |
| AudioManager.AudioManager.ListUserRecordings | audio_manager.py:58-64 | the user's stored list, or [] when there is no metadata file |
| Transcribe.JoinEnds | transcribe.py:23 | the joined text starts with the first segment's first character when that segment is not empty, and ends with the last segment's last character when that one is not empty |
| Transcribe.TranscriptOfTrimmedSegments | transcribe.py:23 | segments with no padding come out joined by exactly one space each |
| Transcribe.TranscriptHasNoPadding | transcribe.py:23 | the transcript neither starts nor ends with whitespace |
| Transcribe.TranscriptAppends | transcribe.py:23 | when the first segment and the new one have no padding, one more segment turns the transcript into the previous joined text, a space and that segment, with nothing stripped |
| Transcribe.SavedTranscriptSize | transcribe.py:23-31 | for unpadded segments, the transcript has their total length plus one space between neighbours, and the saved file's size is their total UTF-8 size plus one byte per space |
| Transcribe.NameStart | transcribe.py:28 | the file name starts just after the last '/' of the path |
| Transcribe.NameFollowsParent | transcribe.py:28 | the file name `splitext` looks at starts right after the directory part and its '/', or at 0 when the path has no '/' |
| Transcribe.SplitExt | transcribe.py:28 | `splitext` splits the path into stem and extension; the extension is empty or one dot followed by neither '.' nor '/', and it is non-empty exactly when the file name has a '.' after a character other than '.' |
| Transcribe.SplitExtRecovers | transcribe.py:28 | a stem whose file name is not only dots, followed by one '.' and characters other than '.' and '/', splits back into exactly that stem and that extension |
| Transcribe.TxtPathReplacesExtension | transcribe.py:28-29 | an audio path with an extension gets that extension replaced by ".txt" |
| Transcribe.TxtPathSplits | transcribe.py:28-29 | splitting the derived path gives back the audio file's stem and ".txt", when that stem's file name is not only dots |
| Transcribe.OutPath | transcribe.py:25-29 | nothing is saved without `save_txt`; a given path is used as given; otherwise it is the audio path with a ".txt" extension |
| Transcribe.SpeechModel.Transcribe | transcribe.py:22 | the recogniser logs the path it was asked about and yields that path's segments |
| Transcribe.Transcriber.constructor | transcribe.py:8-13 | the transcriber holds the recogniser it is given |
| Transcribe.Transcriber.TranscribeFile | transcribe.py:15-34 | a missing audio file raises before the recogniser is called and nothing is written; otherwise the transcript is the joined, stripped segments, and the output file, when there is one and it can be written, holds exactly that transcript |
| StreamlitApp.GenerateQuestionWithHf | streamlit_app.py:24-71 | the app's generator returns a question ending in '?' of at least ten characters exactly when the reply had content of at least ten stripped characters, else None |
| StreamlitApp.AgreesWithGenerator | streamlit_app.py:24-71 | it returns what the stand-alone generator returns, and None where that one raises |
| StreamlitApp.Session.InitDefaults | streamlit_app.py:9-16 | each field gets its default (False, "", "", False) only when absent, and all four are present afterwards |
| StreamlitApp.Session.StartSession | streamlit_app.py:88-91 | the session starts with the generator's result as the current question |
| StreamlitApp.Session.Back | streamlit_app.py:100-102 | the session ends and the question and the response are kept |
| StreamlitApp.Session.NewQuestion | streamlit_app.py:112-116 | the question is replaced and the recorded response cleared |
| StreamlitApp.Session.RecordAudio | streamlit_app.py:74-80 | after the simulated recording the response is the fixed sample text and the flag is false |
| StreamlitApp.Session.StartRecording | streamlit_app.py:126-128 | starting a recording runs the simulated recording to its end |
| StreamlitApp.Session.StopRecording | streamlit_app.py:131-133 | the flag is cleared and nothing else changes |
| StreamlitApp.Session.Submit | streamlit_app.py:153-170 | submission succeeds exactly when the recorded or the typed response is non-empty, and the typed one wins; nothing changes |

## Left out

- The hosted calls are parameters. The chat completions become a function from the prompt to the reply's content or to the client's error text. Whisper becomes the segment texts for a path. Model names, tokens and beam size do not appear.
- `json.loads` and `json.dump` are parameters (`parse`, `decode`, `encode`). The append-at-end lemmas take as a premise that `json.load` reads back the one list `json.dump` wrote (`ReadsBack`), which holds for lists of records made of strings and integers.
- `str()` of floats, lists and dicts is the parameter `repr`. `str()` of strings, None, booleans and integers is modelled exactly.
- A float in a reply is its exact value. `NonFinite` stands for NaN and the infinities. Double-precision parsing and formatting are not modelled.
- `RateResponse.RateResponseCall`: a reply whose content is None (`_extract_json(None)` raises TypeError) is not modelled; the reply text is always a string. A completion without choices is not modelled either.
- `QuestionGenerator.GenerateQuestion`: a completion without choices (IndexError) is not modelled. The exception text for a missing content is the one `.strip()` on None gives.
- `random.choice` becomes a topic index and `datetime.now().strftime(...)` a timestamp string. The date format itself is not modelled. The two-second `time.sleep` in `record_audio` has no effect on state and is left out.
- Streamlit rendering is not modelled: titles, columns, spinners, balloons, `st.rerun`, the text of `st.error` banners. Neither is the "Next AI Question" button nested inside the submit handler, which a rerun makes unreachable.
- Dictionary key order (JSON objects are maps) is not modelled, nor is `indent=2` formatting.
- User ids are text and question/response ids are integers. Other Python types passed as ids are not modelled.
- Paths are compared as text: `..`, repeated or trailing '/' are not normalised. A path under a regular file raises FileNotFoundError here rather than NotADirectoryError. Permissions and a full disk are not modelled.
- `Files.FileSystem.MakeDirs`: creates only the named directory. `os.makedirs` would also create missing parents, but the only path passed is the single-component "recordings".
- `Files.LoadJson`: a file holding raw bytes reads as a JSON decode failure; UTF-8 decoding of binary files is not modelled.
- `AudioManager.AudioManager.GetFileInfo`: a directory's size is the constant `dirSize` of the file system, since `os.path.getsize` on a directory depends on the operating system.
- `Transcribe.SpeechModel.Transcribe`: Whisper yields segments lazily and may fail while they are consumed. The model takes the segment texts as given for the path. The model size and compute type of `Transcriber.__init__` are not modelled.
- `record.py`, `test/Transcribe_test.py` and the `__main__` demonstration blocks are not part of this model.
- The question/response id counters and a pending-transcription state are not modelled; no modelled file keeps them.
