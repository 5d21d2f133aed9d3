# AutoStudy AI: string handling and session bookkeeping

AutoStudy AI is a Streamlit app. It turns pasted notes or a YouTube video's
captions into a summary, flashcards and a quiz by asking Gemini for a JSON
study kit. The network work is done by Gemini and `youtube_transcript_api`.
Around those calls sits a small deterministic layer, and this project models
that layer and proves its properties:

- **Video-id extraction** (`VideoId`). `extract_video_id` runs Python's
  `re.search` with `(?:v=|\/)([0-9A-Za-z_-]{11}).*`. The pattern is kept as
  data: its marker alternatives, its character-class ranges and the width.
  The search tries start positions left to right and the alternatives in the
  order they are written, as `re.search` does.
- **Transcript assembly** (`Transcript`). The loop that collects each entry's
  text and the `" ".join`. An entry is either an object with `text` or a
  dictionary read with `.get('text', '')`. The transcript service is a
  parameter.
- **The transcript script** (`TranscriptScript`). test_transcript.py repeats
  the extraction and the join. Its pattern is written out separately and
  shown to be the application's, so both give the same results. The script's
  sample URL yields `nTOVIGsqCuY`.
- **Response preparation** (`Generation`). The hard cut to 30000 characters.
  Python's `str.replace` as a recursive function. The two-step fence removal.
  The model call and `json.loads` are parameters, and every failure becomes
  None.
- **Rerun state machine** (`Session`). `AppSession` holds the four
  session-state fields (`study_material`, `last_video_url`,
  `last_study_material`, `generated_data`), and `Rerun` is one pass of the
  script over them. `Step` is the same pass as a function. The lemmas
  about `Step` say when a transcript is fetched, when generation runs, and
  when stored content is replaced. They also show that a repeated rerun
  changes nothing.
- **Quiz grading** (`Quiz`). A selection is right iff it starts with
  `correct_answer`. A wrong selection shows the first option with that prefix,
  or else the bare label.
- **Card grids** (`CardGrid`). The two-column loops over summary points and
  flashcards.

Behaviour of the code that is easy to misread:
- Study text that is non-empty and differs from the last handled text
  triggers generation when an API key is set. Whitespace-only text is not
  rejected, because the code tests `if current_study_material` (app.py:300),
  not whether the text is blank.
- Any truthy JSON value replaces the stored study kit (app.py:306). The code does not
  check the study-kit shape (`summary_points`, `flashcards`, `quiz`).
- The prompt embeds at most the first 30000 characters of the study text
  (app.py:223); anything after them is never sent.
- A fetch that yields the empty string counts as a failure, because the
  caller tests `if transcript_text:` (app.py:267). So a video with zero caption entries
  leaves the study material as it was.

## Model

| member | source | states |
|---|---|---|
| `VideoId.ExtractVideoId` | app.py:176-181 | `extract_video_id`: `re.search` of the app pattern, returning group 1 or None; an id it returns has exactly 11 characters |
| `VideoId.FirstAlt` | app.py:177-178 | the alternative chosen at one start is the first in written order (`v=` before `/`) that is followed by the 11-character run; when none is chosen, none matches |
| `VideoId.SearchFrom` | app.py:177-178 | the hit is a match, and no earlier start matches; None means no start up to and including the end of the URL matches |
| `VideoId.Search` | app.py:178-181 | group 1 of a match has exactly the pattern's width |
| `VideoId.AppClassIsIdChar` | app.py:177 | the class ranges of the pattern admit exactly the characters `[0-9A-Za-z_-]` |
| `VideoId.AltMatchIsCandidate` | app.py:177-180 | a match of the pattern puts 11 id characters right after a `v=` or a `/` |
| `VideoId.CandidateIsMatch` | app.py:177-180 | 11 id characters after a `v=` or a `/` are a match of the pattern one or two characters earlier |
| `VideoId.MarkersExclusive` | app.py:177 | the two marker alternatives never match at the same start |
| `VideoId.EarlierMatchEarlierId` | app.py:177-178 | a match that starts earlier places its id no later, so leftmost by start is leftmost by id position |
| `VideoId.ExtractedHit` | app.py:178-180 | an extracted id is group 1 of the leftmost hit: the 11 characters right after the matched marker |
| `VideoId.ExtractedIdShape` | app.py:176-181 | an extracted id has length 11, every character is in `[0-9A-Za-z_-]`, and it is the URL's text right after a `v=` or a `/` |
| `VideoId.ExtractNoneIff` | app.py:176-181 | None is returned iff no position of the URL has 11 id characters right after a `v=` or a `/` |
| `VideoId.ExtractLeftmost` | app.py:176-181 | when several such positions exist, the id at the leftmost one is returned |
| `Transcript.EntryText` | app.py:203-206 | an entry's text: the `text` attribute of an object entry; for a dictionary the `text` key, and `''` when the key is missing |
| `Transcript.Texts` | app.py:202-206 | one text per entry, in order: the `text` attribute, or the dictionary's `text` key, or `''` |
| `Transcript.Assemble` | app.py:201-208 | `" ".join(text_list)` over the entries' texts; zero entries give `""`, one entry gives its text |
| `Transcript.AssembleTranscript` | app.py:201-208 | the loop's result is the entries' texts, in order, joined with single spaces |
| `Transcript.TranscriptOf` | app.py:183-212 | `get_youtube_transcript`: None without an id; otherwise a result exactly when the fetch succeeds, and that result is the assembled entries |
| `Transcript.GetYoutubeTranscript` | app.py:183-212 | the method returns what the transcript function specifies: None without an id, None when the fetch fails, else the joined text |
| `Transcript.JoinConcat` | app.py:208 | joining two non-empty lists is the two joins with exactly one separator between them |
| `Transcript.AssembleAppend` | app.py:201-208 | one more entry adds exactly one space and then its text, even when that text is `''` |
| `Transcript.JoinLength` | app.py:208 | the joined length is the texts' total length plus one separator per neighbouring pair |
| `Transcript.SplitAtFirstSpace` | app.py:208 | a space-free text, one space and a rest split into that text followed by the rest's pieces |
| `Transcript.SplitJoin` | app.py:208 | splitting the join at spaces gives back the parts in order, when the parts have no spaces |
| `Transcript.AssembleSplits` | app.py:201-208 | the assembled transcript of space-free entry texts splits back into those texts, in order |
| `Transcript.NoIdNoFetch` | app.py:188-190 | without an extractable id the result is None, whatever the service would return |
| `Transcript.FetchFailureIsNone` | app.py:192-212 | a failed fetch gives None |
| `TranscriptScript.ExtractVideoId` | test_transcript.py:4-9 | the script's `extract_video_id` over its own pattern literal; an id it returns has exactly 11 characters |
| `TranscriptScript.ExtractVideoIdAgrees` | test_transcript.py:4-9 | the script's pattern is the application's, so both extractions agree on every URL |
| `TranscriptScript.GetYoutubeTranscript` | test_transcript.py:11-32 | the script returns exactly what the application's `get_youtube_transcript` returns, for every URL and every service behaviour |
| `TranscriptScript.SampleNoEarlierCandidate` | test_transcript.py:34-36 | no position before the id in the sample URL has 11 id characters after a `v=` or a `/` |
| `TranscriptScript.SampleUrlId` | test_transcript.py:34-36 | the sample URL yields `nTOVIGsqCuY` |
| `Generation.Truncate` | app.py:223 | the embedded text is the prefix of the input of length `min(len, 30000)` |
| `Generation.GenerationIgnoresTail` | app.py:219-237 | text after the first 30000 characters has no effect on the result |
| `Generation.Replace` | app.py:238 | Python's `str.replace`, left to right and non-overlapping; removing a pattern never lengthens the string, and a string shorter than the pattern is unchanged |
| `Generation.Clean` | app.py:238 | `reply.replace("```json", "").replace("```", "")`: the result holds no "```" and is no longer than the reply |
| `Generation.ReplaceAbsent` | app.py:238 | `replace` leaves a string without the pattern unchanged |
| `Generation.ReplaceSkipsPrefix` | app.py:238 | `replace` passes over a prefix in which no occurrence starts |
| `Generation.StripFenceStep` | app.py:238 | a string that does not open with a fence keeps its first character in front |
| `Generation.StripFenceLeavesNoFence` | app.py:238 | after `.replace("```", "")` no "```" remains; removing fences never creates a new one |
| `Generation.CleanWithoutFence` | app.py:238 | a reply without "```" is cleaned to itself |
| `Generation.CleanUnwraps` | app.py:238 | "```json" + payload + "```" is cleaned to the payload, for a payload without backticks |
| `Generation.GenerateStudyMaterial` | app.py:214-242 | `generate_study_material`: a failed model call gives None; a result is always the parse of the cleaned reply to the prompt built from the truncated text |
| `Generation.GenerationFailure` | app.py:237-242 | a failed model call, or a cleaned reply that does not parse, gives None |
| `Generation.GenerationSuccess` | app.py:237-239 | when the model call answers, the result is `json.loads` of the reply with its fences removed |
| `Generation.FencedReplyParsesAsPayload` | app.py:237-239 | a fenced reply is parsed exactly as its bare payload would be |
| `Session.Step` | app.py:262-310 | one rerun pass as a function: the URL is always remembered; a fetch is only for a new non-empty URL; generation is only with a key and from the new non-empty material; stored content changes only to a usable result of a generation that ran |
| `Session.AppSession.constructor` | app.py:251-258 | the fields start as `""`, `None`, `""`, `None` |
| `Session.AppSession.Rerun` | app.py:262-310 | one pass changes the fields exactly as `Step` says and reports which URL was fetched and which material was sent for generation |
| `Session.FetchPolicy` | app.py:262-274 | a transcript is requested iff the URL changed and is non-empty; the URL is remembered regardless; on failure the material is unchanged, on success it is the transcript |
| `Session.GenerationPolicy` | app.py:299-310 | generation runs iff the material is non-empty, differs from the last handled, and a key is set; the material is then marked handled whether generation ran, failed or was skipped |
| `Session.FailedGenerationKeepsData` | app.py:304-307 | stored content is replaced only by a truthy result; a failure or a falsy JSON leaves it untouched |
| `Session.RerunSettles` | app.py:262-310 | a rerun with the same URL and no edit fetches nothing, generates nothing and changes nothing |
| `Session.FirstPasteGenerates` | app.py:251-310 | on a fresh session with no URL entered (the widget absent or empty), pasting non-empty text with a key set sends that text for generation and fetches nothing |
| `Quiz.ShownAnswer` | app.py:394 | the `next(..., correct_answer)` expression: the shown text starts with `correct_answer` and is either an option or `correct_answer` itself |
| `Quiz.Grade` | app.py:388-395 | the feedback: none for an empty or missing selection; correct only for a selection that starts with `correct_answer`; when incorrect, the selection lacks the prefix and the shown answer has it |
| `Quiz.FirstWithPrefix` | app.py:394 | the index found is the first option from the start index on that starts with the label; None means no option does |
| `Quiz.GradeCorrectIff` | app.py:388-392 | a selection is graded correct iff it starts with `correct_answer`, and incorrect otherwise |
| `Quiz.ShownAnswerIsFirstMatch` | app.py:392-395 | the answer shown is the first option in list order with that prefix, or the raw `correct_answer` when none has it |
| `Quiz.IncorrectShowsOtherAnswer` | app.py:390-395 | when a selection is graded wrong, the answer shown starts with the label and differs from the selection |
| `CardGrid.Numbered` | app.py:322-341 | the items numbered from 1 in order, position `k` holding item `k` with number `k + 1` (`#{i+1}`) |
| `CardGrid.LayoutPairs` | app.py:322-341 | the rows read left to right hold every item once, in order, numbered `i+1`; there are `ceil(n/2)` rows; only the last may lack a right card (the flashcard grid at app.py:349-365 is the same loop) |

## Left out

- Streamlit rendering is not modelled: page config, the CSS blocks, hero markup, tabs, expanders, spinners, `st.video`, success and error messages. It has no contract beyond grading and layout.
- The Gemini calls (`genai.configure`, `GenerativeModel`, `generate_content`) are the `llm` parameter, which returns the reply text or None when it raises. The API key is passed to Gemini only, so it is not a parameter of the model.
- The prompt's wording is not modelled: `Prompt` carries only the study text it embeds.
- `YouTubeTranscriptApi().fetch` and its language list are the `transcripts` parameter. Given an id, it returns the entries or None.
- `json.loads` is the `parse` parameter. `Json` keeps only what Python truthiness needs, and JSON floats are not represented.
- `load_dotenv`, the environment lookup and the sidebar key input are not modelled. The rerun receives only whether a key is present.
- test.py and test_api_key.py are not part of this model. They print diagnostics and test the network.
- The prints of test_transcript.py (its test run prints the length and a preview) are not modelled.
- The diagnostic prints on failure paths are not modelled: `print(f"Error: {e}")` at app.py:211, `print("Invalid Video ID")` at test_transcript.py:14, and `print(f"Error: {e}")` at test_transcript.py:31. They write to the console only, and the return value that follows each one (None) is modelled.
- Transcript.GetYoutubeTranscript: an entry whose text is not a string (a `TypeError` in the join, caught and turned into None) is not modelled, because entries here always carry strings.
- Generation.Replace: an empty search pattern is excluded by its precondition. Python inserts the replacement between characters in that case, but the source only ever uses non-empty constants.
- Display errors are not modelled: a quiz or flashcard dictionary that lacks `question`, `answer` or `options` raises a `KeyError` outside any handler. The grid and quiz take typed items.
- The quiz headings `{i+1}.` are not modelled. They are numbered the same way as `CardGrid.Numbered`.
- Widget semantics are simplified: an edit of the text area is taken to be in session state before the script runs, as Streamlit does for keyed widgets.
