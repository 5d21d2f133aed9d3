/**
 * The rerun logic of app.py (lines 251-310).
 *
 * Streamlit runs the script top to bottom on every interaction; four
 * session-state fields carry over between runs and decide when a transcript
 * is fetched, when generation runs and when the stored study kit is
 * replaced. `AppSession` holds those fields; `Rerun` is one pass of the
 * script over them, and `Step` is the same pass as a function of the state
 * it starts from, which the lemmas below are about.
 */
module Session {
  import opened Wrappers
  import Transcript
  import Generation

  /** The four session-state fields. `lastVideoUrl` is Python's `None` before any URL was seen. */
  datatype State = State(studyMaterial: string,
                         lastVideoUrl: Option<string>,
                         lastStudyMaterial: string,
                         generatedData: Option<Generation.Json>)

  /** What the user did before this rerun: the URL widget's value (None before the widget exists),
      a new text in the study-material text area if it was edited, and whether an API key is set. */
  datatype Interaction = Interaction(videoUrl: Option<string>, edit: Option<string>, hasApiKey: bool)

  /** The outside world: the transcript service, the model call and `json.loads`. */
  datatype Services = Services(transcripts: string -> Option<seq<Transcript.Entry>>,
                               llm: Generation.Prompt -> Option<string>,
                               parse: string -> Option<Generation.Json>)

  /** The state after one rerun, with the URL handed to `get_youtube_transcript` and the
      material handed to `generate_study_material` (None when the call was not made). */
  datatype Outcome = Outcome(state: State, fetchedUrl: Option<string>, generatedFrom: Option<string>)

  /** The defaults set on the first run (app.py:251-258). */
  const Initial := State("", None, "", None)

  /** Python truthiness of an optional string: not None and not empty. */
  predicate Present(s: Option<string>)
  {
    s.Some? && s.value != ""
  }

  /** Python truthiness of the value returned by `generate_study_material`. */
  predicate Usable(d: Option<Generation.Json>)
  {
    d.Some? && Generation.Truthy(d.value)
  }

  /** The text area's value when the script starts. */
  function MaterialAtStart(s: State, i: Interaction): string
  {
    if i.edit.Some? then i.edit.value else s.studyMaterial
  }

  /** The URL is fetched when it differs from the last one seen and is non-empty (app.py:262-264). */
  predicate FetchWanted(s: State, i: Interaction)
  {
    i.videoUrl != s.lastVideoUrl && Present(i.videoUrl)
  }

  /** The study material after the auto-fetch block (app.py:262-274). */
  function MaterialAfterFetch(s: State, i: Interaction, env: Services): string
  {
    var t := if FetchWanted(s, i) then Transcript.TranscriptOf(i.videoUrl.value, env.transcripts) else None;
    if Present(t) then t.value else MaterialAtStart(s, i)
  }

  /** Material that is non-empty and not the one last handled (app.py:300). */
  predicate MaterialChanged(s: State, i: Interaction, env: Services)
  {
    var m := MaterialAfterFetch(s, i, env);
    m != "" && m != s.lastStudyMaterial
  }

  /** One pass of app.py:262-310. */
  function Step(s: State, i: Interaction, env: Services): (o: Outcome)
    ensures o.state.lastVideoUrl == i.videoUrl
    ensures o.fetchedUrl.Some? ==> o.fetchedUrl == i.videoUrl && Present(i.videoUrl) && i.videoUrl != s.lastVideoUrl
    ensures o.generatedFrom.Some? ==> i.hasApiKey && o.generatedFrom.value == o.state.studyMaterial != ""
    ensures o.state.generatedData != s.generatedData ==> o.generatedFrom.Some? && Usable(o.state.generatedData)
  {
    var m := MaterialAfterFetch(s, i, env);
    var changed := MaterialChanged(s, i, env);
    var generatedFrom := if changed && i.hasApiKey then Some(m) else None;
    var data := if generatedFrom.Some? then Generation.GenerateStudyMaterial(m, env.llm, env.parse) else None;
    Outcome(State(m,
                  i.videoUrl,
                  if changed then m else s.lastStudyMaterial,
                  if Usable(data) then data else s.generatedData),
            if FetchWanted(s, i) then i.videoUrl else None,
            generatedFrom)
  }

  /** The session state of one browser session. */
  class AppSession {
    var studyMaterial: string
    var lastVideoUrl: Option<string>
    var lastStudyMaterial: string
    var generatedData: Option<Generation.Json>

    function Snapshot(): State
      reads this
    {
      State(studyMaterial, lastVideoUrl, lastStudyMaterial, generatedData)
    }

    /** app.py:251-258: the fields are created with their defaults on the first run. */
    constructor ()
      ensures Snapshot() == Initial
    {
      studyMaterial := "";
      lastVideoUrl := None;
      lastStudyMaterial := "";
      generatedData := None;
    }

    /** One run of the script over the session state (app.py:262-310). */
    method Rerun(i: Interaction, env: Services) returns (fetchedUrl: Option<string>, generatedFrom: Option<string>)
      modifies this
      ensures Outcome(Snapshot(), fetchedUrl, generatedFrom) == Step(old(Snapshot()), i, env)
    {
      ghost var s := Snapshot();
      if i.edit.Some? {
        studyMaterial := i.edit.value;
      }
      fetchedUrl, generatedFrom := None, None;

      // Auto-fetch: only for a new, non-empty URL.
      var currentVideoUrl := i.videoUrl;
      if currentVideoUrl != lastVideoUrl {
        if currentVideoUrl.Some? && currentVideoUrl.value != "" {
          fetchedUrl := currentVideoUrl;
          var transcriptText := Transcript.GetYoutubeTranscript(currentVideoUrl.value, env.transcripts);
          if transcriptText.Some? && transcriptText.value != "" {
            studyMaterial := transcriptText.value;
          }
        }
        lastVideoUrl := currentVideoUrl;
      }
      assert studyMaterial == MaterialAfterFetch(s, i, env);

      // Auto-generate: only for non-empty material not handled before.
      var currentStudyMaterial := studyMaterial;
      if currentStudyMaterial != "" && currentStudyMaterial != lastStudyMaterial {
        if i.hasApiKey {
          generatedFrom := Some(currentStudyMaterial);
          var data := Generation.GenerateStudyMaterial(currentStudyMaterial, env.llm, env.parse);
          if data.Some? && Generation.Truthy(data.value) {
            generatedData := data;
          }
        }
        lastStudyMaterial := currentStudyMaterial;
      }
    }
  }

  // Properties of one rerun.

  /**
   * A transcript is requested only for a new, non-empty URL; the URL is remembered
   * whether or not it was fetched; a fetch that fails (or yields an empty transcript)
   * leaves the study material as it was.
   */
  lemma FetchPolicy(s: State, i: Interaction, env: Services)
    ensures Step(s, i, env).fetchedUrl.Some? <==> i.videoUrl != s.lastVideoUrl && Present(i.videoUrl)
    ensures Step(s, i, env).fetchedUrl.Some? ==> Step(s, i, env).fetchedUrl == i.videoUrl
    ensures Step(s, i, env).state.lastVideoUrl == i.videoUrl
    ensures var o := Step(s, i, env);
            o.fetchedUrl.None? || !Present(Transcript.TranscriptOf(i.videoUrl.value, env.transcripts))
            ==> o.state.studyMaterial == MaterialAtStart(s, i)
    ensures var o := Step(s, i, env);
            o.fetchedUrl.Some? && Present(Transcript.TranscriptOf(i.videoUrl.value, env.transcripts))
            ==> o.state.studyMaterial == Transcript.TranscriptOf(i.videoUrl.value, env.transcripts).value
  {
  }

  /**
   * Generation runs only for non-empty material that differs from the last material
   * handled, and only with an API key; the material is then marked as handled whether
   * generation ran, failed or was skipped for the missing key.
   */
  lemma GenerationPolicy(s: State, i: Interaction, env: Services)
    ensures var o := Step(s, i, env);
            o.generatedFrom.Some? <==> o.state.studyMaterial != "" && o.state.studyMaterial != s.lastStudyMaterial && i.hasApiKey
    ensures var o := Step(s, i, env);
            o.generatedFrom.Some? ==> o.generatedFrom.value == o.state.studyMaterial
    ensures var o := Step(s, i, env);
            o.state.lastStudyMaterial == if o.state.studyMaterial != "" then o.state.studyMaterial else s.lastStudyMaterial
  {
  }

  /**
   * The stored study kit is replaced only by a usable (truthy) generation result: a
   * failed model call, a reply that is not JSON, or a falsy JSON value leave it as it was.
   */
  lemma FailedGenerationKeepsData(s: State, i: Interaction, env: Services)
    ensures var o := Step(s, i, env);
            o.generatedFrom.None?
              || !Usable(Generation.GenerateStudyMaterial(o.generatedFrom.value, env.llm, env.parse))
            ==> o.state.generatedData == s.generatedData
    ensures var o := Step(s, i, env);
            o.generatedFrom.Some? && Usable(Generation.GenerateStudyMaterial(o.generatedFrom.value, env.llm, env.parse))
            ==> o.state.generatedData == Generation.GenerateStudyMaterial(o.generatedFrom.value, env.llm, env.parse)
  {
  }

  /**
   * A rerun with the same URL and no new edit neither fetches nor generates and leaves
   * the state unchanged, whatever the services would answer: the `last_*` fields
   * prevent re-fetching and re-generating.
   */
  lemma RerunSettles(s: State, i: Interaction, env: Services, env': Services)
    ensures var o := Step(s, i, env);
            Step(o.state, Interaction(i.videoUrl, None, i.hasApiKey), env') == Outcome(o.state, None, None)
  {
  }

  /** On a fresh session, pasting non-empty text with a key set and no URL entered (the widget
      absent or empty) triggers exactly one generation from that text and no fetch. */
  lemma FirstPasteGenerates(url: Option<string>, text: string, env: Services)
    requires !Present(url) && text != ""
    ensures Step(Initial, Interaction(url, Some(text), true), env).generatedFrom == Some(text)
    ensures Step(Initial, Interaction(url, Some(text), true), env).fetchedUrl == None
  {
  }
}
