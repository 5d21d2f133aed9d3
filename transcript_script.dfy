/**
 * The stand-alone transcript script (test_transcript.py). It carries its own
 * copy of `extract_video_id` and `get_youtube_transcript`; the model shows
 * that the copy behaves exactly like the application's functions, and that
 * the script's sample URL yields the id it expects.
 */
module TranscriptScript {
  import opened Wrappers
  import VideoId
  import Transcript

  /** The pattern written at test_transcript.py:5. */
  const ScriptPattern := VideoId.IdPattern(["v=", "/"],
                                           [VideoId.Range('0', '9'), VideoId.Range('A', 'Z'), VideoId.Range('a', 'z'),
                                            VideoId.Range('_', '_'), VideoId.Range('-', '-')],
                                           11)

  /** test_transcript.py:4-9. */
  function ExtractVideoId(url: string): (r: Option<string>)
    ensures r.Some? ==> |r.value| == 11
  {
    VideoId.Search(url, ScriptPattern)
  }

  /** The script's extraction agrees with the application's on every URL. */
  lemma ExtractVideoIdAgrees(url: string)
    ensures ExtractVideoId(url) == VideoId.ExtractVideoId(url)
  {
  }

  /**
   * test_transcript.py:11-32: no fetch without an id, then the join loop, and
   * None for any failure of the fetch. Its result is the application's on every
   * URL and every service behaviour. The script's loop (test_transcript.py:21-28)
   * is the same text as the application's (app.py:201-208), so it is modelled by
   * calling `Transcript.AssembleTranscript` rather than by a second copy; the two
   * loops agree because their source is identical, not by a separate proof.
   */
  method GetYoutubeTranscript(url: string, service: string -> Option<seq<Transcript.Entry>>) returns (text: Option<string>)
    ensures text == Transcript.TranscriptOf(url, service)
  {
    var videoId := ExtractVideoId(url);
    ExtractVideoIdAgrees(url);
    if videoId.None? {
      return None;
    }
    var fetched := service(videoId.value);
    if fetched.None? {
      return None;
    }
    var joined := Transcript.AssembleTranscript(fetched.value);
    text := Some(joined);
  }

  /** The URL the script tries (test_transcript.py:34). */
  const SampleUrl := "https://youtu.be/nTOVIGsqCuY?si=HgPAR8UhddC24pB0"

  /** The host part of the sample URL, up to the slash before the id. */
  const SampleHost := "https://youtu.be/"

  lemma SampleUrlParts()
    ensures SampleUrl == SampleHost + "nTOVIGsqCuY" + "?si=HgPAR8UhddC24pB0"
    ensures SampleHost == "https:" + "//" + "youtu.be" + "/"
  {
  }

  /** No position before 17 of the sample URL holds a candidate. */
  lemma SampleNoEarlierCandidate(g: nat)
    requires g < 17
    ensures !VideoId.Candidate(SampleUrl, g)
  {
    var url, host := SampleUrl, SampleHost;
    SampleUrlParts();
    assert url[..17] == host;
    if g == 7 {
      assert url[7] == '/';
      assert !VideoId.IsIdChar(url[7]);
    } else if g == 8 {
      assert url[13] == '.';
      assert !VideoId.IsIdChar(url[13]);
    } else {
      assert 'v' !in host && '/' !in "https:" && '/' !in "youtu.be";
      assert g >= 2 ==> url[g - 2] != 'v';
      assert g >= 1 ==> url[g - 1] != '/';
    }
  }

  /**
   * The sample URL yields `nTOVIGsqCuY`: the slashes before it are each followed
   * by a character outside the id alphabet within eleven positions, and the URL
   * has no `v=`.
   */
  lemma SampleUrlId()
    ensures ExtractVideoId(SampleUrl) == Some("nTOVIGsqCuY")
  {
    var url := SampleUrl;
    SampleUrlParts();
    assert url[17..28] == "nTOVIGsqCuY";
    assert url[16] == '/';
    assert VideoId.Candidate(url, 17);
    forall g: nat | g < 17 ensures !VideoId.Candidate(url, g) {
      SampleNoEarlierCandidate(g);
    }
    VideoId.ExtractLeftmost(url, 17);
    ExtractVideoIdAgrees(url);
  }
}
