/**
 * Transcript assembly (app.py `get_youtube_transcript`).
 *
 * The transcript service is a parameter: given a video id it returns the
 * ordered entries, or None when the fetch raises (no captions, network
 * failure, ...). The entries are turned into one string: each entry's text
 * (an entry object's `text` attribute, or a dictionary's `text` key with `''`
 * as the default) joined with single spaces.
 */
module Transcript {
  import opened Wrappers
  import VideoId

  /** A transcript entry: an object with a `text` attribute, or a plain dictionary. */
  datatype Entry = Snippet(text: string) | Record(fields: map<string, string>)

  /** `entry.text` when the attribute exists, else `entry.get('text', '')`. */
  function EntryText(e: Entry): (r: string)
    ensures e.Snippet? ==> r == e.text
    ensures e.Record? && "text" in e.fields ==> r == e.fields["text"]
    ensures e.Record? && "text" !in e.fields ==> r == ""
  {
    match e
    case Snippet(t) => t
    case Record(fields) => if "text" in fields then fields["text"] else ""
  }

  /** The texts of the entries, in order. */
  function Texts(entries: seq<Entry>): (r: seq<string>)
    ensures |r| == |entries| && forall i :: 0 <= i < |entries| ==> r[i] == EntryText(entries[i])
  {
    seq(|entries|, i requires 0 <= i < |entries| => EntryText(entries[i]))
  }

  /** Python's `sep.join(parts)`. */
  function Join(sep: string, parts: seq<string>): string
  {
    if |parts| == 0 then ""
    else if |parts| == 1 then parts[0]
    else parts[0] + sep + Join(sep, parts[1..])
  }

  /** Python's `s.split(" ")`: the maximal space-free pieces, in order; `""` splits into `[""]`. */
  function Split(s: string): (r: seq<string>)
    ensures |r| >= 1
    decreases |s|
  {
    if ' ' !in s then [s]
    else
      var i := IndexOfSpace(s);
      [s[..i]] + Split(s[i + 1..])
  }

  /** The position of the first space of `s`. */
  function IndexOfSpace(s: string): (i: nat)
    requires ' ' in s
    ensures i < |s| && s[i] == ' ' && ' ' !in s[..i]
  {
    if s[0] == ' ' then 0 else 1 + IndexOfSpace(s[1..])
  }

  /** The joined transcript: `" ".join(text_list)` (app.py:201-208). */
  function Assemble(entries: seq<Entry>): (r: string)
    ensures |entries| == 0 ==> r == ""
    ensures |entries| == 1 ==> r == EntryText(entries[0])
  {
    Join(" ", Texts(entries))
  }

  /** The loop of app.py:201-208: collect each entry's text into `text_list`, then join. */
  method AssembleTranscript(entries: seq<Entry>) returns (text: string)
    ensures text == Assemble(entries)
  {
    var textList: seq<string> := [];
    for i := 0 to |entries|
      invariant textList == Texts(entries[..i])
    {
      match entries[i]
      case Snippet(t) =>
        textList := textList + [t];
      case Record(fields) =>
        textList := textList + [if "text" in fields then fields["text"] else ""];
    }
    assert entries[..|entries|] == entries;
    text := Join(" ", textList);
  }

  /** What `get_youtube_transcript(url)` returns, given the transcript service (app.py:183-212). */
  function TranscriptOf(url: string, service: string -> Option<seq<Entry>>): (r: Option<string>)
    ensures VideoId.ExtractVideoId(url).None? ==> r.None?
    ensures r.Some? <==> VideoId.ExtractVideoId(url).Some? && service(VideoId.ExtractVideoId(url).value).Some?
    ensures r.Some? ==> r.value == Assemble(service(VideoId.ExtractVideoId(url).value).value)
  {
    match VideoId.ExtractVideoId(url)
    case None => None
    case Some(id) =>
      match service(id)
      case None => None
      case Some(entries) => Some(Assemble(entries))
  }

  /** app.py:183-212, with the fetch as the `service` parameter. */
  method GetYoutubeTranscript(url: string, service: string -> Option<seq<Entry>>) returns (text: Option<string>)
    ensures text == TranscriptOf(url, service)
  {
    var videoId := VideoId.ExtractVideoId(url);
    if videoId.None? {
      return None;
    }
    var fetched := service(videoId.value);
    if fetched.None? {
      return None;
    }
    var joined := AssembleTranscript(fetched.value);
    text := Some(joined);
  }

  // Properties of the assembly.

  /** Joining two non-empty lists: the first's join, one separator, the second's join. */
  lemma {:induction false} JoinConcat(sep: string, a: seq<string>, b: seq<string>)
    requires |a| > 0 && |b| > 0
    ensures Join(sep, a + b) == Join(sep, a) + sep + Join(sep, b)
  {
    if |a| == 1 {
      assert (a + b)[1..] == b;
    } else {
      assert (a + b)[1..] == a[1..] + b;
      JoinConcat(sep, a[1..], b);
    }
  }

  /** Assembling appends the new entry's text after exactly one space, an entry without text included. */
  lemma AssembleAppend(entries: seq<Entry>, e: Entry)
    requires |entries| > 0
    ensures Assemble(entries + [e]) == Assemble(entries) + " " + EntryText(e)
  {
    assert Texts(entries + [e]) == Texts(entries) + [EntryText(e)];
    JoinConcat(" ", Texts(entries), [EntryText(e)]);
  }

  /** The length of a join: all parts plus one separator between each neighbouring pair. */
  lemma {:induction false} JoinLength(sep: string, parts: seq<string>)
    requires |parts| > 0
    ensures |Join(sep, parts)| == TotalLength(parts) + (|parts| - 1) * |sep|
  {
    if |parts| > 1 {
      JoinLength(sep, parts[1..]);
    }
  }

  function TotalLength(parts: seq<string>): nat
  {
    if |parts| == 0 then 0 else |parts[0]| + TotalLength(parts[1..])
  }

  /** No part has a space. */
  predicate SpaceFree(parts: seq<string>)
  {
    forall i :: 0 <= i < |parts| ==> ' ' !in parts[i]
  }

  /** Splitting a space-free piece, one space and a rest: the piece, then the rest's pieces. */
  lemma SplitAtFirstSpace(p0: string, rest: string)
    requires ' ' !in p0
    ensures Split(p0 + " " + rest) == [p0] + Split(rest)
  {
    var s := p0 + " " + rest;
    assert s[|p0|] == ' ';
    var i := IndexOfSpace(s);
    assert i == |p0|;
    assert s[..i] == p0 && s[i + 1..] == rest;
  }

  /**
   * Splitting the joined text at spaces gives back the parts, in order, when no
   * part has a space of its own: the parts are separated by exactly one space each.
   */
  lemma {:induction false} SplitJoin(parts: seq<string>)
    requires |parts| > 0 && SpaceFree(parts)
    ensures Split(Join(" ", parts)) == parts
  {
    if |parts| == 1 {
      assert ' ' !in parts[0];
    } else {
      assert ' ' !in parts[0];
      SplitAtFirstSpace(parts[0], Join(" ", parts[1..]));
      SplitJoin(parts[1..]);
      assert [parts[0]] + parts[1..] == parts;
    }
  }

  /** The assembled transcript of entries whose texts have no spaces splits back into those texts. */
  lemma AssembleSplits(entries: seq<Entry>)
    requires |entries| > 0
    requires forall i :: 0 <= i < |entries| ==> ' ' !in EntryText(entries[i])
    ensures Split(Assemble(entries)) == Texts(entries)
  {
    SplitJoin(Texts(entries));
  }

  /** When no id can be extracted, the service is never consulted: the result is None whatever it would return. */
  lemma NoIdNoFetch(url: string, service: string -> Option<seq<Entry>>, other: string -> Option<seq<Entry>>)
    requires VideoId.ExtractVideoId(url).None?
    ensures TranscriptOf(url, service) == None == TranscriptOf(url, other)
  {
  }

  /** Any failure of the fetch gives None. */
  lemma FetchFailureIsNone(url: string, service: string -> Option<seq<Entry>>)
    requires VideoId.ExtractVideoId(url).Some? && service(VideoId.ExtractVideoId(url).value).None?
    ensures TranscriptOf(url, service) == None
  {
  }
}
