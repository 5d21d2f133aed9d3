/**
 * Video-id extraction (app.py `extract_video_id`).
 *
 * The source runs `re.search(r"(?:v=|\/)([0-9A-Za-z_-]{11}).*", url)` and
 * returns group 1. The pattern is kept as data: a list of marker
 * alternatives, a character class made of ranges, and the width of the
 * captured run. The trailing `.*` matches anything (possibly nothing) and
 * never makes a match fail, so it is not represented.
 *
 * `re.search` tries every start position from left to right (up to and
 * including the end of the string); at one start it tries the alternatives
 * in the order they are written, backtracking into the next alternative
 * when the rest of the pattern fails. The first success is the match.
 */
module VideoId {
  import opened Wrappers

  /** An inclusive range `lo-hi` of a regex character class. */
  datatype Range = Range(lo: char, hi: char)

  /** The regex shape `(?:m_0|m_1|...)([class]{width}).*`. */
  datatype IdPattern = IdPattern(markers: seq<string>, charClass: seq<Range>, width: nat)

  /** Where a match starts and which alternative of the marker group matched. */
  datatype Hit = Hit(start: nat, alt: nat)

  /** Length of a YouTube video id, the `{11}` of the pattern. */
  const IdLength := 11

  /** The pattern of app.py:177. */
  const AppPattern := IdPattern(["v=", "/"],
                                [Range('0', '9'), Range('A', 'Z'), Range('a', 'z'), Range('_', '_'), Range('-', '-')],
                                IdLength)

  predicate InClass(c: char, charClass: seq<Range>)
  {
    |charClass| > 0 && ((charClass[0].lo <= c <= charClass[0].hi) || InClass(c, charClass[1..]))
  }

  /** `url[g..g + width]` exists and consists of class characters. */
  predicate RunAt(url: string, g: nat, p: IdPattern)
  {
    g + p.width <= |url| && forall j :: g <= j < g + p.width ==> InClass(url[j], p.charClass)
  }

  /** Alternative `k` of the marker group, followed by the run, matches at `s`. */
  predicate AltMatches(url: string, s: nat, p: IdPattern, k: nat)
  {
    k < |p.markers| && s + |p.markers[k]| <= |url| && url[s..s + |p.markers[k]|] == p.markers[k]
    && RunAt(url, s + |p.markers[k]|, p)
  }

  /** Some alternative matches at start `s`. */
  ghost predicate MatchAt(url: string, s: nat, p: IdPattern)
  {
    exists k: nat :: k < |p.markers| && AltMatches(url, s, p, k)
  }

  /** The first alternative at index `from` or later that matches at `s` (regex backtracking order). */
  function FirstAlt(url: string, s: nat, p: IdPattern, from: nat): (r: Option<nat>)
    decreases |p.markers| - from
    ensures r.Some? ==> from <= r.value && AltMatches(url, s, p, r.value)
    ensures r.Some? ==> forall k: nat :: from <= k < r.value ==> !AltMatches(url, s, p, k)
    ensures r.None? ==> forall k: nat :: from <= k ==> !AltMatches(url, s, p, k)
  {
    if from >= |p.markers| then None
    else if AltMatches(url, s, p, from) then Some(from)
    else FirstAlt(url, s, p, from + 1)
  }

  /** The leftmost match starting at `from` or later. */
  function SearchFrom(url: string, p: IdPattern, from: nat): (r: Option<Hit>)
    decreases |url| + 1 - from
    ensures r.Some? ==> from <= r.value.start <= |url| && AltMatches(url, r.value.start, p, r.value.alt)
    ensures r.Some? ==> forall k: nat :: k < r.value.alt ==> !AltMatches(url, r.value.start, p, k)
    ensures r.Some? ==> forall s: nat :: from <= s < r.value.start ==> !MatchAt(url, s, p)
    ensures r.None? ==> forall s: nat :: from <= s <= |url| ==> !MatchAt(url, s, p)
  {
    if from > |url| then None
    else match FirstAlt(url, from, p, 0)
      case Some(k) => Some(Hit(from, k))
      case None => SearchFrom(url, p, from + 1)
  }

  /** Group 1 of a hit: the run right after the matched marker. */
  function Group(url: string, p: IdPattern, h: Hit): string
    requires AltMatches(url, h.start, p, h.alt)
  {
    url[h.start + |p.markers[h.alt]|..h.start + |p.markers[h.alt]| + p.width]
  }

  /** `re.search(pattern, url)` followed by `match.group(1)`, or None when there is no match. */
  function Search(url: string, p: IdPattern): (r: Option<string>)
    ensures r.Some? ==> |r.value| == p.width
  {
    match SearchFrom(url, p, 0)
    case Some(h) => Some(Group(url, p, h))
    case None => None
  }

  /** A character of the class `[0-9A-Za-z_-]`. */
  predicate IsIdChar(c: char)
  {
    ('0' <= c <= '9') || ('A' <= c <= 'Z') || ('a' <= c <= 'z') || c == '_' || c == '-'
  }

  /** Position `g` comes right after a `v=` or a `/`. */
  predicate AfterMarker(url: string, g: nat)
  {
    (2 <= g <= |url| && url[g - 2..g] == "v=") || (1 <= g <= |url| && url[g - 1] == '/')
  }

  /** Eleven id characters start at `g`, right after a marker. */
  predicate Candidate(url: string, g: nat)
  {
    AfterMarker(url, g) && g + IdLength <= |url| && forall j :: g <= j < g + IdLength ==> IsIdChar(url[j])
  }

  /** app.py:176-181. */
  function ExtractVideoId(url: string): (r: Option<string>)
    ensures r.Some? ==> |r.value| == IdLength
  {
    Search(url, AppPattern)
  }

  lemma AppClassIsIdChar(c: char)
    ensures InClass(c, AppPattern.charClass) <==> IsIdChar(c)
  {
    var cls := AppPattern.charClass;
    assert InClass(c, cls) <==> ('0' <= c <= '9') || InClass(c, cls[1..]);
    assert InClass(c, cls[1..]) <==> ('A' <= c <= 'Z') || InClass(c, cls[2..]);
    assert InClass(c, cls[2..]) <==> ('a' <= c <= 'z') || InClass(c, cls[3..]);
    assert InClass(c, cls[3..]) <==> c == '_' || InClass(c, cls[4..]);
    assert InClass(c, cls[4..]) <==> c == '-' || InClass(c, cls[5..]);
    assert !InClass(c, cls[5..]);
  }

  /** A match of the app pattern at start `s` with alternative `k` puts a candidate at `s + |marker|`. */
  lemma AltMatchIsCandidate(url: string, s: nat, k: nat)
    requires AltMatches(url, s, AppPattern, k)
    ensures Candidate(url, s + |AppPattern.markers[k]|)
  {
    var g := s + |AppPattern.markers[k]|;
    forall j | g <= j < g + IdLength ensures IsIdChar(url[j]) {
      AppClassIsIdChar(url[j]);
    }
    if k == 0 {
      assert url[g - 2..g] == "v=";
    } else {
      assert url[s..s + 1] == "/";
      assert url[g - 1] == '/';
    }
  }

  /** A candidate at `g` is the id of a match of the app pattern starting one or two characters earlier. */
  lemma CandidateIsMatch(url: string, g: nat) returns (s: nat, k: nat)
    requires Candidate(url, g)
    ensures k < |AppPattern.markers| && s + |AppPattern.markers[k]| == g
    ensures AltMatches(url, s, AppPattern, k)
  {
    forall j | g <= j < g + IdLength ensures InClass(url[j], AppPattern.charClass) {
      AppClassIsIdChar(url[j]);
    }
    if 2 <= g && url[g - 2..g] == "v=" {
      s, k := g - 2, 0;
    } else {
      assert url[g - 1..g] == "/";
      s, k := g - 1, 1;
    }
  }

  /** An extracted id is group 1 of the leftmost hit, which lies right after its marker. */
  lemma ExtractedHit(url: string) returns (h: Hit)
    requires ExtractVideoId(url).Some?
    ensures AltMatches(url, h.start, AppPattern, h.alt)
    ensures SearchFrom(url, AppPattern, 0) == Some(h)
    ensures ExtractVideoId(url).value
            == url[h.start + |AppPattern.markers[h.alt]|..h.start + |AppPattern.markers[h.alt]| + IdLength]
  {
    h := SearchFrom(url, AppPattern, 0).value;
  }

  /**
   * The extracted id has exactly eleven characters of `[0-9A-Za-z_-]`, and it is the
   * text of the URL right after a `v=` or a `/`.
   */
  lemma ExtractedIdShape(url: string)
    requires ExtractVideoId(url).Some?
    ensures |ExtractVideoId(url).value| == IdLength
    ensures forall i :: 0 <= i < IdLength ==> IsIdChar(ExtractVideoId(url).value[i])
    ensures exists g: nat :: Candidate(url, g) && url[g..g + IdLength] == ExtractVideoId(url).value
  {
    var h := ExtractedHit(url);
    AltMatchIsCandidate(url, h.start, h.alt);
  }

  /** No id is extracted exactly when no position of the URL holds a candidate. */
  lemma ExtractNoneIff(url: string)
    ensures ExtractVideoId(url).None? <==> forall g: nat :: g <= |url| ==> !Candidate(url, g)
  {
    if exists g: nat :: g <= |url| && Candidate(url, g) {
      var g: nat :| g <= |url| && Candidate(url, g);
      var s, k := CandidateIsMatch(url, g);
      assert MatchAt(url, s, AppPattern);
    } else if ExtractVideoId(url).Some? {
      ExtractedIdShape(url);
    }
  }

  /** The two alternatives of the app pattern never match at the same start. */
  lemma MarkersExclusive(url: string, s: nat)
    ensures !(AltMatches(url, s, AppPattern, 0) && AltMatches(url, s, AppPattern, 1))
  {
    if AltMatches(url, s, AppPattern, 0) {
      assert url[s..s + 2][0] == 'v';
      assert url[s..s + 1][0] != '/';
    }
  }

  /**
   * A match that starts no later than another (and, at the same start, with an
   * alternative written no later) does not place its id later.
   */
  lemma EarlierMatchEarlierId(url: string, s: nat, k: nat, s0: nat, k0: nat)
    requires AltMatches(url, s, AppPattern, k) && AltMatches(url, s0, AppPattern, k0)
    requires s <= s0 && (s == s0 ==> k <= k0)
    ensures s + |AppPattern.markers[k]| <= s0 + |AppPattern.markers[k0]|
  {
    MarkersExclusive(url, s);
  }

  /** When several candidates exist, the leftmost one is extracted. */
  lemma ExtractLeftmost(url: string, g: nat)
    requires Candidate(url, g)
    requires forall g': nat :: g' < g ==> !Candidate(url, g')
    ensures ExtractVideoId(url) == Some(url[g..g + IdLength])
  {
    var s0, k0 := CandidateIsMatch(url, g);
    assert MatchAt(url, s0, AppPattern);
    var h := ExtractedHit(url);
    assert h.start <= s0;
    assert h.start == s0 ==> h.alt <= k0;
    EarlierMatchEarlierId(url, h.start, h.alt, s0, k0);
    AltMatchIsCandidate(url, h.start, h.alt);
  }
}
