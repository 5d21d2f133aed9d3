/**
 * Response preparation (app.py `generate_study_material`).
 *
 * The study text is cut to its first 30000 characters and embedded in a
 * fixed prompt; the model's reply has every "```json" and then every "```"
 * removed, and the rest goes to `json.loads`. Any exception on the way (a
 * failed model call, a reply that is not JSON) makes the function return
 * None. The model call and the JSON parser are parameters; the prompt's
 * wording is not modelled, only the text it embeds.
 */
module Generation {
  import opened Wrappers

  /** The character budget of the prompt text (app.py:223). */
  const MaxChars := 30000

  /** The fence that opens a JSON code block. */
  const JsonFence := "```json"

  /** A markdown code fence. */
  const Fence := "```"

  /** A JSON value as `json.loads` returns it, kept only as far as Python truthiness needs. */
  datatype Json =
    | Null
    | Bool(b: bool)
    | Number(n: int)
    | Str(s: string)
    | Array(items: seq<Json>)
    | Object(fields: seq<(string, Json)>)

  /** `bool(value)` in Python: `None`, `False`, zero and empty containers are false. */
  predicate Truthy(j: Json)
  {
    match j
    case Null => false
    case Bool(b) => b
    case Number(n) => n != 0
    case Str(s) => s != ""
    case Array(items) => items != []
    case Object(fields) => fields != []
  }

  /** The filled-in prompt template, represented by the study text it embeds. */
  datatype Prompt = Prompt(material: string)

  /** `text_content[:30000]`: the first `min(len, 30000)` characters. */
  function Truncate(text: string): (r: string)
    ensures |r| == if |text| <= MaxChars then |text| else MaxChars
    ensures r <= text
  {
    if |text| <= MaxChars then text else text[..MaxChars]
  }

  function PromptFor(text: string): Prompt
  {
    Prompt(Truncate(text))
  }

  /** `pat` occurs in `s` starting at index `i`. */
  predicate OccursAt(s: string, pat: string, i: int)
  {
    0 <= i && i + |pat| <= |s| && s[i..i + |pat|] == pat
  }

  /** `pat` occurs in `s` (Python's `pat in s`). */
  predicate Contains(s: string, pat: string)
  {
    exists i :: 0 <= i <= |s| && OccursAt(s, pat, i)
  }

  /** Python's `s.replace(pat, rep)`: left to right, non-overlapping. */
  function Replace(s: string, pat: string, rep: string): (r: string)
    requires pat != []
    decreases |s|
    ensures rep == [] ==> |r| <= |s|
    ensures |s| < |pat| ==> r == s
  {
    if |s| < |pat| then s
    else if s[..|pat|] == pat then rep + Replace(s[|pat|..], pat, rep)
    else [s[0]] + Replace(s[1..], pat, rep)
  }

  /** `.replace("```", "")`. */
  function StripFence(s: string): string
  {
    Replace(s, Fence, "")
  }

  /** app.py:238: `response.text.replace("```json", "").replace("```", "")`. */
  function Clean(reply: string): (r: string)
    ensures !Contains(r, Fence)
    ensures |r| <= |reply|
  {
    var withoutOpening := Replace(reply, JsonFence, "");
    StripFenceLeavesNoFence(withoutOpening);
    StripFence(withoutOpening)
  }

  /** app.py:214-242, with the model call as `llm` (None when it raises) and `json.loads` as `parse`. */
  function GenerateStudyMaterial(text: string, llm: Prompt -> Option<string>, parse: string -> Option<Json>): (r: Option<Json>)
    ensures llm(PromptFor(text)).None? ==> r.None?
    ensures r.Some? ==> llm(PromptFor(text)).Some? && parse(Clean(llm(PromptFor(text)).value)) == r
  {
    match llm(PromptFor(text))
    case None => None
    case Some(reply) => parse(Clean(reply))
  }

  // Properties of the truncation.

  /** Whatever follows the first 30000 characters has no effect on generation. */
  lemma GenerationIgnoresTail(text: string, tail: string, llm: Prompt -> Option<string>, parse: string -> Option<Json>)
    requires |text| >= MaxChars
    ensures GenerateStudyMaterial(text + tail, llm, parse) == GenerateStudyMaterial(text, llm, parse)
  {
    assert (text + tail)[..MaxChars] == text[..MaxChars];
    assert Truncate(text + tail) == Truncate(text);
  }

  // Properties of the replacement.

  /** An occurrence in the tail `s[1..]` is an occurrence in `s` one position later. */
  lemma OccursShift(s: string, pat: string, i: int)
    requires |s| > 0 && i >= 0
    ensures OccursAt(s[1..], pat, i) <==> OccursAt(s, pat, i + 1)
  {
    if 0 <= i && i + |pat| <= |s[1..]| {
      assert s[1..][i..i + |pat|] == s[i + 1..i + 1 + |pat|];
    }
  }

  /** A string without the pattern is left unchanged. */
  lemma {:induction false} ReplaceAbsent(s: string, pat: string, rep: string)
    requires pat != [] && !Contains(s, pat)
    ensures Replace(s, pat, rep) == s
    decreases |s|
  {
    if |s| >= |pat| {
      assert !OccursAt(s, pat, 0);
      forall i | 0 <= i <= |s[1..]| ensures !OccursAt(s[1..], pat, i) {
        OccursShift(s, pat, i);
      }
      ReplaceAbsent(s[1..], pat, rep);
      assert [s[0]] + s[1..] == s;
    }
  }

  /** Replacement passes over a prefix in which no occurrence of the pattern starts. */
  lemma {:induction false} ReplaceSkipsPrefix(a: string, b: string, pat: string, rep: string)
    requires pat != []
    requires forall i :: 0 <= i < |a| ==> !OccursAt(a + b, pat, i)
    ensures Replace(a + b, pat, rep) == a + Replace(b, pat, rep)
  {
    if |a| == 0 {
      assert a + b == b;
    } else {
      var s := a + b;
      if |s| < |pat| {
        assert Replace(b, pat, rep) == b;
      } else {
        assert !OccursAt(s, pat, 0);
        assert s[1..] == a[1..] + b;
        forall i | 0 <= i < |a[1..]| ensures !OccursAt(a[1..] + b, pat, i) {
          OccursShift(s, pat, i);
        }
        ReplaceSkipsPrefix(a[1..], b, pat, rep);
        assert [a[0]] + a[1..] == a;
      }
    }
  }

  /** A non-empty string that does not open with a fence keeps its first character in front. */
  lemma StripFenceStep(t: string)
    requires |t| > 0 && !(|t| >= 3 && t[..3] == Fence)
    ensures StripFence(t) == [t[0]] + StripFence(t[1..])
  {
    if |t| < 3 {
      assert [t[0]] + t[1..] == t;
    }
  }

  /** Removing fences cannot create a new one: what is left holds no "```". */
  lemma {:induction false} StripFenceLeavesNoFence(s: string)
    ensures !Contains(StripFence(s), Fence)
    decreases |s|
  {
    if |s| < 3 {
      assert StripFence(s) == s;
    } else if s[..3] == Fence {
      assert StripFence(s) == StripFence(s[3..]);
      StripFenceLeavesNoFence(s[3..]);
    } else {
      var rest := StripFence(s[1..]);
      StripFenceLeavesNoFence(s[1..]);
      StripFenceStep(s);
      var r := [s[0]] + rest;
      // No fence at position 0: after a backtick that does not open a fence,
      // at most one more backtick follows.
      if |r| >= 3 {
        if s[0] != '`' {
          assert r[0..3][0] != Fence[0];
        } else if s[1] != '`' {
          StripFenceStep(s[1..]);
          assert r[0..3][1] != Fence[1];
        } else {
          assert s[2] != '`' by { assert s[..3][2] == s[2]; }
          StripFenceStep(s[1..]);
          StripFenceStep(s[2..]);
          assert r[0..3][2] != Fence[2];
        }
      }
      assert !OccursAt(r, Fence, 0);
      forall i | 1 <= i <= |r| ensures !OccursAt(r, Fence, i) {
        OccursShift(r, Fence, i - 1);
        assert r[1..] == rest;
      }
    }
  }

  // Properties of the cleaning.

  /** A reply without "```" is passed on unchanged. */
  lemma CleanWithoutFence(reply: string)
    requires !Contains(reply, Fence)
    ensures Clean(reply) == reply
  {
    forall i | 0 <= i <= |reply| ensures !OccursAt(reply, JsonFence, i) {
      if OccursAt(reply, JsonFence, i) {
        assert reply[i..i + 7][..3] == reply[i..i + 3];
        assert OccursAt(reply, Fence, i);
      }
    }
    ReplaceAbsent(reply, JsonFence, "");
    ReplaceAbsent(reply, Fence, "");
  }

  /** A payload without backticks, wrapped as "```json" + payload + "```", cleans to the payload. */
  lemma CleanUnwraps(payload: string)
    requires '`' !in payload
    ensures Clean(JsonFence + payload + Fence) == payload
  {
    var wrapped := JsonFence + payload + Fence;
    assert wrapped[..7] == JsonFence;
    assert wrapped[7..] == payload + Fence;
    var tail := payload + Fence;
    forall i | 0 <= i <= |tail| ensures !OccursAt(tail, JsonFence, i) {
      if i + 7 <= |tail| {
        assert tail[i..i + 7][0] == tail[i];
        assert tail[i..i + 7][6] == tail[i + 6];
      }
    }
    ReplaceAbsent(tail, JsonFence, "");
    forall i | 0 <= i < |payload| ensures !OccursAt(tail, Fence, i) {
      if i + 3 <= |tail| {
        assert tail[i..i + 3][0] == payload[i];
      }
    }
    ReplaceSkipsPrefix(payload, Fence, Fence, "");
    assert Replace(wrapped, JsonFence, "") == tail;
    assert Fence[..3] == Fence && Fence[3..] == [];
    assert Replace(Fence, Fence, "") == [];
    assert StripFence(tail) == payload + [];
  }

  // Properties of the whole step.

  /** A failed model call, or a cleaned reply that does not parse, yields None. */
  lemma GenerationFailure(text: string, llm: Prompt -> Option<string>, parse: string -> Option<Json>)
    requires llm(PromptFor(text)).None? || parse(Clean(llm(PromptFor(text)).value)).None?
    ensures GenerateStudyMaterial(text, llm, parse).None?
  {
  }

  /** A model call that answers has its cleaned reply parsed, and that parse is the result. */
  lemma GenerationSuccess(text: string, reply: string, llm: Prompt -> Option<string>, parse: string -> Option<Json>)
    requires llm(PromptFor(text)) == Some(reply)
    ensures GenerateStudyMaterial(text, llm, parse) == parse(Clean(reply))
  {
  }

  /** A fenced reply is parsed exactly as its bare payload would be. */
  lemma FencedReplyParsesAsPayload(text: string, payload: string, llm: Prompt -> Option<string>, parse: string -> Option<Json>)
    requires '`' !in payload
    requires llm(PromptFor(text)) == Some(JsonFence + payload + Fence)
    ensures GenerateStudyMaterial(text, llm, parse) == parse(payload)
  {
    CleanUnwraps(payload);
  }
}
