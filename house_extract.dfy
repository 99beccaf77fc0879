/** What the extractor does around the language-model call: trim the reply,
    strip Markdown code fences, decode, and fall back to an all-None record
    when decoding fails. The call itself and the JSON decoder are parameters. */
module HouseExtract {
  import opened Text
  import opened HouseSchema
  import opened HouseCoercion

  const Fence: string := "```"
  const JsonFence: string := "```json"

  predicate StartsWith(s: string, p: string) {
    |p| <= |s| && s[..|p|] == p
  }

  predicate OccursAt(s: string, p: string, i: nat) {
    i + |p| <= |s| && s[i..i + |p|] == p
  }

  predicate Contains(s: string, p: string) {
    exists i :: 0 <= i <= |s| - |p| && OccursAt(s, p, i)
  }

  /** `s.replace(p, "")`: remove every occurrence of `p`, scanning left to right. */
  function RemoveAll(s: string, p: string): (r: string)
    requires p != []
    ensures |r| <= |s|
    ensures !Contains(s, p) ==> r == s
    decreases |s|
  {
    if |s| < |p| then s
    else if s[..|p|] == p then
      assert OccursAt(s, p, 0);
      RemoveAll(s[|p|..], p)
    else
      var rest := RemoveAll(s[1..], p);
      assert !Contains(s, p) ==> !Contains(s[1..], p) by {
        if Contains(s[1..], p) {
          var i :| 0 <= i <= |s[1..]| - |p| && OccursAt(s[1..], p, i);
          assert s[i + 1..i + 1 + |p|] == s[1..][i..i + |p|];
          assert OccursAt(s, p, i + 1);
        }
      }
      assert !Contains(s, p) ==> [s[0]] + rest == s;
      [s[0]] + rest
  }

  /** No three consecutive backticks, stated character by character. */
  predicate FenceFree(s: string) {
    forall i :: 0 <= i && i + 2 < |s| ==> !(s[i] == '`' && s[i + 1] == '`' && s[i + 2] == '`')
  }

  lemma FenceFreeMeansNoFence(s: string)
    requires FenceFree(s)
    ensures !Contains(s, Fence)
  {
    forall i | 0 <= i <= |s| - |Fence|
      ensures !OccursAt(s, Fence, i)
    {
      assert s[i..i + 3][0] == s[i] && s[i..i + 3][1] == s[i + 1] && s[i..i + 3][2] == s[i + 2];
    }
  }

  /** The first one or two characters of a fence-free start survive removal. */
  lemma {:induction false} RemoveFenceHead(t: string)
    ensures t != [] && t[0] != '`' ==> RemoveAll(t, Fence) != [] && RemoveAll(t, Fence)[0] == t[0]
    ensures |t| >= 2 && t[0] == '`' && t[1] != '`' ==>
      |RemoveAll(t, Fence)| >= 2 && RemoveAll(t, Fence)[..2] == t[..2]
  {
    if |t| >= 3 && t[0] == '`' && t[1] != '`' {
      assert t[..3] != Fence;
      RemoveFenceHead(t[1..]);
    }
  }

  /** Removing every "```" cannot join backticks into a new "```". */
  lemma {:induction false} RemoveFenceLeavesNone(s: string)
    ensures FenceFree(RemoveAll(s, Fence))
    decreases |s|
  {
    if |s| >= 3 {
      if s[..3] == Fence {
        RemoveFenceLeavesNone(s[3..]);
      } else {
        var rest := RemoveAll(s[1..], Fence);
        RemoveFenceLeavesNone(s[1..]);
        RemoveFenceHead(s[1..]);
        var r := [s[0]] + rest;
        assert RemoveAll(s, Fence) == r;
        assert s[0] == '`' ==> s[1] != '`' || s[2] != '`' by {
          assert s[..3][0] == s[0] && s[..3][1] == s[1] && s[..3][2] == s[2];
        }
        forall i | 0 <= i && i + 2 < |r|
          ensures !(r[i] == '`' && r[i + 1] == '`' && r[i + 2] == '`')
        {
          if i > 0 {
            assert r[i] == rest[i - 1] && r[i + 1] == rest[i] && r[i + 2] == rest[i + 1];
          }
        }
      }
    }
  }

  /** A slice of fence-free text is fence-free. */
  lemma SliceFenceFree(s: string, i: nat, j: nat)
    requires i <= j <= |s| && FenceFree(s)
    ensures FenceFree(s[i..j])
  {
    forall k | 0 <= k && k + 2 < j - i
      ensures !(s[i..j][k] == '`' && s[i..j][k + 1] == '`' && s[i..j][k + 2] == '`')
    {
      assert s[i..j][k] == s[i + k] && s[i..j][k + 1] == s[i + k + 1] && s[i..j][k + 2] == s[i + k + 2];
    }
  }

  /** `replace(p, "")` keeps, unchanged, a prefix in which no occurrence of
      `p` starts. */
  lemma {:induction false} RemoveAllKeeps(s: string, n: nat, p: string)
    requires p != [] && n <= |s|
    requires forall i :: 0 <= i < n ==> !OccursAt(s, p, i)
    ensures RemoveAll(s, p) == s[..n] + RemoveAll(s[n..], p)
  {
    if n == 0 {
      assert s[..0] == [] && s[0..] == s;
    } else {
      var t := s[1..];
      var tail := RemoveAll(s[n..], p);
      assert RemoveAll(t, p) == t[..n - 1] + tail by {
        NoOccurrenceShift(s, n, p);
        RemoveAllKeeps(t, n - 1, p);
        assert t[n - 1..] == s[n..];
      }
      assert RemoveAll(s, p) == [s[0]] + RemoveAll(t, p) by {
        RemoveAllNoHead(s, p);
      }
      assert [s[0]] + (t[..n - 1] + tail) == s[..n] + tail by {
        assert [s[0]] + t[..n - 1] == s[..n];
        Associate([s[0]], t[..n - 1], tail);
      }
    }
  }

  /** Where no occurrence starts, `replace(p, "")` keeps the first character. */
  lemma RemoveAllNoHead(s: string, p: string)
    requires p != [] && s != [] && !OccursAt(s, p, 0)
    ensures RemoveAll(s, p) == [s[0]] + RemoveAll(s[1..], p)
  {
    if |s| >= |p| {
      assert s[..|p|] != p;
    }
  }

  /** No occurrence before `n` in `s` means none before `n - 1` in `s[1..]`. */
  lemma NoOccurrenceShift(s: string, n: nat, p: string)
    requires 0 < n <= |s|
    requires forall i :: 0 <= i < n ==> !OccursAt(s, p, i)
    ensures forall i :: 0 <= i < n - 1 ==> !OccursAt(s[1..], p, i)
  {
    forall i | 0 <= i < n - 1
      ensures !OccursAt(s[1..], p, i)
    {
      assert !OccursAt(s, p, i + 1);
      if i + |p| <= |s[1..]| {
        assert s[1..][i..i + |p|] == s[i + 1..i + 1 + |p|];
      }
    }
  }

  /** `replace(p, "")` deletes an occurrence of `p` at the start. */
  lemma RemoveAllHead(p: string, y: string)
    requires p != []
    ensures RemoveAll(p + y, p) == RemoveAll(y, p)
  {
    assert (p + y)[..|p|] == p && (p + y)[|p|..] == y;
  }

  /** A fence-like pattern cannot occur where there are not three backticks. */
  lemma NoTicksNoOccurrence(s: string, p: string, i: nat)
    requires |p| >= 3 && p[..3] == Fence
    requires i + |p| <= |s| ==> !(s[i] == '`' && s[i + 1] == '`' && s[i + 2] == '`')
    ensures !OccursAt(s, p, i)
  {
    if i + |p| <= |s| {
      assert s[i..i + |p|][0] == s[i] && s[i..i + |p|][1] == s[i + 1] && s[i..i + |p|][2] == s[i + 2];
      assert p[0] == '`' && p[1] == '`' && p[2] == '`';
    }
  }

  /** The payload between "```json\n" and "\n```" holds no "```json" of its own. */
  lemma NoJsonFenceAfterHead(body: string)
    requires FenceFree(body)
    ensures !Contains("\n" + body + "\n```", JsonFence)
  {
    var t := "\n" + body + "\n```";
    forall i | 0 <= i <= |t| - |JsonFence|
      ensures !OccursAt(t, JsonFence, i)
    {
      if i == 0 {
        assert t[0] == '\n';
      } else {
        assert t[i] == body[i - 1] && t[i + 1] == body[i] && t[i + 2] == body[i + 1];
      }
      NoTicksNoOccurrence(t, JsonFence, i);
    }
  }

  /** A bare opening fence followed by a newline starts no "```json". */
  lemma NoJsonFenceBare(body: string)
    requires FenceFree(body)
    ensures !Contains("```\n" + body + "\n```", JsonFence)
  {
    var t := "```\n" + body + "\n```";
    forall i | 0 <= i <= |t| - |JsonFence|
      ensures !OccursAt(t, JsonFence, i)
    {
      if i == 0 {
        assert t[i..i + 7][3] == '\n' != JsonFence[3];
      } else {
        if i <= 3 {
          assert t[3] == '\n';
        } else {
          assert t[i] == body[i - 4] && t[i + 1] == body[i - 3] && t[i + 2] == body[i - 2];
        }
        NoTicksNoOccurrence(t, JsonFence, i);
      }
    }
  }

  /** In "\n" + payload + "\n```" the only "```" is the closing one. */
  lemma OnlyClosingFence(body: string)
    requires FenceFree(body)
    ensures forall i :: 0 <= i < |"\n" + body + "\n"| ==> !OccursAt("\n" + body + "\n```", Fence, i)
  {
    var x := "\n" + body + "\n";
    var t := "\n" + body + "\n```";
    assert t == x + Fence;
    forall i | 0 <= i < |x|
      ensures !OccursAt(t, Fence, i)
    {
      if i == 0 {
        assert t[0] == '\n';
      } else if i + 2 <= |body| {
        assert t[i] == body[i - 1] && t[i + 1] == body[i] && t[i + 2] == body[i + 1];
      } else {
        assert t[|body| + 1] == '\n';
      }
      NoTicksNoOccurrence(t, Fence, i);
    }
  }


  /** Removing every "```" from "\n" + payload + "\n```" leaves the payload
      between its two newlines. */
  lemma RemoveClosingFence(body: string)
    requires FenceFree(body)
    ensures RemoveAll("\n" + body + "\n```", Fence) == "\n" + body + "\n"
  {
    var x := "\n" + body + "\n";
    var t := "\n" + body + "\n```";
    assert t == x + Fence;
    OnlyClosingFence(body);
    RemoveAllKeeps(t, |x|, Fence);
    assert t[..|x|] == x && t[|x|..] == Fence;
    RemoveAllHead(Fence, []);
    assert Fence + [] == Fence;
    assert x + [] == x;
  }

  /** Trimming "\n" + payload + "\n" gives the payload. */
  lemma StripNewlines(body: string)
    requires body != [] && Stripped(body)
    ensures Strip("\n" + body + "\n") == body
  {
    assert "\n" + body + "\n" == ['\n'] + body + ['\n'];
    StripPadded('\n', body, '\n');
  }

  /** `extract_features_from_prompt`, after the call: trim the reply; if it
      opens with a fence, delete every "```json", then every "```", and trim
      again. */
  function StripFences(reply: string): (text: string)
    ensures Stripped(text)
    ensures StartsWith(Strip(reply), Fence) ==> !Contains(text, Fence)
    ensures !StartsWith(Strip(reply), Fence) ==> text == Strip(reply)
  {
    var trimmed := Strip(reply);
    if StartsWith(trimmed, Fence) then
      var unfenced := RemoveAll(RemoveAll(trimmed, JsonFence), Fence);
      RemoveFenceLeavesNone(RemoveAll(trimmed, JsonFence));
      var text := Strip(unfenced);
      var i, j :| 0 <= i <= j <= |unfenced| && text == unfenced[i..j];
      SliceFenceFree(unfenced, i, j);
      FenceFreeMeansNoFence(text);
      text
    else
      trimmed
  }

  /** A reply that opens with a fence: both removals, then a trim. */
  lemma StripFencesOpened(reply: string)
    requires StartsWith(reply, Fence) && Stripped(reply)
    ensures StripFences(reply) == Strip(RemoveAll(RemoveAll(reply, JsonFence), Fence))
  {
    StripStripped(reply);
  }

  /** Stripping fences twice is stripping them once. */
  lemma StripFencesIdempotent(reply: string)
    ensures StripFences(StripFences(reply)) == StripFences(reply)
  {
    var text := StripFences(reply);
    StripStripped(text);
    if StartsWith(text, Fence) {
      assert OccursAt(text, Fence, 0);
    }
  }

  /** What `json.loads` makes of the text: an object, some other JSON value
      (array, string, number, null), or a decoding error. */
  datatype Extraction = Parsed(fields: Record) | NotAnObject | Unparseable

  /** The fallback of `extract_features_from_prompt`: `{key: None for key in RAW_FEATURES}`. */
  function AllNone(): (raw: Record)
    ensures forall k :: k in raw <==> k in RawFeatures
    ensures forall k :: k in raw ==> raw[k] == JNull
  {
    map k | k in RawFeatures :: JNull
  }

  /** `extract_features_from_prompt` after the model call: `reply` is
      `response.text` (None when the reply has no text), `decode` is
      `json.loads`. A decoding error never escapes. */
  function ExtractFeatures(reply: Option<string>, decode: string -> Extraction): (e: Extraction)
    ensures !e.Unparseable?
    ensures decode(StripFences(if reply.Some? then reply.value else "")).Unparseable? ==> e == Parsed(AllNone())
    ensures !decode(StripFences(if reply.Some? then reply.value else "")).Unparseable? ==>
      e == decode(StripFences(if reply.Some? then reply.value else ""))
  {
    var text := StripFences(if reply.Some? then reply.value else "");
    match decode(text)
    case Unparseable => Parsed(AllNone())
    case other => other
  }

  /** A reply that wraps JSON in a "```json" fence hands exactly the JSON to
      the decoder. */
  lemma FencedJsonReply(body: string)
    requires body != [] && Stripped(body) && FenceFree(body)
    ensures StripFences("```json\n" + body + "\n```") == body
  {
    var reply := "```json\n" + body + "\n```";
    var t := "\n" + body + "\n```";
    assert reply == JsonFence + t;
    assert reply[0] == '`' && reply[|reply| - 1] == '`' && reply[..3] == Fence;
    StripFencesOpened(reply);
    assert RemoveAll(reply, JsonFence) == t by {
      RemoveAllHead(JsonFence, t);
      NoJsonFenceAfterHead(body);
    }
    RemoveClosingFence(body);
    StripNewlines(body);
  }

  /** A reply that wraps JSON in a bare "```" fence hands exactly the JSON to
      the decoder. */
  lemma FencedBareReply(body: string)
    requires body != [] && Stripped(body) && FenceFree(body)
    ensures StripFences("```\n" + body + "\n```") == body
  {
    var reply := "```\n" + body + "\n```";
    var t := "\n" + body + "\n```";
    assert reply == Fence + t;
    assert reply[0] == '`' && reply[|reply| - 1] == '`' && reply[..3] == Fence;
    StripFencesOpened(reply);
    NoJsonFenceBare(body);
    assert RemoveAll(reply, Fence) == RemoveAll(t, Fence) by {
      RemoveAllHead(Fence, t);
    }
    RemoveClosingFence(body);
    StripNewlines(body);
  }
}
