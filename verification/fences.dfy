/** Removal of the Markdown code fences the model sometimes wraps its reply in
    (app/rule_engine.py, generate_rule and validate_rule). Both patterns are compiled
    without MULTILINE, so `^` is the start of the text and `$` its end (or the point
    just before a final newline): each substitution can fire at most once. */
module Fences {
  import opened Text

  const Fence := "```"

  /** The prefixes `^```(?:tag)?\n?` can match, longest first. */
  predicate IsOpeningFence(p: string, tag: string) {
    p == Fence + tag + "\n" || p == Fence + tag || p == Fence + "\n" || p == Fence
  }

  /** re.sub(r"^```(?:tag)?\n?", "", s): the fence, then the tag if it follows, then a
      newline if it follows, are removed from the start of the text; nothing else. Both
      optional parts are greedy, so which prefix goes is decided by what follows. */
  function StripOpeningFence(s: string, tag: string): (r: string)
    ensures |r| <= |s| && r == s[|s| - |r|..]
    ensures StartsWith(s, Fence) ==> IsOpeningFence(s[..|s| - |r|], tag)
    ensures !StartsWith(s, Fence) ==> r == s
    ensures StartsWith(s, Fence + tag + "\n") ==> r == s[|tag| + 4..]
    ensures StartsWith(s, Fence + tag) && !StartsWith(s, Fence + tag + "\n") ==> r == s[|tag| + 3..]
    ensures StartsWith(s, Fence) && !StartsWith(s, Fence + tag) ==>
      r == if StartsWith(s, Fence + "\n") then s[4..] else s[3..]
  {
    if StartsWith(s, Fence) then
      var afterFence := s[3..];
      PrefixSplit(s, Fence, tag);
      PrefixSplit(s, Fence, "\n");
      PrefixSplit(s, Fence + tag, "\n");
      var afterTag := if StartsWith(afterFence, tag) then afterFence[|tag|..] else afterFence;
      assert s[..|s| - |afterTag|] == Fence + s[3..|s| - |afterTag|];
      if StartsWith(afterTag, "\n") then
        assert s[..|s| - |afterTag[1..]|] == s[..|s| - |afterTag|] + "\n";
        afterTag[1..]
      else afterTag
    else s
  }

  /** re.sub(r"\n?```$", "", s): a closing fence, with the newline before it if there is
      one, is removed from the end of the text, or from just before a final newline. The
      leftmost match wins, so the newline before the fence goes with it whenever there is
      one, and a final newline after the fence stays. */
  function StripClosingFence(s: string): (r: string)
    ensures EndsWith(s, "\n" + Fence) ==> r == s[..|s| - 4]
    ensures EndsWith(s, Fence) && !EndsWith(s, "\n" + Fence) ==> r == s[..|s| - 3]
    ensures !EndsWith(s, Fence) && EndsWith(s, "\n" + Fence + "\n") ==> r == s[..|s| - 5] + "\n"
    ensures !EndsWith(s, Fence) && EndsWith(s, Fence + "\n") && !EndsWith(s, "\n" + Fence + "\n") ==>
      r == s[..|s| - 4] + "\n"
    ensures !EndsWith(s, Fence) && !EndsWith(s, Fence + "\n") ==> r == s
  {
    ClosingFenceShapes(s);
    if EndsWith(s, Fence) then
      var body := s[..|s| - 3];
      if |body| > 0 && body[|body| - 1] == '\n' then s[..|s| - 4] else body
    else if EndsWith(s, Fence + "\n") then
      if |s| >= 5 && s[|s| - 5] == '\n' then s[..|s| - 4] else s[..|s| - 4] + "\n"
    else s
  }

  /** The four suffixes the closing pattern can match, character by character. */
  lemma ClosingFenceShapes(s: string)
    ensures EndsWith(s, Fence) <==> |s| >= 3 && s[|s| - 3..] == Fence
    ensures EndsWith(s, "\n" + Fence) <==> EndsWith(s, Fence) && |s| >= 4 && s[|s| - 4] == '\n'
    ensures EndsWith(s, Fence + "\n") <==> |s| >= 4 && s[|s| - 4..|s| - 1] == Fence && s[|s| - 1] == '\n'
    ensures EndsWith(s, "\n" + Fence + "\n") <==> EndsWith(s, Fence + "\n") && |s| >= 5 && s[|s| - 5] == '\n'
    ensures |s| >= 5 && s[|s| - 5] == '\n' ==> s[..|s| - 5] + "\n" == s[..|s| - 4]
  {
    NewlineBeforeSuffix(s, Fence);
    FenceThenNewline(s);
    NewlineBeforeSuffix(s, Fence + "\n");
    if |s| >= 5 && s[|s| - 5] == '\n' {
      assert s[..|s| - 4] == s[..|s| - 5] + [s[|s| - 5]];
    }
  }

  /** A suffix preceded by a newline. */
  lemma NewlineBeforeSuffix(s: string, q: string)
    ensures EndsWith(s, "\n" + q) <==> EndsWith(s, q) && |s| > |q| && s[|s| - |q| - 1] == '\n'
  {
    if |s| > |q| {
      assert s[|s| - |q| - 1..] == [s[|s| - |q| - 1]] + s[|s| - |q|..];
    }
  }

  /** A fence followed by one final newline. */
  lemma FenceThenNewline(s: string)
    ensures EndsWith(s, Fence + "\n") <==> |s| >= 4 && s[|s| - 4..|s| - 1] == Fence && s[|s| - 1] == '\n'
  {
    if |s| >= 4 {
      assert s[|s| - 4..] == s[|s| - 4..|s| - 1] + [s[|s| - 1]];
    }
  }

  /** A prefix made of two parts is the first part followed by the second. */
  lemma PrefixSplit(s: string, p: string, q: string)
    ensures StartsWith(s, p + q) <==> StartsWith(s, p) && StartsWith(s[|p|..], q)
  {
    if StartsWith(s, p) && StartsWith(s[|p|..], q) {
      assert s[..|p + q|] == s[..|p|] + s[|p|..][..|q|];
    }
    if StartsWith(s, p + q) {
      assert s[..|p|] == (p + q)[..|p|];
      assert s[|p|..][..|q|] == (p + q)[|p|..];
    }
  }

  /** The cleanup generate_rule applies to the reply (app/rule_engine.py:159-164). */
  function CleanYamlReply(reply: string): string {
    Strip(StripClosingFence(StripOpeningFence(Strip(reply), "yaml")))
  }

  /** The cleanup validate_rule applies to the reply before decoding it
      (app/rule_engine.py:233-236): tag `json`, and no final strip. */
  function CleanJsonReply(reply: string): string {
    StripClosingFence(StripOpeningFence(Strip(reply), "json"))
  }

  /** The text a model reply holds when it wraps `body` in a fence tagged `tag`. */
  function Fenced(tag: string, body: string): string {
    Fence + tag + "\n" + body + "\n" + Fence
  }

  // ----- one fence in, one fence out -----

  /** An opening fence with its tag and newline is removed whatever follows it, even a
      second fence: the pattern fires once. */
  lemma {:induction false} OpeningFenceRemovedOnce(tag: string, rest: string)
    ensures StripOpeningFence(Fence + tag + "\n" + rest, tag) == rest
  {
    var s := Fence + tag + "\n" + rest;
    assert s[..3] == Fence;
    assert s[3..] == tag + "\n" + rest;
    assert (tag + "\n" + rest)[..|tag|] == tag;
    assert (tag + "\n" + rest)[|tag|..] == "\n" + rest;
  }

  /** A closing fence on its own line is removed whatever precedes it, even another
      fence: the pattern fires once. */
  lemma {:induction false} ClosingFenceRemovedOnce(body: string)
    ensures StripClosingFence(body + "\n" + Fence) == body
  {
    var s := body + "\n" + Fence;
    assert s[|s| - 3..] == Fence;
    assert s[..|s| - 3] == body + "\n";
    assert (body + "\n")[..|body|] == body;
  }

  /** A reply fenced as YAML comes back as its body, stripped. */
  lemma YamlFenceRoundTrip(body: string)
    ensures CleanYamlReply(Fenced("yaml", body)) == Strip(body)
  {
    var s := Fenced("yaml", body);
    var rest := body + "\n" + Fence;
    assert s == Fence + "yaml" + "\n" + rest;
    assert s[0] == '`' && s[|s| - 1] == '`';
    StripKeeps(s);
    OpeningFenceRemovedOnce("yaml", rest);
    assert StripOpeningFence(Strip(s), "yaml") == rest;
    ClosingFenceRemovedOnce(body);
  }

  /** A reply fenced as JSON comes back as exactly its body. */
  lemma JsonFenceRoundTrip(body: string)
    ensures CleanJsonReply(Fenced("json", body)) == body
  {
    var s := Fenced("json", body);
    var rest := body + "\n" + Fence;
    assert s == Fence + "json" + "\n" + rest;
    assert s[0] == '`' && s[|s| - 1] == '`';
    StripKeeps(s);
    OpeningFenceRemovedOnce("json", rest);
    assert StripOpeningFence(Strip(s), "json") == rest;
    ClosingFenceRemovedOnce(body);
  }

  /** A bare fence is removed alone when neither the tag nor a newline follows it. */
  lemma {:induction false} BareFenceRemoved(rest: string, tag: string)
    requires !StartsWith(rest, tag) && !StartsWith(rest, "\n")
    ensures StripOpeningFence(Fence + rest, tag) == rest
  {
    assert (Fence + rest)[..3] == Fence && (Fence + rest)[3..] == rest;
  }

  lemma {:induction false} OtherTagIsNotYaml(tag: string, x: string)
    requires tag != [] && tag[0] != '\n' && !StartsWith(tag + "\n", "yaml")
    ensures !StartsWith(tag + "\n" + x, "yaml") && !StartsWith(tag + "\n" + x, "\n")
  {
    var t := tag + "\n";
    var u := t + x;
    assert u[..1][0] == tag[0];
    assert |t| >= 4 ==> u[..4] == t[..4];
    assert |t| < 4 ==> u[|tag|] == '\n' && "yaml"[|tag|] != '\n';
  }

  /** Only the literal tag is removed: a reply fenced with any other tag (`json` or
      `yml` on the YAML path, say) keeps that tag as the first line of the cleaned text. */
  lemma ForeignTagKept(tag: string, body: string)
    requires tag != [] && tag[0] != '\n' && !StartsWith(tag + "\n", "yaml")
    ensures CleanYamlReply(Fenced(tag, body)) == Strip(tag + "\n" + body)
  {
    var inner := tag + "\n" + body;
    var rest := inner + "\n" + Fence;
    assert rest == tag + "\n" + (body + "\n" + Fence);
    var s := Fence + rest;
    assert Fenced(tag, body) == s;
    assert s[0] == '`' && s[|s| - 1] == '`';
    StripKeeps(s);
    OtherTagIsNotYaml(tag, body + "\n" + Fence);
    BareFenceRemoved(rest, "yaml");
    ClosingFenceRemovedOnce(inner);
  }

  /** Text with no fence at either end and no surrounding whitespace comes back
      unchanged from both cleanups; hence cleaning such text twice changes nothing. */
  lemma FenceFreeUnchanged(s: string)
    requires s == [] || (!IsSpace(s[0]) && !IsSpace(s[|s| - 1]))
    requires !StartsWith(s, Fence) && !EndsWith(s, Fence)
    ensures CleanYamlReply(s) == s && CleanJsonReply(s) == s
    ensures CleanYamlReply(CleanYamlReply(s)) == CleanYamlReply(s)
  {
    StripKeeps(s);
    assert s != [] ==> s[|s| - 1] != '\n';
    assert !EndsWith(s, Fence + "\n");
    assert StripOpeningFence(s, "yaml") == s && StripOpeningFence(s, "json") == s;
    assert StripClosingFence(s) == s;
  }
}
