/**
 * `safeParseJSON`: strip a Markdown code fence from a model reply, trim it,
 * and parse it, with every failure turned into `null`.
 *
 * The three `replace` calls use regular expressions without the `g` and `m`
 * flags, so each fires at most once and `^`/`$` anchor only at the two ends
 * of the whole string. `JSON.parse` is not modelled: it is the parameter
 * `parse`, whose `None` result stands for a thrown SyntaxError.
 */
module SafeParse {
  import opened Wrappers
  import opened Json
  import opened JsString

  const Fence: string := "```"

  /**
   * One character of `/json/i`. Without the `u` flag, a character outside ASCII
   * never case-folds to an ASCII letter, so only the two ASCII cases match.
   */
  predicate MatchesIgnoringCase(c: char, lower: char)
    requires 'a' <= lower <= 'z'
    ensures MatchesIgnoringCase(c, lower) ==> 'a' <= c <= 'z' || 'A' <= c <= 'Z'
    ensures MatchesIgnoringCase(c, lower) <==> c == lower || c == (lower as int - 32) as char
  {
    c == lower || c as int == lower as int - 32
  }

  /** The input begins with ```` ```json ```` in any letter case. */
  predicate StartsWithJsonFence(s: string)
    ensures StartsWithJsonFence(s) ==> StartsWith(s, Fence) && |s| >= 7
    ensures StartsWith(s, "```json") || StartsWith(s, "```JSON") ==> StartsWithJsonFence(s)
  {
    && StartsWith(s, Fence) && |s| >= 7
    && MatchesIgnoringCase(s[3], 'j') && MatchesIgnoringCase(s[4], 's')
    && MatchesIgnoringCase(s[5], 'o') && MatchesIgnoringCase(s[6], 'n')
  }

  /** `s.replace(/^```json/i, "")` */
  function StripJsonFence(s: string): (r: string)
    ensures EndsWith(s, r) && (|r| == |s| || |r| == |s| - 7)
    ensures |r| < |s| <==> StartsWithJsonFence(s)
  {
    if StartsWithJsonFence(s) then s[7..] else s
  }

  /** `s.replace(/^```/i, "")` */
  function StripOpeningFence(s: string): (r: string)
    ensures EndsWith(s, r) && (|r| == |s| || |r| == |s| - 3)
    ensures |r| < |s| <==> StartsWith(s, Fence)
  {
    if StartsWith(s, Fence) then s[3..] else s
  }

  /** `s.replace(/```$/i, "")` */
  function StripClosingFence(s: string): (r: string)
    ensures StartsWith(s, r) && (|r| == |s| || |r| == |s| - 3)
    ensures |r| < |s| <==> EndsWith(s, Fence)
  {
    if EndsWith(s, Fence) then s[..|s| - 3] else s
  }

  /**
   * The three replacements in their fixed order. Each one drops a prefix or a
   * suffix, so what is left is one contiguous slice of `s`.
   */
  function Unfence(s: string): (r: string)
    ensures IsSlice(r, s)
  {
    var a := StripJsonFence(s);
    var b := StripOpeningFence(a);
    StripsAreSlices(s, a, b);
    StripClosingFence(b)
  }

  lemma StripsAreSlices(s: string, a: string, b: string)
    requires a == StripJsonFence(s) && b == StripOpeningFence(a)
    ensures IsSlice(StripClosingFence(b), s)
  {
    var c := StripClosingFence(b);
    SuffixIsSlice(a, s);
    SuffixIsSlice(b, a);
    PrefixIsSlice(c, b);
    SliceOfSliceIsSlice(b, a, s);
    SliceOfSliceIsSlice(c, b, s);
  }

  /**
   * The `cleaned` string: the three replacements, then `trim`. It is always one
   * contiguous slice of the input with no whitespace at either end.
   */
  function Clean(s: string): (r: string)
    ensures Trimmed(r)
    ensures IsSlice(r, s)
  {
    var c := Unfence(s);
    TrimIsSlice(c);
    SliceOfSliceIsSlice(Trim(c), c, s);
    Trim(c)
  }

  /**
   * `safeParseJSON(s)`. A falsy input (the empty string) gives `null` before
   * anything is parsed; otherwise the parse of the cleaned string, with a
   * thrown error also giving `null`. The function is total: it never throws.
   * `null` therefore comes out for the empty reply, for a reply that does not
   * parse and for a reply that parses to `null` alike; any other result is
   * exactly what the parser made of the cleaned, non-empty reply.
   */
  function SafeParseJSON(s: string, parse: string -> Option<Json>): (r: Json)
    ensures r == Null <==> s == "" || parse(Clean(s)).None? || parse(Clean(s)) == Some(Null)
    ensures r != Null ==> s != "" && parse(Clean(s)) == Some(r)
  {
    if s == "" then Null
    else
      match parse(Clean(s))
      case Some(v) => v
      case None => Null
  }

  // ----- What the fence stripping does -----

  /** The `json` tag is matched in any letter case: ```` ```JSON ````, ```` ```Json ````, ... */
  lemma JsonTagIgnoresCase(tag: string, rest: string)
    requires |tag| == 4
    requires MatchesIgnoringCase(tag[0], 'j') && MatchesIgnoringCase(tag[1], 's')
    requires MatchesIgnoringCase(tag[2], 'o') && MatchesIgnoringCase(tag[3], 'n')
    ensures StripJsonFence(Fence + tag + rest) == rest
  {
    var s := Fence + tag + rest;
    assert s[..3] == Fence;
    assert s[3..7] == tag;
    assert s[7..] == rest;
  }

  /** An upper-case tag in particular is removed with its fence. */
  lemma UpperCaseJsonTag(rest: string)
    ensures StripJsonFence("```JSON" + rest) == rest
  {
    JsonTagIgnoresCase("JSON", rest);
    assert Fence + "JSON" == "```JSON";
  }

  /**
   * Only a fence at index 0 is touched by the first two replacements: a string
   * that does not start with three backticks passes both unchanged.
   */
  lemma OpeningFenceOnlyAtStart(s: string)
    requires !StartsWith(s, Fence)
    ensures StripOpeningFence(StripJsonFence(s)) == s
  {
  }

  /**
   * Each replacement fires at most once: of a doubled ```` ```json```json ````
   * the first replacement removes one ```` ```json ```` and the second removes
   * only the next three backticks, so the word `json` stays at the front.
   */
  lemma JsonFenceStrippedOnce(rest: string)
    ensures StripOpeningFence(StripJsonFence("```json```json" + rest)) == "json" + rest
  {
    var s := "```json```json" + rest;
    assert StartsWithJsonFence(s);
    var a := s[7..];
    assert a == "```json" + rest;
    assert a[..3] == Fence;
    assert a[3..] == "json" + rest;
  }

  /**
   * A language tag other than `json` survives: after ```` ```python ```` (say)
   * only the backticks go and the cleaned string starts with the tag.
   */
  lemma OtherTagSurvives(tag: string, rest: string)
    requires |tag| > 0
    requires forall i :: 0 <= i < |tag| ==> tag[i] != '`' && !IsWhitespace(tag[i])
    requires !StartsWithJsonFence(Fence + tag + rest)
    ensures StartsWith(Clean(Fence + tag + rest), tag)
  {
    var s := Fence + tag + rest;
    UnfenceOtherTag(tag, rest);
    TrimKeepsPrefix(Unfence(s), tag);
  }

  /** The opening backticks go and the tag is left at the front. */
  lemma UnfenceOtherTag(tag: string, rest: string)
    requires |tag| > 0
    requires forall i :: 0 <= i < |tag| ==> tag[i] != '`'
    requires !StartsWithJsonFence(Fence + tag + rest)
    ensures StartsWith(Unfence(Fence + tag + rest), tag)
  {
    var s := Fence + tag + rest;
    assert s[..3] == Fence;
    assert s[3..] == tag + rest;
    var b := tag + rest;
    assert StripOpeningFence(StripJsonFence(s)) == b;
    if |rest| >= 3 {
      assert b[..|b| - 3] == tag + rest[..|rest| - 3];
      assert b[..|b| - 3][..|tag|] == tag;
    } else if |b| >= 3 {
      assert b[|b| - 3..][0] == tag[|b| - 3];
      assert !EndsWith(b, Fence);
    }
    assert b[..|tag|] == tag;
  }

  /** The reply that opens with ```` ```python ```` keeps `python` at the front. */
  lemma PythonTagSurvives(rest: string)
    ensures StartsWith(Clean("```python" + rest), "python")
  {
    assert Fence + "python" + rest == "```python" + rest;
    var s := "```python" + rest;
    assert s[3] == 'p';
    OtherTagSurvives("python", rest);
  }

  /**
   * A closing fence is removed only when it is the last three characters: a
   * fence followed by whitespace stays in the cleaned string, where it ends
   * it, so the text that `JSON.parse` then sees still ends with three backticks.
   */
  lemma ClosingFenceBeforeWhitespaceKept(body: string, w: string)
    requires |body| > 0 && body[0] != '`'
    requires |w| > 0 && AllWhitespace(w)
    ensures EndsWith(Clean("```json" + body + Fence + w), Fence)
  {
    var s := "```json" + body + Fence + w;
    UnfenceTrailingWhitespace(body, w);
    var x := body + Fence;
    assert Clean(s) == Trim(x + w);
    assert x[|x| - 3..] == Fence;
    assert x[|x| - 3] == '`' && x[|x| - 1] == '`';
    BacktickIsNotWhitespace();
    TrimBeforeWhitespace(x, w, |x| - 3);
    var a :| 0 <= a <= |x| - 3 && Trim(x + w) == x[a..];
    assert x[a..][|x| - a - 3..] == x[|x| - 3..];
  }

  lemma BacktickIsNotWhitespace()
    ensures !IsWhitespace('`')
  {
  }

  /** Behind the tagged opening fence, a closing fence followed by whitespace is not touched. */
  lemma UnfenceTrailingWhitespace(body: string, w: string)
    requires |body| > 0 && body[0] != '`'
    requires |w| > 0 && AllWhitespace(w)
    ensures Unfence("```json" + body + Fence + w) == body + Fence + w
  {
    var s := "```json" + body + Fence + w;
    assert s[..3] == Fence;
    assert s[3..7] == "json";
    var a := body + Fence + w;
    assert s[7..] == a;
    assert StripJsonFence(s) == a;
    assert a[0] == body[0];
    assert StripOpeningFence(a) == a;
    assert a[|a| - 1] == w[|w| - 1];
    assert a[|a| - 3..][2] == a[|a| - 1];
  }

  /**
   * A reply without a fence at either end and without surrounding whitespace is
   * handed to the parser exactly as it came.
   */
  lemma CleanLeavesPlainText(s: string)
    requires !StartsWith(s, Fence) && !EndsWith(s, Fence) && Trimmed(s)
    ensures Clean(s) == s
  {
    assert [] + s + [] == s;
    TrimPadded([], s, []);
  }

  /**
   * A document `d` wrapped as ```` ```json\n ````d```` \n``` ```` is cleaned back
   * to `d`.
   */
  lemma CleanUnwrapsFencedDocument(d: string)
    requires Trimmed(d)
    ensures Clean("```json\n" + d + "\n```") == d
  {
    var s := "```json\n" + d + "\n```";
    UnfenceFencedDocument(d);
    assert Clean(s) == Trim("\n" + d + "\n");
    TrimPadded("\n", d, "\n");
  }

  /** The three replacements take off the tagged opening fence and the closing one. */
  lemma UnfenceFencedDocument(d: string)
    ensures Unfence("```json\n" + d + "\n```") == "\n" + d + "\n"
  {
    var s := "```json\n" + d + "\n```";
    assert s[..3] == Fence;
    assert s[3..7] == "json";
    var a := "\n" + d + "\n```";
    assert s[7..] == a;
    assert StripJsonFence(s) == a;
    assert a[0] == '\n';
    assert StripOpeningFence(a) == a;
    assert a[|a| - 3..] == Fence;
    assert a[..|a| - 3] == "\n" + d + "\n";
  }

  // ----- What the caller gets back -----

  /** The empty reply gives `null` whatever the parser would have said: it is never consulted. */
  lemma EmptyReplyIgnoresParser(p1: string -> Option<Json>, p2: string -> Option<Json>)
    ensures SafeParseJSON("", p1) == SafeParseJSON("", p2) == Null
  {
  }

  /** Fencing a non-empty document does not change what `safeParseJSON` returns. */
  lemma FencedDocumentParsesAsPlain(d: string, parse: string -> Option<Json>)
    requires d != "" && Trimmed(d)
    requires !StartsWith(d, Fence) && !EndsWith(d, Fence)
    ensures SafeParseJSON("```json\n" + d + "\n```", parse) == SafeParseJSON(d, parse)
  {
    CleanUnwrapsFencedDocument(d);
    CleanLeavesPlainText(d);
  }
}
