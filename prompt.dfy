/**
 * `buildPrompt`: the instruction sent to the model, a fixed Vietnamese template
 * with the candidate's four fields filled in and the surrounding newlines of
 * the template literal trimmed away.
 */
module Prompt {
  import opened Wrappers
  import opened JsString

  /**
   * The request fields the prompt is built from. `None` is a field that was not
   * given (`undefined`), which the destructuring pattern replaces with `""`.
   */
  datatype Candidate = Candidate(
    name: Option<string>,
    position: Option<string>,
    experience: Option<string>,
    skills: Option<string>)

  // The fixed text of the template between the interpolated fields. The first
  // character of `Intro` and the last one of `SampleTail` are written apart so
  // that proofs see them without expanding the whole literal.
  const Intro: string := "B" + "ạn là một interviewer kỹ thuật. Hãy tạo danh sách 7–10 câu hỏi phỏng vấn cho ứng viên:\n\n- Ứng viên: "
  const PositionLabel: string := "\n- Vị trí: "
  const ExperienceLabel: string := "\n- Kinh nghiệm: "
  const SkillsLabel: string := "\n- Kỹ năng: "
  const Requirements: string := "\n\nYÊU CẦU:\n1) Trộn Technical / Behavioral / Scenario.\n2) Mỗi câu hỏi ngắn gọn, rõ ràng.\n3) Trả về JSON đúng mẫu:\n\n{\n  \"name\": \""
  const SamplePosition: string := "\",\n  \"position\": \""
  const SampleTail: string := "\",\n  \"questions\": [\n    { \"no\": 1, \"type\": \"Technical\", \"question\": \"...\" }\n  ]\n" + "}"

  /**
   * The template without the line break that opens it and the one that closes
   * it: the name and position appear in the candidate list and again in the
   * sample JSON answer.
   */
  function Body(name: string, position: string, experience: string, skills: string): (r: string) {
    Intro + name + PositionLabel + position + ExperienceLabel + experience
    + SkillsLabel + skills + Requirements + name + SamplePosition + position + SampleTail
  }

  /** The template literal itself, which starts and ends with a line break. */
  function Template(name: string, position: string, experience: string, skills: string): (r: string) {
    "\n" + Body(name, position, experience, skills) + "\n"
  }

  /**
   * `buildPrompt(c)`: absent fields become `""`, the template is filled in and
   * trimmed. Trimming takes off exactly the two line breaks around the text,
   * whatever the fields hold, because the text starts and ends with a
   * character that is not whitespace.
   */
  function BuildPrompt(c: Candidate): (r: string)
    ensures Trimmed(r)
    ensures r == Body(c.name.GetOr(""), c.position.GetOr(""), c.experience.GetOr(""), c.skills.GetOr(""))
  {
    var name, position := c.name.GetOr(""), c.position.GetOr("");
    var experience, skills := c.experience.GetOr(""), c.skills.GetOr("");
    TemplateTrimsToBody(name, position, experience, skills);
    Trim(Template(name, position, experience, skills))
  }

  lemma TemplateTrimsToBody(name: string, position: string, experience: string, skills: string)
    ensures Trim(Template(name, position, experience, skills)) == Body(name, position, experience, skills)
  {
    var b := Body(name, position, experience, skills);
    assert b[0] == 'B';
    assert b[|b| - 1] == SampleTail[|SampleTail| - 1] == '}';
    TrimPadded("\n", b, "\n");
  }

  /** `x` stands in `s` from index `i` on. */
  predicate OccursAt(s: string, x: string, i: nat) {
    i + |x| <= |s| && s[i..i + |x|] == x
  }

  /** `x` stands somewhere in `s`. */
  ghost predicate Occurs(s: string, x: string) {
    exists i: nat :: OccursAt(s, x, i)
  }

  /** `x` stands in `s` twice, the second time after the first one ends. */
  ghost predicate OccursTwice(s: string, x: string) {
    exists i: nat, j: nat :: i + |x| <= j && OccursAt(s, x, i) && OccursAt(s, x, j)
  }

  lemma OccursTwiceAt(s: string, x: string, i: nat, j: nat)
    requires i + |x| <= j && OccursAt(s, x, i) && OccursAt(s, x, j)
    ensures OccursTwice(s, x)
  {
  }

  /**
   * The prompt holds every field verbatim: the name and the position twice,
   * one occurrence after the other (in the candidate list and in the sample
   * answer), the experience and the skills once. The name opens the first list
   * entry, right after the fixed introduction.
   */
  lemma PromptContainsFields(c: Candidate)
    ensures OccursAt(BuildPrompt(c), c.name.GetOr(""), |Intro|)
    ensures OccursTwice(BuildPrompt(c), c.name.GetOr(""))
    ensures OccursTwice(BuildPrompt(c), c.position.GetOr(""))
    ensures Occurs(BuildPrompt(c), c.experience.GetOr(""))
    ensures Occurs(BuildPrompt(c), c.skills.GetOr(""))
  {
    var n, p := c.name.GetOr(""), c.position.GetOr("");
    var e, s := c.experience.GetOr(""), c.skills.GetOr("");
    var r := BuildPrompt(c);
    assert r == Body(n, p, e, s);
    var list := Intro + n + PositionLabel;
    var sample := list + p + ExperienceLabel + e + SkillsLabel + s + Requirements;
    NameInList(n, p, e, s);
    NameInSample(n, p, e, s);
    OccursTwiceAt(r, n, |Intro|, |sample|);
    PositionInList(n, p, e, s);
    PositionInSample(n, p, e, s);
    OccursTwiceAt(r, p, |list|, |sample + n + SamplePosition|);
    ExperienceInList(n, p, e, s);
    SkillsInList(n, p, e, s);
  }

  /** The name after the introduction. */
  lemma NameInList(n: string, p: string, e: string, s: string)
    ensures OccursAt(Body(n, p, e, s), n, |Intro|)
  {
    OccursBetween(Intro, n, PositionLabel + p + ExperienceLabel + e + SkillsLabel + s + Requirements);
    InCandidateList(n, p, e, s, n, |Intro|);
  }

  /** The name in the sample answer. */
  lemma NameInSample(n: string, p: string, e: string, s: string)
    ensures OccursAt(Body(n, p, e, s), n, |Intro + n + PositionLabel + p + ExperienceLabel + e + SkillsLabel + s + Requirements|)
  {
    OccursBetween(Intro + n + PositionLabel + p + ExperienceLabel + e + SkillsLabel + s + Requirements,
                  n, SamplePosition + p + SampleTail);
  }

  /** The position in the candidate list. */
  lemma PositionInList(n: string, p: string, e: string, s: string)
    ensures OccursAt(Body(n, p, e, s), p, |Intro + n + PositionLabel|)
  {
    OccursBetween(Intro + n + PositionLabel, p, ExperienceLabel + e + SkillsLabel + s + Requirements);
    InCandidateList(n, p, e, s, p, |Intro + n + PositionLabel|);
  }

  /** The position in the sample answer. */
  lemma PositionInSample(n: string, p: string, e: string, s: string)
    ensures OccursAt(Body(n, p, e, s), p, |Intro + n + PositionLabel + p + ExperienceLabel + e + SkillsLabel + s + Requirements + n + SamplePosition|)
  {
    OccursBetween(Intro + n + PositionLabel + p + ExperienceLabel + e + SkillsLabel + s + Requirements + n + SamplePosition,
                  p, SampleTail);
  }

  /** The experience in the candidate list. */
  lemma ExperienceInList(n: string, p: string, e: string, s: string)
    ensures OccursAt(Body(n, p, e, s), e, |Intro + n + PositionLabel + p + ExperienceLabel|)
  {
    OccursBetween(Intro + n + PositionLabel + p + ExperienceLabel, e, SkillsLabel + s + Requirements);
    InCandidateList(n, p, e, s, e, |Intro + n + PositionLabel + p + ExperienceLabel|);
  }

  /** The skills in the candidate list. */
  lemma SkillsInList(n: string, p: string, e: string, s: string)
    ensures OccursAt(Body(n, p, e, s), s, |Intro + n + PositionLabel + p + ExperienceLabel + e + SkillsLabel|)
  {
    OccursBetween(Intro + n + PositionLabel + p + ExperienceLabel + e + SkillsLabel, s, Requirements);
    InCandidateList(n, p, e, s, s, |Intro + n + PositionLabel + p + ExperienceLabel + e + SkillsLabel|);
  }

  /** What stands in the candidate list and the requirements still stands there in the whole text. */
  lemma InCandidateList(n: string, p: string, e: string, s: string, x: string, i: nat)
    requires OccursAt(Intro + n + PositionLabel + p + ExperienceLabel + e + SkillsLabel + s + Requirements, x, i)
    ensures OccursAt(Body(n, p, e, s), x, i)
  {
    var list := Intro + n + PositionLabel + p + ExperienceLabel + e + SkillsLabel + s + Requirements;
    OccursAfter(list, x, i, n);
    OccursAfter(list + n, x, i, SamplePosition);
    OccursAfter(list + n + SamplePosition, x, i, p);
    OccursAfter(list + n + SamplePosition + p, x, i, SampleTail);
  }

  lemma OccursAfter(s: string, x: string, i: nat, t: string)
    requires OccursAt(s, x, i)
    ensures OccursAt(s + t, x, i)
  {
    assert (s + t)[i..i + |x|] == s[i..i + |x|];
  }

  /** `x` stands in `a + x + b` right after `a`. */
  lemma OccursBetween(a: string, x: string, b: string)
    ensures OccursAt(a + x + b, x, |a|)
  {
    assert (a + x + b)[|a|..|a| + |x|] == x;
  }

  /** A field that was not given is filled in exactly as the empty string. */
  lemma AbsentFieldsAreEmpty(c: Candidate)
    ensures BuildPrompt(c) == BuildPrompt(Candidate(
              Some(c.name.GetOr("")), Some(c.position.GetOr("")),
              Some(c.experience.GetOr("")), Some(c.skills.GetOr(""))))
  {
  }
}
