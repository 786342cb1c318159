/** The two prompt strings of a completion request: the system prompt, built
    from a fixed template around the tone guide, and the user content, which
    is either the caller's free text or the form fields one per line. */
module Prompt {
  import opened JsString

  /** One labelled piece of job information, `{ key, value }` in the source. */
  datatype Field = Field(key: string, value: string)

  /** The tone table, the same object literal in both completion callers. */
  const ToneInstructions: map<string, string> := map[
    "professional" := "Use formal, corporate language. Professional and polished.",
    "friendly" := "Use warm, conversational language. Approachable and engaging.",
    "concise" := "Use brief, direct language. Clear and to the point.",
    "enthusiastic" := "Use energetic, exciting language. Dynamic and passionate."
  ]

  /** Property names every plain JavaScript object inherits from
      Object.prototype; indexing the tone table with one of them finds an
      inherited member instead of a missing entry. */
  const ObjectPrototypeKeys: set<string> := {
    "constructor", "__proto__", "hasOwnProperty", "isPrototypeOf",
    "propertyIsEnumerable", "toString", "toLocaleString", "valueOf",
    "__defineGetter__", "__defineSetter__", "__lookupGetter__", "__lookupSetter__"
  }

  /** A tone the model covers: absent, or a name that is not inherited. */
  predicate PlainTone(tone: Option<string>) {
    tone.None? || tone.value !in ObjectPrototypeKeys
  }

  /** `toneInstructions[tone] || toneInstructions.professional`, with the
      parameter defaulting to "professional" when the caller sends none. */
  function ToneGuide(tone: Option<string>): (guide: string)
    requires PlainTone(tone)
    ensures guide in ToneInstructions.Values
    ensures tone.Some? && tone.value in ToneInstructions ==> guide == ToneInstructions[tone.value]
    ensures tone.None? || tone.value !in ToneInstructions ==> guide == ToneInstructions["professional"]
  {
    var key := if tone.Some? then tone.value else "professional";
    if key in ToneInstructions && ToneInstructions[key] != "" then ToneInstructions[key]
    else ToneInstructions["professional"]
  }

  /** The four tone guides are pairwise different, so the guide determines the tone. */
  lemma ToneGuidesDistinct(t1: string, t2: string)
    requires t1 in ToneInstructions && t2 in ToneInstructions
    ensures ToneInstructions[t1] == ToneInstructions[t2] <==> t1 == t2
  {
  }

  // The template text, cut at the two places where the tone guide goes.

  const FormOpening :=
    "You are an HR content assistant. "
    + "Generate 3 different versions of job posting content:\n\n" + ShortPostSection
  const TextOpening :=
    "You are an HR assistant. "
    + "Generate 3 different versions of job posting content:\n\n" + ShortPostSection
  const ShortPostSection :=
    "1. SHORT LINKEDIN POST (150-200 words)\n- Brief and engaging\n- Suitable for LinkedIn feed\n"
    + "- 8-12 lines maximum\n- "
  const LongPostSection :=
    "\n\n2. LONG LINKEDIN POST (300-400 words)\n- Detailed and comprehensive\n"
    + "- Include company culture, benefits, growth opportunities\n- 20-25 lines\n- "
  const AtsAndFormatSection :=
    "\n\n3. ATS-FRIENDLY JOB DESCRIPTION (250-350 words)\n"
    + "- Structured format: Overview, Responsibilities, Requirements, Benefits\n"
    + "- Keyword-optimized\n- Clear sections with bullet points\n"
    + "- Professional tone (regardless of selected tone)\n\n"
    + "Format your response EXACTLY like this:\n\n"
    + "=== SHORT POST ===\n[Short post content here]\n\n"
    + "=== LONG POST ===\n[Long post content here]\n\n"
    + "=== ATS DESCRIPTION ===\n[ATS description content here]\n\n"
    + "Rules for all variants:\n"
  const FormRules :=
    "- Keep meaning accurate\n- Improve clarity and grammar\n- No emojis\n"
    + "- Professional formatting"
  const TextRules :=
    "- Improve grammar and clarity\n- Keep original meaning\n- No emojis\n"
    + "- Professional formatting"

  /** What the template holds between its first line break and its final
      indentation. */
  function TemplateBody(opening: string, guide: string, rules: string): string {
    opening + guide + LongPostSection + guide + AtsAndFormatSection + rules
  }

  /** The template literal as written: a line break after the opening
      backtick, the guide in two places, and a line break and two spaces of
      indentation before the closing backtick. */
  function Template(opening: string, guide: string, rules: string): string {
    "\n" + TemplateBody(opening, guide, rules) + "\n  "
  }

  /** `systemPrompt.trim()` of the form-mode caller: the template text with
      the tone guide verbatim in both of its places. */
  function FormSystemPrompt(tone: Option<string>): (prompt: string)
    requires PlainTone(tone)
    ensures prompt == TemplateBody(FormOpening, ToneGuide(tone), FormRules)
  {
    assert FormOpening[0] == 'Y';
    assert FormRules[|FormRules| - 1] == 'g';
    TrimmedTemplate(FormOpening, ToneGuide(tone), FormRules);
    Trim(Template(FormOpening, ToneGuide(tone), FormRules))
  }

  /** `systemPrompt.trim()` of the text-mode caller, laid out the same way. */
  function TextSystemPrompt(tone: Option<string>): (prompt: string)
    requires PlainTone(tone)
    ensures prompt == TemplateBody(TextOpening, ToneGuide(tone), TextRules)
  {
    assert TextOpening[0] == 'Y';
    assert TextRules[|TextRules| - 1] == 'g';
    TrimmedTemplate(TextOpening, ToneGuide(tone), TextRules);
    Trim(Template(TextOpening, ToneGuide(tone), TextRules))
  }

  /** Trimming removes only the template's own leading line break and trailing
      indentation: the guide appears verbatim in both places. */
  lemma TrimmedTemplate(opening: string, guide: string, rules: string)
    requires opening != [] && !IsWhitespace(opening[0])
    requires rules != [] && !IsWhitespace(rules[|rules| - 1])
    ensures Trim(Template(opening, guide, rules)) == TemplateBody(opening, guide, rules)
  {
    var core := TemplateBody(opening, guide, rules);
    assert core[0] == opening[0];
    assert core[|core| - 1] == rules[|rules| - 1];
    TrimAround("\n", core, "\n  ");
  }

  /** Two filled-in templates are equal exactly when their guides are. */
  lemma {:induction false} FilledTemplateInjective(opening: string, g1: string, g2: string, rules: string)
    ensures TemplateBody(opening, g1, rules) == TemplateBody(opening, g2, rules) <==> g1 == g2
  {
    var p1 := TemplateBody(opening, g1, rules);
    var p2 := TemplateBody(opening, g2, rules);
    if p1 == p2 {
      assert |g1| == |g2|;
      assert p1[|opening|..|opening| + |g1|] == g1;
      assert p2[|opening|..|opening| + |g2|] == g2;
    }
  }

  /** The form system prompt depends on the request through the tone guide
      alone, and different guides give different prompts. */
  lemma FormSystemPromptDeterminedByGuide(t1: Option<string>, t2: Option<string>)
    requires PlainTone(t1) && PlainTone(t2)
    ensures FormSystemPrompt(t1) == FormSystemPrompt(t2) <==> ToneGuide(t1) == ToneGuide(t2)
  {
    FilledTemplateInjective(FormOpening, ToneGuide(t1), ToneGuide(t2), FormRules);
  }

  /** The same for the text system prompt. */
  lemma TextSystemPromptDeterminedByGuide(t1: Option<string>, t2: Option<string>)
    requires PlainTone(t1) && PlainTone(t2)
    ensures TextSystemPrompt(t1) == TextSystemPrompt(t2) <==> ToneGuide(t1) == ToneGuide(t2)
  {
    FilledTemplateInjective(TextOpening, ToneGuide(t1), ToneGuide(t2), TextRules);
  }

  /** The line one field contributes to the user content. */
  function EntryLine(p: Field): string {
    p.key + ": " + p.value
  }

  function EntryLines(params: seq<Field>): (lines: seq<string>)
    ensures |lines| == |params|
    ensures forall i :: 0 <= i < |params| ==> lines[i] == EntryLine(params[i])
  {
    if params == [] then [] else [EntryLine(params[0])] + EntryLines(params[1..])
  }

  /** `paramsArray.map(p => `${p.key}: ${p.value}`).join("\n")` */
  function FormatContent(params: seq<Field>): (content: string)
    ensures content == [] <==> params == []
    ensures params != [] ==>
              |EntryLine(params[0])| <= |content|
              && content[..|EntryLine(params[0])|] == EntryLine(params[0])
  {
    Join(EntryLines(params), "\n")
  }

  /** The user content holds exactly one "key: value" line per field, in
      order, separated by single line breaks and with none at the end: cut at
      the line breaks, it gives back the lines one for one (when no key or
      value contains a line break of its own). */
  lemma FormatContentLines(params: seq<Field>)
    requires params != []
    requires forall i :: 0 <= i < |params| ==> '\n' !in params[i].key && '\n' !in params[i].value
    ensures Split(FormatContent(params), '\n') == EntryLines(params)
  {
    var lines := EntryLines(params);
    forall k | 0 <= k < |lines|
      ensures '\n' !in lines[k]
    {
      EntryLineWithoutBreak(params[k]);
    }
    SplitJoin(lines, '\n');
  }

  /** A field without line breaks gives a single line. */
  lemma EntryLineWithoutBreak(p: Field)
    requires '\n' !in p.key && '\n' !in p.value
    ensures '\n' !in EntryLine(p)
  {
  }
}
