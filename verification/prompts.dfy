/**
  The prompt templates of the AI service: three request kinds (commit
  message, full pull-request message, pull-request title) crossed with two
  modes (one chunk of diff, or the summaries of several chunks).

  Every template is a fixed list of lines with the payload as one line in the
  middle, joined by '\n'; this is exactly the text of the triple-quoted
  templates, which begin and end with a line break. Long literal lines are
  written as concatenations of shorter literals, which keeps the proofs that a
  line lacks a character small.
 */
module Prompts {
  import opened Lines
  import opened Strings

  datatype RequestKind = CommitMessage | PrMessage | PrTitle

  datatype Mode = SingleChunk | MultiChunk

  /** The kind a pull-request request asks for. */
  function PrKind(titleOnly: bool): RequestKind {
    if titleOnly then PrTitle else PrMessage
  }

  /** The conventional-commit types every commit and title prompt lists. */
  const CommitTypes: string := "feat, fix, docs, " + "style, refactor, test, chore"

  const SubjectLimit: string := "under 50 characters"

  const TitleLimit: string := "under 72 characters"

  const TitleLabel: string := "Title:"
  const DescriptionLabel: string := "Description:"
  const ChangesLabel: string := "Changes:"
  const TestingLabel: string := "Testing:"

  const CommitIntro: string :=
    "Analyze this git diff " + "and generate a concise, " + "informative commit " + "message with a small " + "explanation."
  const MultiCommitIntro: string :=
    "Based on these " + "summaries of git diff " + "chunks, generate a " + "concise, informative " + "commit message."
  const PrIntro: string :=
    "Analyze this git diff " + "and generate a " + "comprehensive Pull " + "Request message."
  const MultiPrIntro: string :=
    "Based on these " + "summaries of git diff " + "chunks, generate a " + "comprehensive Pull " + "Request message."
  const TitleIntro: string :=
    "Analyze this git diff " + "and generate a concise " + "Pull Request title."
  const MultiTitleIntro: string :=
    "Based on these " + "summaries of git diff " + "chunks, generate a " + "concise Pull Request " + "title."

  /** The opening sentence of a prompt. */
  function Intro(kind: RequestKind, mode: Mode): string {
    match (kind, mode)
    case (CommitMessage, SingleChunk) => CommitIntro
    case (CommitMessage, MultiChunk) => MultiCommitIntro
    case (PrMessage, SingleChunk) => PrIntro
    case (PrMessage, MultiChunk) => MultiPrIntro
    case (PrTitle, SingleChunk) => TitleIntro
    case (PrTitle, MultiChunk) => MultiTitleIntro
  }

  const CommitRules: seq<string> := [
    "Rules for the commit " + "message:",
    "1. Use conventional " + "commit format: " + "type(scope): " + "description",
    "2. Types: " + CommitTypes,
    "3. Keep the first line " + SubjectLimit,
    "4. Be specific about " + "what changed",
    "5. Focus on the \"why\" " + "and \"what\", not the " + "\"how\""
  ]

  const TitleRules: seq<string> := [
    "Rules for the PR title:",
    "1. Keep it " + TitleLimit,
    "2. Use conventional " + "commit format: " + "type(scope): " + "description",
    "3. Types: " + CommitTypes,
    "4. Be specific about " + "what changed",
    "5. Focus on the main " + "feature/change"
  ]

  /** What each numbered section of a pull-request message should hold. */
  const TitleDirection: string :=
    " Use conventional " + "commit format " + "(type(scope): " + "description) - keep " + TitleLimit
  const DescriptionDirection: string := " Explain what " + "this PR does and why"
  const ChangesDirection: string := " List the main " + "changes made"
  const TestingDirection: string := " Mention how this " + "should be tested " + "(if applicable)"

  const PrRules: seq<string> := [
    "Format the PR message " + "as follows:",
    "1. " + TitleLabel + TitleDirection,
    "2. " + DescriptionLabel + DescriptionDirection,
    "3. " + ChangesLabel + ChangesDirection,
    "4. " + TestingLabel + TestingDirection,
    "",
    "Rules:",
    "- Be clear and " + "informative",
    "- Focus on the \"what\" " + "and \"why\"",
    "- Use markdown " + "formatting",
    "- Include relevant " + "details for reviewers"
  ]

  function Rules(kind: RequestKind): seq<string> {
    match kind
    case CommitMessage => CommitRules
    case PrMessage => PrRules
    case PrTitle => TitleRules
  }

  /** The line introducing the payload. */
  function Heading(mode: Mode): string {
    match mode
    case SingleChunk => "Git diff:"
    case MultiChunk => "Change" + " " + "summaries:"
  }

  function Closing(kind: RequestKind): string {
    match kind
    case CommitMessage => "Generate only the " + "commit message, " + "nothing else."
    case PrMessage => "Generate a complete PR " + "message with title " + "and description."
    case PrTitle => "Generate only the PR " + "title, nothing else."
  }

  /** The template's lines before the payload. */
  function Preamble(kind: RequestKind, mode: Mode): seq<string> {
    ["", Intro(kind, mode), ""] + Rules(kind) + ["", Heading(mode)]
  }

  /** The template's lines after the payload. */
  function Coda(kind: RequestKind): seq<string> {
    ["", Closing(kind), ""]
  }

  function TemplateLines(kind: RequestKind, mode: Mode, payload: string): seq<string> {
    Preamble(kind, mode) + [payload] + Coda(kind)
  }

  /**
    The prompt of a kind and mode around its payload. The four builders
    `_create_single_chunk_commit_prompt`, `_create_multi_chunk_commit_prompt`,
    `_create_single_chunk_pr_prompt` and `_create_multi_chunk_pr_prompt` are
    this function at their kind and mode; the two pull-request builders give
    kind `PrKind(title_only)`.
   */
  function Template(kind: RequestKind, mode: Mode, payload: string): string {
    Join(TemplateLines(kind, mode, payload))
  }

  /** `f"Chunk {i+1}: {summary}"`. */
  function SummaryLine(i: nat, summary: string): string {
    "Chunk " + Decimal(i + 1) + ": " + summary
  }

  /**
    The number of a summary line reads back unambiguously: two summary lines
    are equal only when their chunk numbers and their summaries are.
   */
  lemma SummaryLineReadsBack(i: nat, a: string, j: nat, b: string)
    ensures SummaryLine(i, a) == SummaryLine(j, b) <==> i == j && a == b
  {
    if SummaryLine(i, a) == SummaryLine(j, b) {
      var di, dj := Decimal(i + 1), Decimal(j + 1);
      LabelParts("Chunk ", di, ": ", a);
      LabelParts("Chunk ", dj, ": ", b);
      var tail := SummaryLine(i, a)[6..];
      assert tail == di + (": " + a) && tail == dj + (": " + b);
      DigitRunOf(di, ": " + a);
      DigitRunOf(dj, ": " + b);
      assert di == tail[..|di|] && dj == tail[..|dj|];
      DecimalInjective(i + 1, j + 1);
      assert a == tail[|di| + 2..] && b == tail[|dj| + 2..];
    }
  }

  /** Where the pieces of a labelled line sit. */
  lemma LabelParts(p: string, d: string, q: string, s: string)
    ensures (p + d + q + s)[|p|..] == d + (q + s)
    ensures (d + (q + s))[..|d|] == d && (d + (q + s))[|d| + |q|..] == s
  {
    assert (p + d + q + s) == p + (d + (q + s));
  }

  function SummaryLines(summaries: seq<string>): (r: seq<string>)
    ensures |r| == |summaries|
    ensures forall i :: 0 <= i < |r| ==> r[i] == SummaryLine(i, summaries[i])
  {
    seq(|summaries|, i requires 0 <= i < |summaries| => SummaryLine(i, summaries[i]))
  }

  /** The multi-chunk payload: one numbered line per summary, joined by '\n'. */
  function RenderSummaries(summaries: seq<string>): string {
    Join(SummaryLines(summaries))
  }

  /** The text `_create_multi_chunk_*_prompt` builds once the summaries are known. */
  function MultiChunkPrompt(kind: RequestKind, summaries: seq<string>): string {
    Template(kind, MultiChunk, RenderSummaries(summaries))
  }

  // ---------------------------------------------------------------------
  // Where things sit in a joined template

  /** Joining three non-empty runs of lines. */
  lemma JoinThree(a: seq<string>, b: seq<string>, c: seq<string>)
    requires |a| >= 1 && |b| >= 1 && |c| >= 1
    ensures Join(a + b + c) == Join(a) + "\n" + Join(b) + "\n" + Join(c)
  {
    JoinAppend(a, b);
    JoinAppend(a + b, c);
  }

  /** A needle inside line `i` of some lines is inside their join. */
  lemma OccursInLine(ls: seq<string>, i: nat, needle: string, k: int)
    requires i < |ls|
    requires OccursAt(ls[i], needle, k)
    ensures OccursAt(Join(ls), needle, Cost(ls[..i]) + k)
  {
    LineStart(ls, i);
    OccursWithin(Join(ls), ls[i], Cost(ls[..i]), needle, k);
  }

  lemma PreambleShape(kind: RequestKind, mode: Mode)
    ensures |Preamble(kind, mode)| == |Rules(kind)| + 5
    ensures Preamble(kind, mode)[1] == Intro(kind, mode)
    ensures forall j :: 0 <= j < |Rules(kind)| ==> Preamble(kind, mode)[3 + j] == Rules(kind)[j]
    ensures Preamble(kind, mode)[|Rules(kind)| + 4] == Heading(mode)
  {
  }

  /** Two lines ahead of a non-empty run, joined. */
  lemma JoinPairThen(x: string, line: string, post: seq<string>)
    requires |post| >= 1
    ensures Join([x, line] + post) == x + "\n" + line + "\n" + Join(post)
  {
    assert Join([x, line]) == x + "\n" + line by {
      assert [x, line][1..] == [line];
    }
    JoinAppend([x, line], post);
  }

  /** Moving the last element of a run over to the next one. */
  lemma Regroup<T>(pre: seq<T>, x: T, post: seq<T>)
    requires |pre| >= 1
    ensures pre + [x] + post == pre[..|pre| - 1] + ([pre[|pre| - 1], x] + post)
  {
    assert pre == pre[..|pre| - 1] + [pre[|pre| - 1]];
  }

  /** A line between two non-empty runs of lines sits between two separators, after the last line of the first run. */
  lemma LineAfterLast(pre: seq<string>, line: string, post: seq<string>)
    requires |pre| >= 1 && |post| >= 1
    ensures Occurs(Join(pre + [line] + post), pre[|pre| - 1] + "\n" + line + "\n")
  {
    var n := |pre|;
    var x := pre[n - 1];
    var needle := x + "\n" + line + "\n";
    var tail := [x, line] + post;
    Regroup(pre, line, post);
    JoinPairThen(x, line, post);
    OccursFront(needle, Join(post));
    if n == 1 {
      assert pre[..0] == [];
      assert [] + tail == tail;
    } else {
      JoinAppend(pre[..n - 1], tail);
      OccursBehind(Join(pre[..n - 1]) + "\n", Join(tail), needle, 0);
    }
  }

  /**
    Every prompt embeds its payload verbatim, on its own line right after the
    heading: "Git diff:" for one chunk, "Change summaries:" for several.
   */
  lemma PayloadAfterHeading(kind: RequestKind, mode: Mode, payload: string)
    ensures Occurs(Template(kind, mode, payload), Heading(mode) + "\n" + payload + "\n")
  {
    PreambleShape(kind, mode);
    LineAfterLast(Preamble(kind, mode), payload, Coda(kind));
  }

  /** Commit prompts, in either mode, list the allowed types and the 50-character subject rule. */
  lemma CommitPromptRules(mode: Mode, payload: string)
    ensures Occurs(Template(CommitMessage, mode, payload), CommitTypes)
    ensures Occurs(Template(CommitMessage, mode, payload), SubjectLimit)
  {
    RuleEndsWith(CommitMessage, mode, payload, 2, "2. Types: ", CommitTypes);
    RuleEndsWith(CommitMessage, mode, payload, 3, "3. Keep the first line ", SubjectLimit);
  }

  /** Title-only prompts, in either mode, ask for a title under 72 characters of the listed types. */
  lemma TitlePromptRules(mode: Mode, payload: string)
    ensures Occurs(Template(PrTitle, mode, payload), TitleLimit)
    ensures Occurs(Template(PrTitle, mode, payload), CommitTypes)
  {
    RuleEndsWith(PrTitle, mode, payload, 1, "1. Keep it ", TitleLimit);
    RuleEndsWith(PrTitle, mode, payload, 3, "3. Types: ", CommitTypes);
  }

  /** A rule line that ends with `needle` puts `needle` into every prompt of its kind. */
  lemma RuleEndsWith(kind: RequestKind, mode: Mode, payload: string, j: nat, head: string, needle: string)
    requires j < |Rules(kind)| && Rules(kind)[j] == head + needle
    ensures Occurs(Template(kind, mode, payload), needle)
  {
    var ls := TemplateLines(kind, mode, payload);
    PreambleShape(kind, mode);
    assert ls[3 + j] == head + needle;
    OccursInside(head, needle, [], needle, 0);
    assert head + needle + [] == head + needle;
    OccursInLine(ls, 3 + j, needle, |head|);
  }

  /** A label right after the "k. " of a numbered line. */
  lemma LabelAfterNumber(number: string, name: string, rest: string)
    requires |number| == 3
    ensures OccursAt(number + name + rest, name, 3)
  {
    OccursInside(number, name, rest, name, 0);
  }

  /**
    A "k. Label: ..." line among joined lines puts the label three
    characters after the start of that line.
   */
  lemma NumberedLine(ls: seq<string>, i: nat, number: string, name: string, rest: string)
    requires i < |ls|
    requires |number| == 3 && ls[i] == number + name + rest
    ensures OccursAt(Join(ls), name, Cost(ls[..i]) + 3)
  {
    LabelAfterNumber(number, name, rest);
    OccursInLine(ls, i, name, 3);
  }

  /** Lines further down a template start further along its text. */
  lemma LineOrder(ls: seq<string>, i: nat, j: nat)
    requires i < j < |ls|
    ensures Cost(ls[..i]) < Cost(ls[..j])
  {
    LineStart(ls, i);
    PrefixCost(ls[..i + 1], ls[..j]);
  }

  /** Of two numbered lines, the label on the earlier one comes first in the joined text. */
  lemma NumberedLinesInOrder(ls: seq<string>, i: nat, j: nat, na: string, a: string, ra: string, nb: string, b: string, rb: string)
    requires i < j < |ls|
    requires |na| == 3 && ls[i] == na + a + ra
    requires |nb| == 3 && ls[j] == nb + b + rb
    ensures OccursAt(Join(ls), a, Cost(ls[..i]) + 3) && OccursAt(Join(ls), b, Cost(ls[..j]) + 3)
    ensures Cost(ls[..i]) + 3 < Cost(ls[..j]) + 3
  {
    NumberedLine(ls, i, na, a, ra);
    NumberedLine(ls, j, nb, b, rb);
    LineOrder(ls, i, j);
  }

  /** Where the four numbered section lines sit in a full pull-request template. */
  lemma PrSectionLines(mode: Mode, payload: string)
    ensures var ls := TemplateLines(PrMessage, mode, payload);
      && |ls| > 7
      && ls[4] == "1. " + TitleLabel + TitleDirection
      && ls[5] == "2. " + DescriptionLabel + DescriptionDirection
      && ls[6] == "3. " + ChangesLabel + ChangesDirection
      && ls[7] == "4. " + TestingLabel + TestingDirection
  {
    PreambleShape(PrMessage, mode);
  }

  /** Four consecutive numbered section lines put their labels in order in the joined text. */
  lemma SectionsInOrder(ls: seq<string>, i: nat) returns (p1: nat, p2: nat, p3: nat, p4: nat)
    requires i + 3 < |ls|
    requires ls[i] == "1. " + TitleLabel + TitleDirection
    requires ls[i + 1] == "2. " + DescriptionLabel + DescriptionDirection
    requires ls[i + 2] == "3. " + ChangesLabel + ChangesDirection
    requires ls[i + 3] == "4. " + TestingLabel + TestingDirection
    ensures p1 < p2 < p3 < p4
    ensures OccursAt(Join(ls), TitleLabel, p1) && OccursAt(Join(ls), DescriptionLabel, p2)
    ensures OccursAt(Join(ls), ChangesLabel, p3) && OccursAt(Join(ls), TestingLabel, p4)
  {
    NumberedLinesInOrder(ls, i, i + 1, "1. ", TitleLabel, TitleDirection, "2. ", DescriptionLabel, DescriptionDirection);
    NumberedLinesInOrder(ls, i + 2, i + 3, "3. ", ChangesLabel, ChangesDirection, "4. ", TestingLabel, TestingDirection);
    LineOrder(ls, i + 1, i + 2);
    p1, p2, p3, p4 := Cost(ls[..i]) + 3, Cost(ls[..i + 1]) + 3, Cost(ls[..i + 2]) + 3, Cost(ls[..i + 3]) + 3;
  }

  /**
    Full pull-request prompts, in either mode, carry the four section labels
    Title, Description, Changes and Testing, in that order.
   */
  lemma PrPromptSections(mode: Mode, payload: string) returns (p1: nat, p2: nat, p3: nat, p4: nat)
    ensures p1 < p2 < p3 < p4
    ensures OccursAt(Template(PrMessage, mode, payload), TitleLabel, p1)
    ensures OccursAt(Template(PrMessage, mode, payload), DescriptionLabel, p2)
    ensures OccursAt(Template(PrMessage, mode, payload), ChangesLabel, p3)
    ensures OccursAt(Template(PrMessage, mode, payload), TestingLabel, p4)
  {
    PrSectionLines(mode, payload);
    p1, p2, p3, p4 := SectionsInOrder(TemplateLines(PrMessage, mode, payload), 4);
  }

  // ---------------------------------------------------------------------
  // Title-only prompts carry no section labels of their own

  /** Both labels hold a 'g'; a line without one holds neither label. */
  lemma LacksSectionLabelsNoG(line: string)
    requires 'g' !in line
    ensures !Occurs(line, ChangesLabel) && !Occurs(line, TestingLabel)
  {
    assert ChangesLabel[4] == 'g' && TestingLabel[6] == 'g';
    MissingChar(line, ChangesLabel, 'g');
    MissingChar(line, TestingLabel, 'g');
  }

  /** Both labels end in ':'; a line without one holds neither label. */
  lemma LacksSectionLabelsNoColon(line: string)
    requires ':' !in line
    ensures !Occurs(line, ChangesLabel) && !Occurs(line, TestingLabel)
  {
    assert ChangesLabel[7] == ':' && TestingLabel[7] == ':';
    MissingChar(line, ChangesLabel, ':');
    MissingChar(line, TestingLabel, ':');
  }

  lemma HeadingLacksSectionLabels(mode: Mode)
    ensures !Occurs(Heading(mode), ChangesLabel) && !Occurs(Heading(mode), TestingLabel)
  {
    if mode == SingleChunk {
      LacksSectionLabelsNoG("Git diff:");
    } else {
      assert Heading(mode) == "Change" + [' '] + "summaries:";
      LacksSectionLabelsNoG("summaries:");
      OccursAcross("Change", ' ', "summaries:", ChangesLabel);
      OccursAcross("Change", ' ', "summaries:", TestingLabel);
    }
  }

  // The title-only lines checked piece by piece for the one character that
  // rules both labels out.

  lemma TitleIntroNoColon()
    ensures ':' !in TitleIntro
  {
    assert ':' !in "Analyze this git diff ";
    assert ':' !in "and generate a concise ";
    assert ':' !in "Pull Request title.";
  }

  lemma MultiTitleIntroNoColon()
    ensures ':' !in MultiTitleIntro
  {
    assert ':' !in "Based on these ";
    assert ':' !in "summaries of git diff ";
    assert ':' !in "chunks, generate a ";
    assert ':' !in "concise Pull Request ";
    assert ':' !in "title.";
  }

  lemma TitleRuleHeadNoG()
    ensures 'g' !in TitleRules[0] && 'g' !in TitleRules[1]
  {
    assert 'g' !in "Rules for the PR title:";
    assert 'g' !in "1. Keep it ";
    assert 'g' !in TitleLimit;
  }

  lemma TitleRuleFormatNoG()
    ensures 'g' !in TitleRules[2]
  {
    assert 'g' !in "2. Use conventional ";
    assert 'g' !in "commit format: ";
    assert 'g' !in "type(scope): ";
    assert 'g' !in "description";
  }

  lemma TitleRuleTypesNoG()
    ensures 'g' !in TitleRules[3]
  {
    assert 'g' !in "3. Types: ";
    assert 'g' !in "feat, fix, docs, ";
    assert 'g' !in "style, refactor, test, chore";
  }

  lemma TitleRuleTailNoColon()
    ensures ':' !in TitleRules[4] && ':' !in TitleRules[5]
  {
    assert ':' !in "4. Be specific about ";
    assert ':' !in "what changed";
    assert ':' !in "5. Focus on the main ";
    assert ':' !in "feature/change";
  }

  lemma TitleClosingNoColon()
    ensures ':' !in Closing(PrTitle)
  {
    assert ':' !in "Generate only the PR ";
    assert ':' !in "title, nothing else.";
  }

  lemma TitleIntroLacksSectionLabels(mode: Mode)
    ensures !Occurs(Intro(PrTitle, mode), ChangesLabel) && !Occurs(Intro(PrTitle, mode), TestingLabel)
  {
    if mode == SingleChunk {
      TitleIntroNoColon();
    } else {
      MultiTitleIntroNoColon();
    }
    LacksSectionLabelsNoColon(Intro(PrTitle, mode));
  }

  lemma TitleRuleLacksSectionLabels(j: nat)
    requires j < |TitleRules|
    ensures !Occurs(TitleRules[j], ChangesLabel) && !Occurs(TitleRules[j], TestingLabel)
  {
    if j < 2 {
      TitleRuleHeadNoG();
      LacksSectionLabelsNoG(TitleRules[j]);
    } else if j == 2 {
      TitleRuleFormatNoG();
      LacksSectionLabelsNoG(TitleRules[j]);
    } else if j == 3 {
      TitleRuleTypesNoG();
      LacksSectionLabelsNoG(TitleRules[j]);
    } else {
      TitleRuleTailNoColon();
      LacksSectionLabelsNoColon(TitleRules[j]);
    }
  }

  /** Every line of a title-only template, other than the payload, lacks both labels. */
  lemma TitleLinesLackSectionLabels(mode: Mode, payload: string, i: nat)
    requires i < |TemplateLines(PrTitle, mode, payload)| && i != |TitleRules| + 5
    ensures var line := TemplateLines(PrTitle, mode, payload)[i];
      !Occurs(line, ChangesLabel) && !Occurs(line, TestingLabel)
  {
    var ls := TemplateLines(PrTitle, mode, payload);
    PreambleShape(PrTitle, mode);
    if i == 1 {
      TitleIntroLacksSectionLabels(mode);
    } else if 3 <= i < 9 {
      assert ls[i] == TitleRules[i - 3];
      TitleRuleLacksSectionLabels(i - 3);
    } else if i == 10 {
      HeadingLacksSectionLabels(mode);
    } else if i == 13 {
      TitleClosingNoColon();
      LacksSectionLabelsNoColon(Closing(PrTitle));
    } else {
      assert ls[i] == "";
      LacksSectionLabelsNoG("");
    }
  }

  /**
    A title-only prompt, in either mode, holds "Changes:" or "Testing:" only
    when its payload does: the template itself never asks for those sections.
   */
  lemma TitlePromptWithoutSections(mode: Mode, payload: string)
    ensures Occurs(Template(PrTitle, mode, payload), ChangesLabel) <==> Occurs(payload, ChangesLabel)
    ensures Occurs(Template(PrTitle, mode, payload), TestingLabel) <==> Occurs(payload, TestingLabel)
  {
    var ls := TemplateLines(PrTitle, mode, payload);
    var at := |TitleRules| + 5;
    PreambleShape(PrTitle, mode);
    assert ls[at] == payload;
    forall i | 0 <= i < |ls| && i != at
      ensures !Occurs(ls[i], ChangesLabel) && !Occurs(ls[i], TestingLabel)
    {
      TitleLinesLackSectionLabels(mode, payload, i);
    }
    OccursInJoin(ls, ChangesLabel);
    OccursInJoin(ls, TestingLabel);
  }

  /** The "Chunk i: " prefix of a summary line holds neither label. */
  lemma SummaryLineSectionLabels(i: nat, summary: string, needle: string)
    requires needle == ChangesLabel || needle == TestingLabel
    ensures Occurs(SummaryLine(i, summary), needle) <==> Occurs(summary, needle)
  {
    var d := Decimal(i + 1) + ":";
    assert 'g' !in d by {
      forall k | 0 <= k < |d|
        ensures d[k] != 'g'
      {
        if k < |d| - 1 {
          assert IsDigit(Decimal(i + 1)[k]);
        }
      }
    }
    LacksSectionLabelsNoG(d);
    assert SummaryLine(i, summary) == "Chunk" + [' '] + (d + [' '] + summary);
    OccursAcross(d, ' ', summary, needle);
    OccursAcross("Chunk", ' ', d + [' '] + summary, needle);
  }

  /**
    A multi-chunk title-only prompt holds "Changes:" or "Testing:" only when
    one of the summaries does.
   */
  lemma MultiTitlePromptWithoutSections(summaries: seq<string>, needle: string)
    requires needle == ChangesLabel || needle == TestingLabel
    ensures Occurs(MultiChunkPrompt(PrTitle, summaries), needle)
        <==> OccursInSome(summaries, needle)
  {
    var ls := SummaryLines(summaries);
    TitlePromptWithoutSections(MultiChunk, RenderSummaries(summaries));
    OccursInJoin(ls, needle);
    forall i | 0 <= i < |summaries|
      ensures Occurs(ls[i], needle) <==> Occurs(summaries[i], needle)
    {
      SummaryLineSectionLabels(i, summaries[i], needle);
    }
  }

  // ---------------------------------------------------------------------
  // Multi-chunk prompts list the summaries in chunk order

  /** The lines of a multi-chunk prompt once the rendered summaries are laid out one per line. */
  function MultiChunkLines(kind: RequestKind, summaries: seq<string>): seq<string> {
    Preamble(kind, MultiChunk) + SummaryLines(summaries) + Coda(kind)
  }

  /** Where the line of summary `i` starts in a multi-chunk prompt. */
  function SummaryStart(kind: RequestKind, summaries: seq<string>, i: nat): nat
    requires i <= |summaries|
  {
    Cost(MultiChunkLines(kind, summaries)[..|Preamble(kind, MultiChunk)| + i])
  }

  lemma MultiChunkLayout(kind: RequestKind, summaries: seq<string>)
    requires |summaries| >= 1
    ensures MultiChunkPrompt(kind, summaries) == Join(MultiChunkLines(kind, summaries))
  {
    var pre := Preamble(kind, MultiChunk);
    var ls := SummaryLines(summaries);
    var post := Coda(kind);
    JoinThree(pre, [Join(ls)], post);
    JoinThree(pre, ls, post);
  }

  /** Line `i` of a middle run keeps its place among the lines around it. */
  lemma RunLineStart(pre: seq<string>, mid: seq<string>, post: seq<string>, i: nat)
    requires i < |mid|
    ensures var ls := pre + mid + post;
      && OccursAt(Join(ls), mid[i], Cost(ls[..|pre| + i]))
      && Cost(ls[..|pre| + i]) + |mid[i]| < Cost(ls[..|pre| + i + 1])
  {
    var ls := pre + mid + post;
    assert ls[|pre| + i] == mid[i];
    LineStart(ls, |pre| + i);
  }

  /**
    Summary `i` appears as the line "Chunk i+1: summary", and each such line
    ends before the next one starts: the summaries keep chunk order.
   */
  lemma SummariesInOrder(kind: RequestKind, summaries: seq<string>)
    ensures forall i :: 0 <= i < |summaries| ==>
      OccursAt(MultiChunkPrompt(kind, summaries), SummaryLine(i, summaries[i]), SummaryStart(kind, summaries, i))
    ensures forall i :: 0 <= i < |summaries| - 1 ==>
      SummaryStart(kind, summaries, i) + |SummaryLine(i, summaries[i])| < SummaryStart(kind, summaries, i + 1)
  {
    if |summaries| >= 1 {
      MultiChunkLayout(kind, summaries);
      var pre := Preamble(kind, MultiChunk);
      var mid := SummaryLines(summaries);
      var post := Coda(kind);
      forall i | 0 <= i < |summaries|
        ensures OccursAt(MultiChunkPrompt(kind, summaries), SummaryLine(i, summaries[i]), SummaryStart(kind, summaries, i))
        ensures i < |summaries| - 1 ==>
          SummaryStart(kind, summaries, i) + |SummaryLine(i, summaries[i])| < SummaryStart(kind, summaries, i + 1)
      {
        RunLineStart(pre, mid, post, i);
      }
    }
  }
}
