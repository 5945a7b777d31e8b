/**
  The AI service: chunk the diff, summarise every chunk with the lite model
  when there is more than one, build the prompt for the request kind, make
  one final call on the default model and strip its answer.

  The generation client is the parameter `gen`, a function from a model
  name and a prompt to the response text; every call the service makes is
  recorded, in order, in the trace it returns alongside its value.
 */
module AIService {
  import opened Lines
  import opened Strings
  import opened TextUtils
  import opened Prompts

  /** `DEFAULT_MODEL`, used for the final message. */
  const DefaultModel: string := "gemini-2.0-flash-exp"

  /** `LITE_MODEL`, used to summarise chunks. */
  const LiteModel: string := "gemini-2.0-flash-lite"

  /** The response text the client returns for a model and a prompt. */
  type Backend = (string, string) -> string

  /** One request to the client. */
  datatype Call = Call(model: string, prompt: string)

  /** A value together with the client calls made, in order, to compute it. */
  datatype Traced<T> = Traced(value: T, calls: seq<Call>)

  /** The lines of the prompt `_summarize_chunk` sends, around the chunk. */
  function SummaryPromptLines(chunk: string): seq<string> {
    [ "",
      "Summarize the changes " + "in this git diff chunk. " + "Be concise and focus " + "on what was modified:",
      "",
      chunk,
      "",
      "Provide a brief " + "summary of the changes:",
      "" ]
  }

  function SummaryPrompt(chunk: string): string {
    Join(SummaryPromptLines(chunk))
  }

  /** `_summarize_chunk`: one call on the lite model, its answer stripped. */
  function SummarizeChunk(gen: Backend, chunk: string): (r: Traced<string>)
    ensures r.calls == [Call(LiteModel, SummaryPrompt(chunk))]
    ensures StripOf(r.value, gen(LiteModel, SummaryPrompt(chunk)))
  {
    var prompt := SummaryPrompt(chunk);
    Traced(Strip(gen(LiteModel, prompt)), [Call(LiteModel, prompt)])
  }

  /**
    The summarising loop of the multi-chunk builders: one lite call per
    chunk, in chunk order, and one stripped summary per chunk.
   */
  function SummarizeChunks(gen: Backend, chunks: seq<string>): (r: Traced<seq<string>>)
    ensures |r.value| == |chunks| && |r.calls| == |chunks|
    ensures forall i :: 0 <= i < |chunks| ==> r.calls[i] == Call(LiteModel, SummaryPrompt(chunks[i]))
    ensures forall i :: 0 <= i < |chunks| ==> r.value[i] == Strip(gen(LiteModel, SummaryPrompt(chunks[i])))
    decreases |chunks|
  {
    if chunks == [] then Traced([], [])
    else
      var first := SummarizeChunk(gen, chunks[0]);
      var rest := SummarizeChunks(gen, chunks[1..]);
      ConsImage(chunks, first.value, rest.value, c => Strip(gen(LiteModel, SummaryPrompt(c))));
      ConsImage(chunks, first.calls[0], rest.calls, c => Call(LiteModel, SummaryPrompt(c)));
      Traced([first.value] + rest.value, first.calls + rest.calls)
  }

  /** A value put in front of the images of the other elements, when it is the first element's image. */
  lemma ConsImage<A, B>(xs: seq<A>, y: B, ys: seq<B>, f: A -> B)
    requires |xs| >= 1 && y == f(xs[0])
    requires |ys| == |xs| - 1 && forall i :: 0 <= i < |ys| ==> ys[i] == f(xs[1..][i])
    ensures |[y] + ys| == |xs|
    ensures forall i :: 0 <= i < |xs| ==> ([y] + ys)[i] == f(xs[i])
  {
    forall i | 1 <= i < |xs|
      ensures ([y] + ys)[i] == f(xs[i])
    {
      assert xs[i] == xs[1..][i - 1];
    }
  }

  /**
    The prompt for a kind of request, built from the chunks of the diff:
    the single-chunk template around the chunk itself when there is exactly
    one, and otherwise the multi-chunk template around the summaries, which
    costs one summarising call per chunk.
   */
  function CreatePrompt(gen: Backend, kind: RequestKind, chunks: seq<string>): (r: Traced<string>)
    ensures |r.calls| == (if |chunks| == 1 then 0 else |chunks|)
    ensures forall i :: 0 <= i < |r.calls| ==> r.calls[i] == Call(LiteModel, SummaryPrompt(chunks[i]))
    ensures |chunks| == 1 ==> r.value == Template(kind, SingleChunk, chunks[0])
    ensures |chunks| != 1 ==> r.calls == SummarizeChunks(gen, chunks).calls
    ensures |chunks| != 1 ==> r.value == MultiChunkPrompt(kind, SummarizeChunks(gen, chunks).value)
  {
    if |chunks| == 1 then
      Traced(Template(kind, SingleChunk, chunks[0]), [])
    else
      var summaries := SummarizeChunks(gen, chunks);
      Traced(MultiChunkPrompt(kind, summaries.value), summaries.calls)
  }

  /**
    What building the prompt gives a caller: with one chunk, no call and the
    chunk itself on its own line right after "Git diff:"; otherwise the
    summarising calls, and the numbered summaries right after
    "Change summaries:".
   */
  lemma PromptAroundPayload(gen: Backend, kind: RequestKind, chunks: seq<string>)
    ensures var p := CreatePrompt(gen, kind, chunks);
      |chunks| == 1 ==> p.calls == [] && Occurs(p.value, Heading(SingleChunk) + "\n" + chunks[0] + "\n")
    ensures var p := CreatePrompt(gen, kind, chunks);
      |chunks| != 1 ==>
        && p.calls == SummaryCalls(chunks)
        && Occurs(p.value, Heading(MultiChunk) + "\n" + RenderSummaries(SummarizeChunks(gen, chunks).value) + "\n")
  {
    if |chunks| == 1 {
      PayloadAfterHeading(kind, SingleChunk, chunks[0]);
    } else {
      PromptCalls(gen, kind, chunks);
      PayloadAfterHeading(kind, MultiChunk, RenderSummaries(SummarizeChunks(gen, chunks).value));
    }
  }

  /**
    `generate_commit_message` (kind `CommitMessage`) and `generate_pr_message`
    (kind `PrKind(title_only)`): the calls are the summarising calls, one per
    chunk on the lite model, then exactly one call on the default model; the
    answer is that last response, stripped.
   */
  function Generate(gen: Backend, kind: RequestKind, diff: string): (r: Traced<string>)
    ensures var chunks := ChunkText(diff, MaxChunkSize);
      && |r.calls| == (if |chunks| == 1 then 1 else |chunks| + 1)
      && (forall i :: 0 <= i < |r.calls| - 1 ==> r.calls[i] == Call(LiteModel, SummaryPrompt(chunks[i])))
      && r.calls[|r.calls| - 1].model == DefaultModel
      && r.value == Strip(gen(DefaultModel, r.calls[|r.calls| - 1].prompt))
  {
    GenerateFrom(gen, kind, ChunkText(diff, MaxChunkSize))
  }

  /** `Generate` once the diff is chunked. */
  function GenerateFrom(gen: Backend, kind: RequestKind, chunks: seq<string>): (r: Traced<string>)
    ensures |r.calls| == (if |chunks| == 1 then 1 else |chunks| + 1)
    ensures forall i :: 0 <= i < |r.calls| - 1 ==> r.calls[i] == Call(LiteModel, SummaryPrompt(chunks[i]))
    ensures r.calls[|r.calls| - 1].model == DefaultModel
    ensures r.value == Strip(gen(DefaultModel, r.calls[|r.calls| - 1].prompt))
  {
    Conclude(gen, CreatePrompt(gen, kind, chunks))
  }

  /** The final call on a built prompt, appended to the calls that built it. */
  function Conclude(gen: Backend, prompt: Traced<string>): (r: Traced<string>)
    ensures |r.calls| == |prompt.calls| + 1
    ensures forall i :: 0 <= i < |prompt.calls| ==> r.calls[i] == prompt.calls[i]
    ensures r.calls[|prompt.calls|] == Call(DefaultModel, prompt.value)
  {
    Traced(Strip(gen(DefaultModel, prompt.value)), prompt.calls + [Call(DefaultModel, prompt.value)])
  }

  function GenerateCommitMessage(gen: Backend, diff: string): Traced<string> {
    Generate(gen, CommitMessage, diff)
  }

  function GeneratePrMessage(gen: Backend, diff: string, titleOnly: bool): Traced<string> {
    Generate(gen, PrKind(titleOnly), diff)
  }

  /** The prompt of the last call in a trace. */
  function LastPrompt(calls: seq<Call>): string
    requires |calls| >= 1
  {
    calls[|calls| - 1].prompt
  }

  // ---------------------------------------------------------------------
  // The two paths through the service

  /** The trace of a request is the trace of building its prompt, then the one final call on that prompt. */
  lemma FinalCall(gen: Backend, kind: RequestKind, diff: string)
    ensures var p := CreatePrompt(gen, kind, ChunkText(diff, MaxChunkSize));
      && Generate(gen, kind, diff).calls == p.calls + [Call(DefaultModel, p.value)]
      && LastPrompt(Generate(gen, kind, diff).calls) == p.value
  {
  }

  /**
    A diff that fits in one chunk (at most 2999 characters, or a single
    line) costs exactly one call, on the default model, whose prompt is the
    single-chunk template around the whole diff; a longer multi-line diff
    costs more than one call.
   */
  lemma SingleChunkPath(gen: Backend, kind: RequestKind, diff: string)
    ensures |Generate(gen, kind, diff).calls| == 1 <==> |diff| + 1 <= MaxChunkSize || '\n' !in diff
    ensures |diff| + 1 <= MaxChunkSize || '\n' !in diff ==>
      Generate(gen, kind, diff).calls == [Call(DefaultModel, Template(kind, SingleChunk, diff))]
  {
    var chunks := ChunkText(diff, MaxChunkSize);
    OneChunkExactly(diff, MaxChunkSize);
    ChunkRoundTrip(diff, MaxChunkSize);
  }

  /** The single-chunk prompt carries the diff verbatim on its own line right after "Git diff:". */
  lemma SingleChunkPromptEmbedsDiff(gen: Backend, kind: RequestKind, diff: string)
    requires |diff| + 1 <= MaxChunkSize || '\n' !in diff
    ensures Occurs(LastPrompt(Generate(gen, kind, diff).calls), "Git diff:" + "\n" + diff + "\n")
  {
    SingleChunkPath(gen, kind, diff);
    PayloadAfterHeading(kind, SingleChunk, diff);
  }

  /**
    With several chunks, the trace is one lite call per chunk in chunk order
    and then the default-model call whose prompt is the multi-chunk template
    around the stripped summaries, in the same order.
   */
  lemma MultiChunkPath(gen: Backend, kind: RequestKind, diff: string) returns (summaries: seq<string>)
    requires |ChunkText(diff, MaxChunkSize)| != 1
    ensures var chunks := ChunkText(diff, MaxChunkSize);
      && |summaries| == |chunks|
      && (forall i :: 0 <= i < |chunks| ==> StripOf(summaries[i], gen(LiteModel, SummaryPrompt(chunks[i]))))
      && Generate(gen, kind, diff).calls == SummaryCalls(chunks) + [Call(DefaultModel, MultiChunkPrompt(kind, summaries))]
  {
    var chunks := ChunkText(diff, MaxChunkSize);
    FinalCall(gen, kind, diff);
    PromptCalls(gen, kind, chunks);
    summaries := SummarizeChunks(gen, chunks).value;
  }

  /** Building a multi-chunk prompt costs exactly the summarising calls. */
  lemma PromptCalls(gen: Backend, kind: RequestKind, chunks: seq<string>)
    requires |chunks| != 1
    ensures CreatePrompt(gen, kind, chunks).calls == SummaryCalls(chunks)
  {
    var calls := CreatePrompt(gen, kind, chunks).calls;
    assert |calls| == |SummaryCalls(chunks)|;
    assert forall i :: 0 <= i < |calls| ==> calls[i] == SummaryCalls(chunks)[i];
  }

  /** The summarising calls for some chunks, in chunk order. */
  function SummaryCalls(chunks: seq<string>): (r: seq<Call>)
    ensures |r| == |chunks|
    ensures forall i :: 0 <= i < |chunks| ==> r[i] == Call(LiteModel, SummaryPrompt(chunks[i]))
  {
    seq(|chunks|, i requires 0 <= i < |chunks| => Call(LiteModel, SummaryPrompt(chunks[i])))
  }

  /** A summarising prompt carries its chunk verbatim, on a line of its own. */
  lemma SummaryPromptEmbedsChunk(chunk: string)
    ensures Occurs(SummaryPrompt(chunk), "\n" + chunk + "\n")
  {
    var ls := SummaryPromptLines(chunk);
    var pre := ls[..3];
    var post := ls[4..];
    assert ls == pre + [chunk] + post;
    LineAfterLast(pre, chunk, post);
    assert pre[2] + "\n" == "\n";
  }

  // ---------------------------------------------------------------------
  // What the final prompt asks for

  /** The final prompt of a commit request, in either mode, lists the allowed types and the 50-character rule. */
  lemma CommitPromptAsks(gen: Backend, diff: string)
    ensures Occurs(LastPrompt(GenerateCommitMessage(gen, diff).calls), CommitTypes)
    ensures Occurs(LastPrompt(GenerateCommitMessage(gen, diff).calls), SubjectLimit)
  {
    var chunks := ChunkText(diff, MaxChunkSize);
    FinalCall(gen, CommitMessage, diff);
    if |chunks| == 1 {
      CommitPromptRules(SingleChunk, chunks[0]);
    } else {
      CommitPromptRules(MultiChunk, RenderSummaries(SummarizeChunks(gen, chunks).value));
    }
  }

  /** The final prompt of a full pull-request request carries the four section labels in order. */
  lemma PrPromptAsks(gen: Backend, diff: string) returns (p1: nat, p2: nat, p3: nat, p4: nat)
    ensures p1 < p2 < p3 < p4
    ensures var t := LastPrompt(GeneratePrMessage(gen, diff, false).calls);
      && OccursAt(t, TitleLabel, p1) && OccursAt(t, DescriptionLabel, p2)
      && OccursAt(t, ChangesLabel, p3) && OccursAt(t, TestingLabel, p4)
  {
    var chunks := ChunkText(diff, MaxChunkSize);
    FinalCall(gen, PrMessage, diff);
    if |chunks| == 1 {
      p1, p2, p3, p4 := PrPromptSections(SingleChunk, chunks[0]);
    } else {
      p1, p2, p3, p4 := PrPromptSections(MultiChunk, RenderSummaries(SummarizeChunks(gen, chunks).value));
    }
  }

  /** The final prompt of a title-only request asks for a title under 72 characters. */
  lemma TitlePromptLimit(gen: Backend, diff: string)
    ensures Occurs(LastPrompt(GeneratePrMessage(gen, diff, true).calls), TitleLimit)
  {
    var chunks := ChunkText(diff, MaxChunkSize);
    FinalCall(gen, PrTitle, diff);
    if |chunks| == 1 {
      TitlePromptRules(SingleChunk, chunks[0]);
    } else {
      TitlePromptRules(MultiChunk, RenderSummaries(SummarizeChunks(gen, chunks).value));
    }
  }

  /**
    The final prompt of a single-chunk title-only request holds "Changes:"
    or "Testing:" only when the diff does.
   */
  lemma SingleTitlePromptSections(gen: Backend, diff: string, needle: string)
    requires needle == ChangesLabel || needle == TestingLabel
    requires |diff| + 1 <= MaxChunkSize || '\n' !in diff
    ensures Occurs(LastPrompt(GeneratePrMessage(gen, diff, true).calls), needle) <==> Occurs(diff, needle)
  {
    SingleChunkPath(gen, PrTitle, diff);
    TitlePromptWithoutSections(SingleChunk, diff);
  }

  /**
    The final prompt of a multi-chunk title-only request holds "Changes:" or
    "Testing:" only when one of the summaries does.
   */
  lemma MultiTitlePromptSections(gen: Backend, diff: string, needle: string)
    requires needle == ChangesLabel || needle == TestingLabel
    requires |ChunkText(diff, MaxChunkSize)| != 1
    ensures var summaries := SummarizeChunks(gen, ChunkText(diff, MaxChunkSize)).value;
      Occurs(LastPrompt(GeneratePrMessage(gen, diff, true).calls), needle)
      <==> OccursInSome(summaries, needle)
  {
    var chunks := ChunkText(diff, MaxChunkSize);
    var summaries := SummarizeChunks(gen, chunks).value;
    FinalCall(gen, PrTitle, diff);
    var t := LastPrompt(GeneratePrMessage(gen, diff, true).calls);
    assert t == MultiChunkPrompt(PrTitle, summaries);
    MultiTitlePromptWithoutSections(summaries, needle);
  }
}
