/**
  The greedy line-based chunker `chunk_text`.

  The text is split into lines; lines are accumulated into a group while the
  running cost (each line's length plus one for its separator) stays within the
  limit, and a group is closed when the next line would push the cost over the
  limit and the group already holds a line. Lines are never split, so a line
  that alone exceeds the limit becomes a chunk of its own. Each chunk is its
  group rejoined with '\n'.
 */
module TextUtils {
  import opened Lines

  /** The default limit, `MAX_CHUNK_SIZE`. */
  const MaxChunkSize: int := 3000

  /** The lines of all groups, in order. */
  function Flatten(gs: seq<seq<string>>): seq<string>
    decreases |gs|
  {
    if gs == [] then [] else gs[0] + Flatten(gs[1..])
  }

  /** Each group rejoined into one chunk. */
  function JoinEach(gs: seq<seq<string>>): (r: seq<string>)
    ensures |r| == |gs|
    ensures forall i :: 0 <= i < |gs| ==> r[i] == Join(gs[i])
  {
    seq(|gs|, i requires 0 <= i < |gs| => Join(gs[i]))
  }

  /**
    The accumulator loop of `chunk_text`, from the point where `cur` holds the
    open group, `size` its running cost and `rest` the lines not yet visited.
   */
  function Greedy(rest: seq<string>, cur: seq<string>, size: int, limit: int): seq<seq<string>>
    decreases |rest|
  {
    if rest == [] then
      if cur == [] then [] else [cur]
    else
      var lineSize := LineCost(rest[0]);
      if size + lineSize > limit && cur != [] then
        [cur] + Greedy(rest[1..], [rest[0]], lineSize, limit)
      else
        Greedy(rest[1..], cur + [rest[0]], size + lineSize, limit)
  }

  /** The groups of lines that `chunk_text` forms. */
  function Groups(lines: seq<string>, limit: int): seq<seq<string>> {
    Greedy(lines, [], 0, limit)
  }

  /** `chunk_text(text, limit)`. */
  function ChunkText(text: string, limit: int): seq<string> {
    JoinEach(Groups(Split(text), limit))
  }

  /**
    An independent description of the chunker's output: `gs` cuts `lines`
    into non-empty contiguous groups, every group of two or more lines fits
    the limit, and no group could have taken the first line of the next one.
   */
  ghost predicate GreedyPartition(gs: seq<seq<string>>, lines: seq<string>, limit: int) {
    && Flatten(gs) == lines
    && (forall i :: 0 <= i < |gs| ==> |gs[i]| >= 1)
    && (forall i :: 0 <= i < |gs| && |gs[i]| >= 2 ==> Cost(gs[i]) <= limit)
    && (forall i :: 0 <= i < |gs| - 1 ==> Cost(gs[i]) + LineCost(gs[i + 1][0]) > limit)
  }

  lemma FlattenCons(g: seq<string>, gs: seq<seq<string>>)
    ensures Flatten([g] + gs) == g + Flatten(gs)
  {
    assert ([g] + gs)[1..] == gs;
  }

  /** Putting a group in front of a greedy partition, where it fits and cannot take the next line. */
  lemma PartitionCons(g: seq<string>, t: seq<seq<string>>, limit: int)
    requires GreedyPartition(t, Flatten(t), limit)
    requires |g| >= 1 && (|g| >= 2 ==> Cost(g) <= limit)
    requires t != [] ==> Cost(g) + LineCost(t[0][0]) > limit
    ensures GreedyPartition([g] + t, g + Flatten(t), limit)
  {
    var gs := [g] + t;
    FlattenCons(g, t);
    forall i | 0 <= i < |gs| - 1
      ensures Cost(gs[i]) + LineCost(gs[i + 1][0]) > limit
    {
      if i > 0 {
        assert gs[i] == t[i - 1] && gs[i + 1] == t[i];
      }
    }
    forall i | 0 <= i < |gs| && |gs[i]| >= 2
      ensures Cost(gs[i]) <= limit
    {
      if i > 0 {
        assert gs[i] == t[i - 1];
      }
    }
    forall i | 0 <= i < |gs|
      ensures |gs[i]| >= 1
    {
      if i > 0 {
        assert gs[i] == t[i - 1];
      }
    }
  }

  /** The invariant of the accumulator loop, stated for every suffix of the input. */
  lemma {:induction false} GreedyInvariant(rest: seq<string>, cur: seq<string>, size: int, limit: int)
    requires size == Cost(cur)
    requires |cur| >= 2 ==> Cost(cur) <= limit
    ensures var gs := Greedy(rest, cur, size, limit);
      && GreedyPartition(gs, cur + rest, limit)
      && (cur != [] ==> |gs| >= 1 && cur <= gs[0])
    decreases |rest|
  {
    var gs := Greedy(rest, cur, size, limit);
    if rest == [] {
      assert cur + rest == cur;
      if cur != [] {
        FlattenCons(cur, []);
      }
    } else {
      var lineSize := LineCost(rest[0]);
      assert Cost([rest[0]]) == lineSize;
      if size + lineSize > limit && cur != [] {
        GreedyInvariant(rest[1..], [rest[0]], lineSize, limit);
        var tail := Greedy(rest[1..], [rest[0]], lineSize, limit);
        assert [rest[0]] + rest[1..] == rest;
        assert tail[0][0] == rest[0];
        PartitionCons(cur, tail, limit);
        assert gs == [cur] + tail;
      } else {
        CostAppend(cur, [rest[0]]);
        GreedyInvariant(rest[1..], cur + [rest[0]], size + lineSize, limit);
        assert cur + [rest[0]] + rest[1..] == cur + rest;
        assert cur <= cur + [rest[0]];
      }
    }
  }

  /** The chunker's groups satisfy the independent description. */
  lemma GroupsArePartition(lines: seq<string>, limit: int)
    ensures GreedyPartition(Groups(lines, limit), lines, limit)
  {
    GreedyInvariant(lines, [], 0, limit);
    assert [] + lines == lines;
  }

  lemma FlattenEmpty(gs: seq<seq<string>>)
    requires forall i :: 0 <= i < |gs| ==> |gs[i]| >= 1
    ensures gs == [] <==> Flatten(gs) == []
  {
    if gs != [] {
      assert |gs[0]| >= 1;
    }
  }

  /** A suffix of a greedy partition is a greedy partition of the remaining lines. */
  lemma PartitionTail(gs: seq<seq<string>>, lines: seq<string>, limit: int)
    requires |gs| >= 1
    requires GreedyPartition(gs, lines, limit)
    ensures GreedyPartition(gs[1..], Flatten(gs[1..]), limit)
    ensures lines == gs[0] + Flatten(gs[1..])
  {
    var t := gs[1..];
    forall i | 0 <= i < |t| - 1
      ensures Cost(t[i]) + LineCost(t[i + 1][0]) > limit
    {
      assert t[i] == gs[i + 1] && t[i + 1] == gs[i + 2];
    }
    forall i | 0 <= i < |t| && |t[i]| >= 2
      ensures Cost(t[i]) <= limit
    {
      assert t[i] == gs[i + 1];
    }
    forall i | 0 <= i < |t|
      ensures |t[i]| >= 1
    {
      assert t[i] == gs[i + 1];
    }
  }


  /**
    Where the first group of a partition of `cur + rest` can end, when it
    extends `cur`: either at `cur`, and then the next group starts with
    `rest[0]`, or beyond it, and then it also holds `rest[0]`.
   */
  lemma FirstGroupEnds(gs: seq<seq<string>>, cur: seq<string>, rest: seq<string>)
    requires forall i :: 0 <= i < |gs| ==> |gs[i]| >= 1
    requires Flatten(gs) == cur + rest
    requires |gs| >= 1 && cur <= gs[0] && |rest| >= 1
    ensures |gs[0]| == |cur| ==> gs[0] == cur && |gs| >= 2 && gs[1][0] == rest[0]
    ensures |gs[0]| > |cur| ==> cur + [rest[0]] <= gs[0]
  {
    var t := gs[1..];
    assert cur + rest == gs[0] + Flatten(t);
    if |gs[0]| == |cur| {
      assert gs[0] == cur;
      assert Flatten(t) == rest by {
        assert (cur + rest)[|cur|..] == rest;
        assert (gs[0] + Flatten(t))[|cur|..] == Flatten(t);
      }
      assert t != [];
      assert t[0] == gs[1];
      assert |t[0]| >= 1;
      assert t[0][0] == Flatten(t)[0];
    } else if |gs[0]| > |cur| {
      assert (cur + rest)[..|gs[0]|] == gs[0];
      assert gs[0][..|cur| + 1] == (cur + rest)[..|cur| + 1] == cur + [rest[0]];
    }
  }

  /**
    Uniqueness, generalised over the loop state: a greedy partition of
    `cur + rest` whose first group extends the open group is exactly what the
    loop produces from that state.
   */
  lemma {:induction false} PartitionIsGreedy(gs: seq<seq<string>>, rest: seq<string>, cur: seq<string>, size: int, limit: int)
    requires size == Cost(cur)
    requires GreedyPartition(gs, cur + rest, limit)
    requires cur != [] ==> |gs| >= 1 && cur <= gs[0]
    ensures Greedy(rest, cur, size, limit) == gs
    decreases |rest|
  {
    if rest == [] {
      assert cur + rest == cur;
      FlattenEmpty(gs);
      if cur != [] {
        PartitionTail(gs, cur, limit);
        assert gs[0] + Flatten(gs[1..]) == cur;
        assert gs[0] == cur;
        assert Flatten(gs[1..]) == [];
        FlattenEmpty(gs[1..]);
        assert gs == [cur];
      }
    } else {
      var lineSize := LineCost(rest[0]);
      assert Cost([rest[0]]) == lineSize;
      assert [rest[0]] + rest[1..] == rest;
      if cur == [] {
        assert cur + rest == rest;
        PartitionTail(gs, rest, limit);
        assert gs[0][0] == rest[0];
        assert [rest[0]] <= gs[0];
        assert cur + [rest[0]] == [rest[0]];
        PartitionIsGreedy(gs, rest[1..], [rest[0]], lineSize, limit);
      } else if size + lineSize > limit {
        PartitionTail(gs, cur + rest, limit);
        FirstGroupEnds(gs, cur, rest);
        PrefixCost(cur + [rest[0]], gs[0]);
        CostAppend(cur, [rest[0]]);
        assert |gs[0]| == |cur|;
        var t := gs[1..];
        assert Flatten(t) == rest by {
          assert (cur + rest)[|cur|..] == rest;
          assert (gs[0] + Flatten(t))[|cur|..] == Flatten(t);
        }
        assert [rest[0]] <= t[0];
        PartitionIsGreedy(t, rest[1..], [rest[0]], lineSize, limit);
        assert gs == [cur] + t;
      } else {
        PartitionTail(gs, cur + rest, limit);
        FirstGroupEnds(gs, cur, rest);
        assert |gs[0]| > |cur|;
        CostAppend(cur, [rest[0]]);
        assert cur + [rest[0]] + rest[1..] == cur + rest;
        PartitionIsGreedy(gs, rest[1..], cur + [rest[0]], size + lineSize, limit);
      }
    }
  }

  /** The independent description determines the chunker's groups. */
  lemma PartitionIsGroups(gs: seq<seq<string>>, lines: seq<string>, limit: int)
    requires GreedyPartition(gs, lines, limit)
    ensures gs == Groups(lines, limit)
  {
    assert [] + lines == lines;
    PartitionIsGreedy(gs, lines, [], 0, limit);
  }

  /** Each chunk split back into its lines. */
  function SplitEach(chunks: seq<string>): (r: seq<seq<string>>)
    ensures |r| == |chunks|
    ensures forall i :: 0 <= i < |chunks| ==> r[i] == Split(chunks[i])
  {
    seq(|chunks|, i requires 0 <= i < |chunks| => Split(chunks[i]))
  }

  lemma {:induction false} JoinFlatten(gs: seq<seq<string>>)
    requires |gs| >= 1
    requires forall i :: 0 <= i < |gs| ==> |gs[i]| >= 1
    ensures Join(JoinEach(gs)) == Join(Flatten(gs))
    decreases |gs|
  {
    var t := gs[1..];
    FlattenCons(gs[0], t);
    assert gs == [gs[0]] + t;
    if |gs| == 1 {
      assert gs[0] + [] == gs[0];
    } else {
      JoinFlatten(t);
      assert JoinEach(gs)[1..] == JoinEach(t);
      FlattenEmpty(t);
      JoinAppend(gs[0], Flatten(t));
    }
  }

  lemma {:induction false} FlattenNewlineFree(gs: seq<seq<string>>)
    requires NewlineFree(Flatten(gs))
    ensures forall i :: 0 <= i < |gs| ==> NewlineFree(gs[i])
    decreases |gs|
  {
    if gs != [] {
      var t := gs[1..];
      assert Flatten(gs) == gs[0] + Flatten(t);
      assert NewlineFree(gs[0]) by {
        forall k | 0 <= k < |gs[0]|
          ensures '\n' !in gs[0][k]
        {
          assert gs[0][k] == Flatten(gs)[k];
        }
      }
      assert NewlineFree(Flatten(t)) by {
        forall k | 0 <= k < |Flatten(t)|
          ensures '\n' !in Flatten(t)[k]
        {
          assert Flatten(t)[k] == Flatten(gs)[|gs[0]| + k];
        }
      }
      FlattenNewlineFree(t);
      forall i | 1 <= i < |gs|
        ensures NewlineFree(gs[i])
      {
        assert gs[i] == t[i - 1];
      }
    }
  }

  /** A line of the input lies in some group. */
  lemma {:induction false} FlattenMember(gs: seq<seq<string>>, k: nat) returns (j: nat, m: nat)
    requires k < |Flatten(gs)|
    ensures j < |gs| && m < |gs[j]| && gs[j][m] == Flatten(gs)[k]
    decreases |gs|
  {
    var t := gs[1..];
    assert Flatten(gs) == gs[0] + Flatten(t);
    if k < |gs[0]| {
      j, m := 0, k;
    } else {
      var j', m' := FlattenMember(t, k - |gs[0]|);
      j, m := j' + 1, m';
    }
  }

  /** Splitting the joined groups gives the groups back. */
  lemma SplitJoinEach(gs: seq<seq<string>>, lines: seq<string>, limit: int)
    requires GreedyPartition(gs, lines, limit)
    requires NewlineFree(lines)
    ensures SplitEach(JoinEach(gs)) == gs
  {
    FlattenNewlineFree(gs);
    forall i | 0 <= i < |gs|
      ensures Split(Join(gs[i])) == gs[i]
    {
      SplitJoin(gs[i]);
    }
  }

  /** The chunks rejoined with '\n' reproduce the input, for every text and limit. */
  lemma ChunkRoundTrip(text: string, limit: int)
    ensures Join(ChunkText(text, limit)) == text
    ensures |ChunkText(text, limit)| >= 1
  {
    var lines := Split(text);
    var gs := Groups(lines, limit);
    GroupsArePartition(lines, limit);
    FlattenEmpty(gs);
    JoinFlatten(gs);
    JoinSplit(text);
  }

  /** Empty input gives one empty chunk, not zero chunks. */
  lemma EmptyTextOneChunk(limit: int)
    ensures ChunkText("", limit) == [""]
  {
    assert Split("") == [""];
    var gs := [[""]];
    assert Flatten(gs) == [""] by {
      FlattenCons([""], []);
    }
    PartitionIsGroups(gs, [""], limit);
  }

  /**
    No line is split or moved: splitting every chunk back into lines and
    concatenating them gives exactly the input's lines, in order.
   */
  lemma ChunksKeepLines(text: string, limit: int)
    ensures Flatten(SplitEach(ChunkText(text, limit))) == Split(text)
  {
    var lines := Split(text);
    GroupsArePartition(lines, limit);
    SplitJoinEach(Groups(lines, limit), lines, limit);
  }

  /**
    A chunk of two or more lines costs at most the limit, so it is shorter
    than the limit; only a chunk holding a single line can be longer.
   */
  lemma ChunkSizeBound(text: string, limit: int)
    ensures forall c :: c in ChunkText(text, limit) && |Split(c)| >= 2 ==> |c| + 1 <= limit
    ensures forall c :: c in ChunkText(text, limit) ==> |c| < limit || '\n' !in c
  {
    var lines := Split(text);
    var gs := Groups(lines, limit);
    var chunks := ChunkText(text, limit);
    GroupsArePartition(lines, limit);
    SplitJoinEach(gs, lines, limit);
    forall i | 0 <= i < |chunks|
      ensures |Split(chunks[i])| >= 2 ==> |chunks[i]| + 1 <= limit
      ensures |chunks[i]| < limit || '\n' !in chunks[i]
    {
      JoinCost(gs[i]);
      assert Split(chunks[i]) == gs[i];
      JoinSplit(chunks[i]);
    }
  }

  /**
    Greedy maximality: a chunk is closed only when its cost plus the cost of
    the next chunk's first line exceeds the limit.
   */
  lemma ChunkMaximal(text: string, limit: int)
    ensures var chunks := ChunkText(text, limit);
      forall i :: 0 <= i < |chunks| - 1 ==>
        |chunks[i]| + 1 + LineCost(Split(chunks[i + 1])[0]) > limit
  {
    var lines := Split(text);
    var gs := Groups(lines, limit);
    var chunks := ChunkText(text, limit);
    GroupsArePartition(lines, limit);
    SplitJoinEach(gs, lines, limit);
    forall i | 0 <= i < |chunks| - 1
      ensures |chunks[i]| + 1 + LineCost(Split(chunks[i + 1])[0]) > limit
    {
      JoinCost(gs[i]);
      assert Split(chunks[i + 1]) == gs[i + 1];
    }
  }

  /**
    The input comes back as a single chunk exactly when its whole cost fits
    the limit or it is a single line; that chunk is then the input itself.
   */
  lemma OneChunkExactly(text: string, limit: int)
    ensures |ChunkText(text, limit)| == 1 <==> |text| + 1 <= limit || '\n' !in text
    ensures |text| + 1 <= limit || '\n' !in text ==> ChunkText(text, limit) == [text]
  {
    var lines := Split(text);
    var gs := Groups(lines, limit);
    GroupsArePartition(lines, limit);
    JoinSplit(text);
    JoinCost(lines);
    if |text| + 1 <= limit || '\n' !in text {
      if '\n' !in text {
        SplitLine(text);
      }
      FlattenCons(lines, []);
      assert lines + [] == lines;
      PartitionIsGroups([lines], lines, limit);
      assert ChunkText(text, limit) == [Join(lines)];
    }
    if |gs| == 1 {
      assert Flatten(gs) == gs[0] + Flatten(gs[1..]);
      assert gs[1..] == [];
      assert gs[0] == lines;
      if |lines| == 1 {
        assert text == lines[0];
      }
    }
  }

  /**
    A line that alone exceeds the limit is neither rejected nor truncated: it
    is one of the chunks, exactly.
   */
  lemma OversizedLineIsChunk(text: string, limit: int, k: nat)
    requires k < |Split(text)|
    requires LineCost(Split(text)[k]) > limit
    ensures Split(text)[k] in ChunkText(text, limit)
  {
    var lines := Split(text);
    var gs := Groups(lines, limit);
    GroupsArePartition(lines, limit);
    var j, m := FlattenMember(gs, k);
    CostOfMember(gs[j], m);
    assert |gs[j]| == 1;
    assert gs[j] == [lines[k]];
    assert ChunkText(text, limit)[j] == lines[k];
  }

  lemma {:induction false} FlattenSingletons(lines: seq<string>)
    ensures Flatten(seq(|lines|, i requires 0 <= i < |lines| => [lines[i]])) == lines
    decreases |lines|
  {
    var gs := seq(|lines|, i requires 0 <= i < |lines| => [lines[i]]);
    if lines != [] {
      FlattenSingletons(lines[1..]);
      assert gs[1..] == seq(|lines[1..]|, i requires 0 <= i < |lines[1..]| => [lines[1..][i]]);
      assert gs[0] + lines[1..] == lines;
    }
  }

  /**
    When no two neighbouring lines fit the limit together, every chunk is one
    line: the chunks are the input's lines.
   */
  lemma EveryLineOwnChunk(text: string, limit: int)
    requires forall k :: 0 <= k < |Split(text)| - 1 ==> LineCost(Split(text)[k]) + LineCost(Split(text)[k + 1]) > limit
    ensures ChunkText(text, limit) == Split(text)
  {
    var lines := Split(text);
    var gs := seq(|lines|, i requires 0 <= i < |lines| => [lines[i]]);
    FlattenSingletons(lines);
    forall i | 0 <= i < |gs| - 1
      ensures Cost(gs[i]) + LineCost(gs[i + 1][0]) > limit
    {
      assert gs[i] == [lines[i]] && gs[i + 1][0] == lines[i + 1];
      assert [lines[i]][1..] == [];
      assert Cost(gs[i]) == LineCost(lines[i]);
      assert LineCost(lines[i]) + LineCost(lines[i + 1]) > limit;
    }
    PartitionIsGroups(gs, lines, limit);
  }

  /**
    Ten lines of 500 characters with a limit of 1000 give ten chunks of one
    line each: two such lines cost 501 + 501 = 1002.
   */
  lemma TenLongLines()
    ensures var line := seq(500, _ => 'a');
      var text := Join(seq(10, _ => line));
      ChunkText(text, 1000) == seq(10, _ => line) && |ChunkText(text, 1000)| == 10
  {
    var line := seq(500, _ => 'a');
    var lines := seq(10, _ => line);
    assert '\n' !in line;
    SplitJoin(lines);
    EveryLineOwnChunk(Join(lines), 1000);
  }

  /** The loop of `chunk_text` as written, over a list, with the current group and its size. */
  method ChunkTextLoop(text: string, limit: int) returns (chunks: seq<string>)
    ensures chunks == ChunkText(text, limit)
    ensures |chunks| >= 1 && Join(chunks) == text
  {
    var lines := Split(text);
    chunks := [];
    var current: seq<string> := [];
    var currentSize := 0;
    ghost var closed: seq<seq<string>> := [];
    for i := 0 to |lines|
      invariant chunks == JoinEach(closed)
      invariant closed + Greedy(lines[i..], current, currentSize, limit) == Groups(lines, limit)
    {
      var line := lines[i];
      var lineSize := |line| + 1;
      assert lines[i..][0] == line && lines[i..][1..] == lines[i + 1..];
      if currentSize + lineSize > limit && current != [] {
        chunks := chunks + [Join(current)];
        closed := closed + [current];
        current := [line];
        currentSize := lineSize;
      } else {
        current := current + [line];
        currentSize := currentSize + lineSize;
      }
    }
    if current != [] {
      chunks := chunks + [Join(current)];
      closed := closed + [current];
    }
    assert closed == Groups(lines, limit);
    ChunkRoundTrip(text, limit);
  }
}
