/**
  Line structure of text: Python's `text.split('\n')` and `'\n'.join(lines)`,
  and the per-line cost the chunker charges (a line plus its separator).
 */
module Lines {

  /** True when no line of `ls` contains a line separator. */
  predicate NewlineFree(ls: seq<string>) {
    forall i :: 0 <= i < |ls| ==> '\n' !in ls[i]
  }

  /**
    `s.split('\n')`: the pieces between separators, in order. As in Python,
    the empty string splits into one empty line, never into no lines.
   */
  function Split(s: string): (r: seq<string>)
    ensures |r| >= 1
    ensures NewlineFree(r)
    ensures r[0] <= s
    ensures |r[0]| < |s| ==> s[|r[0]|] == '\n'
    decreases |s|
  {
    if s == [] then [""]
    else
      var rest := Split(s[1..]);
      if s[0] == '\n' then [""] + rest
      else [[s[0]] + rest[0]] + rest[1..]
  }

  /** `'\n'.join(ls)`. */
  function Join(ls: seq<string>): string
    decreases |ls|
  {
    if |ls| == 0 then ""
    else if |ls| == 1 then ls[0]
    else ls[0] + "\n" + Join(ls[1..])
  }

  /** What one line contributes to a chunk's running size: `len(line) + 1`. */
  function LineCost(line: string): nat {
    |line| + 1
  }

  /** The sum of the line costs of `ls`. */
  function Cost(ls: seq<string>): nat
    decreases |ls|
  {
    if ls == [] then 0 else LineCost(ls[0]) + Cost(ls[1..])
  }

  lemma {:induction false} CostAppend(a: seq<string>, b: seq<string>)
    ensures Cost(a + b) == Cost(a) + Cost(b)
    decreases |a|
  {
    if a != [] {
      assert (a + b)[1..] == a[1..] + b;
      CostAppend(a[1..], b);
    } else {
      assert a + b == b;
    }
  }

  /** A group never costs less than any of its prefixes. */
  lemma PrefixCost(p: seq<string>, g: seq<string>)
    ensures p <= g ==> Cost(p) <= Cost(g)
  {
    if p <= g {
      assert g == p + g[|p|..];
      CostAppend(p, g[|p|..]);
    }
  }

  /** A line never costs more than the whole group it belongs to. */
  lemma {:induction false} CostOfMember(ls: seq<string>, i: nat)
    requires i < |ls|
    ensures LineCost(ls[i]) <= Cost(ls)
    decreases |ls|
  {
    if i > 0 {
      CostOfMember(ls[1..], i - 1);
    }
  }

  /** A joined run of lines is one character shorter than its cost. */
  lemma {:induction false} JoinCost(ls: seq<string>)
    requires |ls| >= 1
    ensures |Join(ls)| + 1 == Cost(ls)
    decreases |ls|
  {
    if |ls| > 1 {
      JoinCost(ls[1..]);
    }
  }

  /** Joining two non-empty runs puts exactly one separator between them. */
  lemma {:induction false} JoinAppend(a: seq<string>, b: seq<string>)
    requires |a| >= 1 && |b| >= 1
    ensures Join(a + b) == Join(a) + "\n" + Join(b)
    decreases |a|
  {
    if |a| == 1 {
      assert (a + b)[1..] == b;
    } else {
      assert (a + b)[1..] == a[1..] + b;
      JoinAppend(a[1..], b);
    }
  }

  /** Prefixing the first line prefixes the joined text. */
  lemma {:induction false} JoinConsHead(x: string, ls: seq<string>)
    requires |ls| >= 1
    ensures Join([x + ls[0]] + ls[1..]) == x + Join(ls)
  {
    var l := [x + ls[0]] + ls[1..];
    if |ls| > 1 {
      assert l[0] == x + ls[0] && l[1..] == ls[1..];
      calc {
        Join(l);
        l[0] + "\n" + Join(l[1..]);
        x + (ls[0] + "\n" + Join(ls[1..]));
      }
    }
  }

  /** Round trip one way: `'\n'.join(s.split('\n')) == s` for every text. */
  lemma {:induction false} JoinSplit(s: string)
    ensures Join(Split(s)) == s
    decreases |s|
  {
    if s != [] {
      var rest := Split(s[1..]);
      JoinSplit(s[1..]);
      if s[0] == '\n' {
        assert ([""] + rest)[1..] == rest;
        assert s == "\n" + s[1..];
      } else {
        JoinConsHead([s[0]], rest);
        assert s == [s[0]] + s[1..];
      }
    }
  }

  /** Splitting a separator-free line gives that line alone. */
  lemma {:induction false} SplitLine(x: string)
    requires '\n' !in x
    ensures Split(x) == [x]
    decreases |x|
  {
    if x != [] {
      assert x[0] != '\n';
      SplitLine(x[1..]);
      assert [x[0]] + x[1..] == x;
    }
  }

  /** Splitting stops at the first separator. */
  lemma {:induction false} SplitAtNewline(x: string, rest: string)
    requires '\n' !in x
    ensures Split(x + "\n" + rest) == [x] + Split(rest)
    decreases |x|
  {
    var s := x + "\n" + rest;
    if x == [] {
      assert s[1..] == rest;
    } else {
      assert s[0] == x[0] && s[1..] == x[1..] + "\n" + rest;
      SplitAtNewline(x[1..], rest);
      var r := Split(s[1..]);
      assert r[0] == x[1..];
      assert [x[0]] + x[1..] == x;
    }
  }

  /** Round trip the other way: separator-free lines survive join then split. */
  lemma {:induction false} SplitJoin(ls: seq<string>)
    requires |ls| >= 1
    requires NewlineFree(ls)
    ensures Split(Join(ls)) == ls
    decreases |ls|
  {
    if |ls| == 1 {
      SplitLine(ls[0]);
    } else {
      assert NewlineFree(ls[1..]) by {
        forall i | 0 <= i < |ls[1..]|
          ensures '\n' !in ls[1..][i]
        {
          assert ls[1..][i] == ls[i + 1];
        }
      }
      SplitJoin(ls[1..]);
      assert '\n' !in ls[0];
      SplitAtNewline(ls[0], Join(ls[1..]));
      assert [ls[0]] + ls[1..] == ls;
    }
  }
}
