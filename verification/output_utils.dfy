/**
  `extract_first_line`: the subject line of a generated message, used as the
  commit message when committing automatically.
 */
module OutputUtils {
  import opened Lines

  /**
    The text before the first '\n', or all of it when there is none; the
    empty text gives the empty line.
   */
  function ExtractFirstLine(text: string): (r: string)
    ensures '\n' !in r
    ensures r <= text
    ensures |r| < |text| ==> text[|r|] == '\n'
    ensures '\n' !in text ==> r == text
    ensures text == "" ==> r == ""
  {
    if text != "" then Split(text)[0] else ""
  }

  /**
    When the text has a line break, it is the first line, the break, and
    the rest: the first line is everything before the first break.
   */
  lemma FirstLineThenRest(text: string)
    requires '\n' in text
    ensures var r := ExtractFirstLine(text);
      |r| < |text| && text == r + "\n" + text[|r| + 1..]
      && forall k :: 0 <= k < |r| ==> text[k] != '\n'
  {
    var r := ExtractFirstLine(text);
    assert text == r + [text[|r|]] + text[|r| + 1..];
    forall k | 0 <= k < |r|
      ensures text[k] != '\n'
    {
      assert text[k] == r[k];
    }
  }

  /** The first line of a message built from lines is its first line. */
  lemma FirstLineOfJoin(ls: seq<string>)
    requires |ls| >= 1 && NewlineFree(ls)
    ensures ExtractFirstLine(Join(ls)) == ls[0]
  {
    SplitJoin(ls);
  }
}
