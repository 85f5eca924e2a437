/** The scoring rubric: its total and `generate_scoring_prompt_section`,
    which renders it for the phase-2 prompt. */
module Rubric {
  import opened Text

  /** One `{component, max_score}` item of the scoring pattern. */
  datatype ScoringItem = ScoringItem(component: string, maxScore: int)

  /** The sum of all `max_score` values. When no score is negative, no single
      item's score exceeds the total. */
  function Total(pattern: seq<ScoringItem>): (sum: int)
    ensures (forall i :: 0 <= i < |pattern| ==> pattern[i].maxScore >= 0) ==>
      sum >= 0 && forall i :: 0 <= i < |pattern| ==> pattern[i].maxScore <= sum
    decreases |pattern|
  {
    if pattern == [] then 0 else Total(pattern[..|pattern| - 1]) + pattern[|pattern| - 1].maxScore
  }

  /** The total of a rubric is the totals of any two parts of it added. */
  lemma {:induction false} TotalAppend(a: seq<ScoringItem>, b: seq<ScoringItem>)
    ensures Total(a + b) == Total(a) + Total(b)
    decreases |b|
  {
    if b == [] {
      assert a + b == a;
    } else {
      assert (a + b)[..|a + b| - 1] == a + b[..|b| - 1];
      TotalAppend(a, b[..|b| - 1]);
    }
  }

  const Header: string := "Scoring Breakdown (Total must sum to 100):\n"
  const Footer: string := "\nEvaluate each component and deduct points for missing or incomplete features."
  const LineLead: string := "- "
  const LineMid: string := ": "
  const LineTail: string := " points\n"

  /** The line rendered for one item: `- <component>: <max_score> points`. */
  function ItemLine(item: ScoringItem): string {
    LineLead + item.component + LineMid + IntToString(item.maxScore) + LineTail
  }

  function ItemLines(pattern: seq<ScoringItem>): seq<string> {
    seq(|pattern|, i requires 0 <= i < |pattern| => ItemLine(pattern[i]))
  }

  /** The whole rendered section: header, one line per item in order, footer. */
  function ScoringSection(pattern: seq<ScoringItem>): string {
    Header + Concat(ItemLines(pattern)) + Footer
  }

  /** Rendering one more item appends that item's line. */
  lemma LinesExtend(pattern: seq<ScoringItem>, i: nat)
    requires i < |pattern|
    ensures Concat(ItemLines(pattern[..i + 1])) == Concat(ItemLines(pattern[..i])) + ItemLine(pattern[i])
  {
    var lines := ItemLines(pattern[..i + 1]);
    assert lines[..i] == ItemLines(pattern[..i]);
    assert lines[i] == ItemLine(pattern[i]);
  }

  /** `generate_scoring_prompt_section`, which builds the text with `+=`. */
  method RenderScoringSection(pattern: seq<ScoringItem>) returns (section: string)
    ensures section == ScoringSection(pattern)
  {
    section := Header;
    for i := 0 to |pattern|
      invariant section == Header + Concat(ItemLines(pattern[..i]))
    {
      LinesExtend(pattern, i);
      AppendAssociative(Header, Concat(ItemLines(pattern[..i])), ItemLine(pattern[i]));
      section := section + ItemLine(pattern[i]);
    }
    assert pattern[..|pattern|] == pattern;
    section := section + Footer;
  }

  /** The section opens with the header and closes with the deduction instruction. */
  lemma ScoringSectionFrame(pattern: seq<ScoringItem>)
    ensures |Header| + |Footer| <= |ScoringSection(pattern)|
    ensures ScoringSection(pattern)[..|Header|] == Header
    ensures ScoringSection(pattern)[|ScoringSection(pattern)| - |Footer|..] == Footer
  {
  }

  /** The k-th item's line follows the header and the lines of the items
      before it: one line per item, in input order. */
  lemma ScoringSectionLineAt(pattern: seq<ScoringItem>, k: nat)
    requires k < |pattern|
    ensures var off := |Header| + |Concat(ItemLines(pattern[..k]))|;
      off + |ItemLine(pattern[k])| <= |ScoringSection(pattern)| &&
      ScoringSection(pattern)[off..off + |ItemLine(pattern[k])|] == ItemLine(pattern[k])
  {
    var lines := ItemLines(pattern);
    assert lines[..k] == ItemLines(pattern[..k]);
    FramedPieceAt(Header, lines, Footer, k);
  }

  /** The points figure in an item's line reads back as its `max_score`. */
  lemma ItemLineScoreRoundTrip(item: ScoringItem)
    ensures var line := ItemLine(item);
      var start := |LineLead| + |item.component| + |LineMid|;
      var figure := line[start..|line| - |LineTail|];
      |figure| >= 1 &&
      (figure[0] == '-' ==> AllDigits(figure[1..])) &&
      (figure[0] != '-' ==> AllDigits(figure)) &&
      ParseInt(figure) == item.maxScore
  {
    var line := ItemLine(item);
    var start := |LineLead| + |item.component| + |LineMid|;
    assert line[start..|line| - |LineTail|] == IntToString(item.maxScore);
    IntToStringRoundTrip(item.maxScore);
  }
}
