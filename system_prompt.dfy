/** The per-request user instruction (lib/system-prompt.ts): the query
    and a human label for the timeframe placed into a fixed template. */
module SystemPrompt {
  import opened Optional

  const QueryPrefix: string := "Research query: "
  const TimeframeIntro: string := "\n\nTimeframe: Focus on discussions from the "
  const Closing: string :=
    ".\n\nPlease search relevant real estate communities and provide a structured digest of what you find."

  const WeekLabel: string := "past week"
  const MonthLabel: string := "past 30 days"
  const QuarterLabel: string := "past 3 months"

  /** The label for a timeframe: one per known timeframe, and the month
      label for anything else. */
  function TimeframeLabel(timeframe: string): (text: string)
    ensures text == WeekLabel <==> timeframe == "week"
    ensures text == QuarterLabel <==> timeframe == "quarter"
    ensures text == MonthLabel <==> timeframe != "week" && timeframe != "quarter"
  {
    if timeframe == "week" then WeekLabel
    else if timeframe == "month" then MonthLabel
    else if timeframe == "quarter" then QuarterLabel
    else MonthLabel
  }

  /** What follows the query in the prompt. */
  function Tail(timeframe: string): string {
    TimeframeIntro + TimeframeLabel(timeframe) + Closing
  }

  /** `buildUserPrompt`: the query appears verbatim, untrimmed, right
      after the fixed prefix, and the timeframe's label near the end. */
  function BuildUserPrompt(query: string, timeframe: string): (prompt: string)
    ensures |prompt| == |QueryPrefix| + |query| + |Tail(timeframe)|
    ensures prompt[..|QueryPrefix|] == QueryPrefix
    ensures prompt[|QueryPrefix|..|QueryPrefix| + |query|] == query
    ensures prompt[|QueryPrefix| + |query|..] == Tail(timeframe)
  {
    var prompt := QueryPrefix + query + Tail(timeframe);
    assert prompt[|QueryPrefix|..|QueryPrefix| + |query|] == query;
    prompt
  }

  /** The inverse of `BuildUserPrompt` for a known timeframe: the query a
      prompt was built from, if it has the template's shape. */
  function QueryOf(prompt: string, timeframe: string): Option<string> {
    var tail := Tail(timeframe);
    if |prompt| >= |QueryPrefix| + |tail|
       && prompt[..|QueryPrefix|] == QueryPrefix
       && prompt[|prompt| - |tail|..] == tail
    then Some(prompt[|QueryPrefix|..|prompt| - |tail|])
    else None
  }

  /** The query can be read back from the prompt. */
  lemma QueryRoundTrip(query: string, timeframe: string)
    ensures QueryOf(BuildUserPrompt(query, timeframe), timeframe) == Some(query)
  {
  }

  /** Whatever `QueryOf` reads from a prompt rebuilds that very prompt. */
  lemma PromptRoundTrip(prompt: string, timeframe: string)
    requires QueryOf(prompt, timeframe).Some?
    ensures BuildUserPrompt(QueryOf(prompt, timeframe).value, timeframe) == prompt
  {
    var query := QueryOf(prompt, timeframe).value;
    SameInThreePieces(BuildUserPrompt(query, timeframe), prompt,
      |QueryPrefix|, |QueryPrefix| + |query|);
  }

  /** Two strings that agree piece by piece are equal. */
  lemma SameInThreePieces(a: string, b: string, i: nat, j: nat)
    requires |a| == |b| && i <= j <= |a|
    requires a[..i] == b[..i] && a[i..j] == b[i..j] && a[j..] == b[j..]
    ensures a == b
  {
    assert a == a[..i] + a[i..j] + a[j..];
    assert b == b[..i] + b[i..j] + b[j..];
  }

  /** The two characters just before the closing text are the last two
      of the label. */
  lemma LabelEnding(query: string, timeframe: string)
    ensures var p := BuildUserPrompt(query, timeframe);
      var l := TimeframeLabel(timeframe);
      |p| >= |Closing| + 2 &&
      p[|p| - |Closing| - 2..|p| - |Closing|] == l[|l| - 2..]
  {
  }

  /** The three labels already differ in their last two characters. */
  lemma LabelEndingsDiffer(t1: string, t2: string)
    ensures var l1, l2 := TimeframeLabel(t1), TimeframeLabel(t2);
      l1[|l1| - 2..] == l2[|l2| - 2..] ==> l1 == l2
  {
  }

  /** Two prompts are equal only when their queries are equal and their
      timeframes have the same label: the template never blurs one query
      or label into another, whatever the query contains. */
  lemma PromptInjective(q1: string, t1: string, q2: string, t2: string)
    requires BuildUserPrompt(q1, t1) == BuildUserPrompt(q2, t2)
    ensures q1 == q2 && TimeframeLabel(t1) == TimeframeLabel(t2)
  {
    LabelEnding(q1, t1);
    LabelEnding(q2, t2);
    LabelEndingsDiffer(t1, t2);
    assert Tail(t1) == Tail(t2);
  }
}
