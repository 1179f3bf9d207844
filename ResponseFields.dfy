/** The labelled-field lookups shared by the three response decoders of
    scripts/model.py, and the element type of the lists they return.

    A field is found with the pattern `Label: (.*?)$` in multi-line mode: the
    first occurrence of the key ANYWHERE in the response wins (the pattern is
    not anchored to the start of a line), and its value is the rest of that
    line, stripped of surrounding whitespace. */
module ResponseFields {
  import opened Wrappers
  import opened Text

  const ObservationLabel := "Observation: "
  const ThoughtLabel := "Thought: "
  const ActionLabel := "Action: "
  const SummaryLabel := "Summary: "
  const DecisionLabel := "Decision: "
  const DocumentationLabel := "Documentation: "

  /** Placeholders used when the optional fields are missing. */
  const NoSummary := "No summary available"
  const NoDocumentation := "No documentation available"

  /** The action text that ends a task, wherever it appears in the action. */
  const FinishKeyword := "FINISH"

  /** The list every decoder returns on failure is `[ErrorTag]`. */
  const ErrorTag := "ERROR"

  /** One element of a decoder's result list: a Python `str`, `int` or `None`. */
  datatype Item = Str(s: string) | Int(n: int) | Null

  /** `re.findall(key + "(.*?)$", rsp, re.MULTILINE)`: its first element,
      stripped, or `None` when the list is empty. */
  function Field(key: string, rsp: string): (r: Option<string>)
    ensures r.None? <==> !Occurs(rsp, key)
    ensures r.Some? ==> '\n' !in r.value && IsStripped(r.value)
  {
    match FindFirst(key, rsp)
    case None => None
    case Some(i) =>
      var line := RestOfLine(rsp, i + |key|);
      assert '\n' !in Strip(line);
      Some(Strip(line))
  }

  /** The four narrative fields every explore and grid command carries. */
  datatype Narrative = Narrative(observation: string, think: string, act: string, lastAct: string)

  /** The field lookups at the head of `parse_explore_rsp` and `parse_grid_rsp`:
      `Observation`, `Thought` and `Action` are mandatory (`None` when one is
      missing, where Python's `[0]` raises `IndexError`); a missing `Summary`
      becomes the placeholder. */
  function ReadNarrative(rsp: string): (r: Option<Narrative>)
    ensures r.None? <==>
              !Occurs(rsp, ObservationLabel) || !Occurs(rsp, ThoughtLabel) || !Occurs(rsp, ActionLabel)
    ensures r.Some? ==>
              && Some(r.value.observation) == Field(ObservationLabel, rsp)
              && Some(r.value.think) == Field(ThoughtLabel, rsp)
              && Some(r.value.act) == Field(ActionLabel, rsp)
    ensures r.Some? && !Occurs(rsp, SummaryLabel) ==> r.value.lastAct == NoSummary
    ensures r.Some? && Occurs(rsp, SummaryLabel) ==> Some(r.value.lastAct) == Field(SummaryLabel, rsp)
  {
    match (Field(ObservationLabel, rsp), Field(ThoughtLabel, rsp), Field(ActionLabel, rsp))
    case (Some(observation), Some(think), Some(act)) =>
      Some(Narrative(observation, think, act, Field(SummaryLabel, rsp).GetOr(NoSummary)))
    case _ => None
  }

  /** The search for `name(args)` made by `re.findall(name + r"\((.*?)\)", act)`
      from index `from` on: the first `name(` followed by a `)` before the next
      line break, and the text in between. */
  function CallArgsFrom(open: string, act: string, from: nat): (r: Option<string>)
    requires |open| > 0
    ensures r.Some? ==> ')' !in r.value && '\n' !in r.value
    decreases |act| - from
  {
    match FindFrom(open, act, from)
    case None => None
    case Some(i) =>
      var k := IndexOfAny(act, i + |open|, {')', '\n'});
      if k < |act| && act[k] == ')' then Some(act[i + |open|..k])
      else CallArgsFrom(open, act, i + 1)
  }

  /** `re.findall(name + r"\((.*?)\)", act)[0]`, `None` where `[0]` raises. */
  function CallArgs(name: string, act: string): (r: Option<string>)
    ensures r.Some? ==> ')' !in r.value && '\n' !in r.value
    ensures r.Some? ==> Occurs(act, name + "(")
  {
    CallArgsFrom(name + "(", act, 0)
  }

  /** `act.split("(")[0].strip()`: the name in front of the first parenthesis. */
  function ActionName(act: string): (name: string)
    ensures '(' !in name && IsStripped(name)
    ensures '(' !in act ==> name == Strip(act)
  {
    var head := Split(act, '(')[0];
    assert '(' !in head;
    Strip(head)
  }

  /** Whatever stands before the first parenthesis, stripped, is the action
      name, however it is spaced. */
  lemma ActionNameHead(head: string, rest: string)
    requires '(' !in head
    ensures ActionName(head + "(" + rest) == Strip(head)
  {
    SplitHead(head, '(', rest);
    assert head + "(" + rest == head + ['('] + rest;
  }

  /** The arguments of a call written at the start of the action are found. */
  lemma CallArgsOf(name: string, args: string, rest: string)
    requires ')' !in args && '\n' !in args
    ensures CallArgs(name, name + "(" + args + ")" + rest) == Some(args)
  {
    var open := name + "(";
    var act := open + args + ")" + rest;
    assert OccursAt(act, open, 0);
    FindFirstIs(open, act, 0);
    assert FindFrom(open, act, 0) == Some(0);
    var k := IndexOfAny(act, |open|, {')', '\n'});
    assert forall i :: 0 <= i < |args| ==> act[|open| + i] == args[i];
    assert act[|open| + |args|] == ')';
    assert k == |open| + |args|;
    assert act[|open|..k] == args;
  }

  /** The name of a call written at the start of the action is its action name. */
  lemma ActionNameOf(name: string, rest: string)
    requires '(' !in name && IsStripped(name)
    ensures ActionName(name + "(" + rest) == name
  {
    SplitHead(name, '(', rest);
    assert name + "(" + rest == name + ['('] + rest;
  }

  /** An action written as a call: `name(args)`. */
  function Call(name: string, args: string): string {
    name + "(" + args + ")"
  }

  /** An operand written in double quotes. */
  function Quote(s: string): string {
    "\"" + s + "\""
  }

  /** A call is read back as its name and its argument text. */
  lemma CallOf(name: string, args: string)
    requires '(' !in name && IsStripped(name)
    requires ')' !in args && '\n' !in args
    ensures ActionName(Call(name, args)) == name
    ensures CallArgs(name, Call(name, args)) == Some(args)
  {
    assert Call(name, args) == name + "(" + args + ")" + "";
    CallArgsOf(name, args, "");
    assert Call(name, args) == name + "(" + (args + ")");
    ActionNameOf(name, args + ")");
  }

  /** A call to a name sharing no character with `FINISH`, written with an
      operand, is read back as that name and operand and does not finish. */
  lemma CallWith(name: string, args: string)
    requires '(' !in name && IsStripped(name)
    requires forall k :: 0 <= k < |name| ==> name[k] !in FinishKeyword
    requires IsOperand(args)
    ensures !Contains(Call(name, args), FinishKeyword)
    ensures ActionName(Call(name, args)) == name
    ensures CallArgs(name, Call(name, args)) == Some(args)
  {
    CallFree(name, args, FinishKeyword);
    CallOf(name, args);
  }

  /** A pattern sharing no character with the name and the parentheses
      occurs in a call only inside its argument text. */
  lemma CallFree(name: string, args: string, pat: string)
    requires |pat| > 0 && '(' !in pat && ')' !in pat
    requires forall k :: 0 <= k < |name| ==> name[k] !in pat
    requires !Occurs(args, pat)
    ensures !Occurs(Call(name, args), pat)
  {
    var open := name + "(";
    assert forall k :: 0 <= k < |open| ==> open[k] !in pat by {
      forall k | 0 <= k < |open| ensures open[k] !in pat {
        if k < |name| { assert open[k] == name[k]; }
      }
    }
    NoSharedChars(open, pat);
    NoSharedChars(")", pat);
    NotOccurs3(open, args, ")", pat);
  }

  /** Quoting adds no occurrence of a pattern without a double quote. */
  lemma QuoteFree(s: string, pat: string)
    requires |pat| > 0 && '"' !in pat && !Occurs(s, pat)
    ensures !Occurs(Quote(s), pat)
  {
    NoSharedChars("\"", pat);
    NotOccurs3("\"", s, "\"", pat);
  }

  /** A quoted operand, with or without one space in front, is read back by
      stripping it and dropping its outer characters. */
  lemma QuoteRead(s: string)
    ensures Inner(Strip(" " + Quote(s))) == s
    ensures Inner(Strip(Quote(s))) == s
  {
    var q := Quote(s);
    assert IsStripped(q);
    StripPadded(" ", q, "");
    assert " " + q + "" == " " + q;
    assert Inner(q) == s;
  }

  /** An operand fits inside a call: it does not close the call, does not
      break the line and does not mention `FINISH`. */
  ghost predicate IsOperand(s: string) {
    ')' !in s && '\n' !in s && !Occurs(s, FinishKeyword)
  }

  /** One comma-separated argument of a call. */
  ghost predicate IsArgument(s: string) {
    ',' !in s && IsOperand(s)
  }

  /** Arguments joined with commas fit inside a call. */
  lemma ArgumentsFit(parts: seq<string>)
    requires forall k :: 0 <= k < |parts| ==> IsArgument(parts[k])
    ensures IsOperand(Join(parts, ','))
  {
    JoinExcludes(parts, ',', ')');
    JoinExcludes(parts, ',', '\n');
    JoinFree(parts, ',', FinishKeyword);
  }

  /** A written integer is an argument. */
  lemma IntArgument(n: int)
    ensures IsArgument(IntToString(n))
  {
    NoSharedChars(IntToString(n), FinishKeyword);
  }

  /** A quoted operand after one space is an argument. */
  lemma QuotedArgument(s: string)
    requires IsArgument(s)
    ensures IsArgument(" " + Quote(s))
  {
    NoSharedChars(" \"", FinishKeyword);
    NoSharedChars("\"", FinishKeyword);
    NotOccurs3(" \"", s, "\"", FinishKeyword);
    assert " " + Quote(s) == " \"" + s + "\"";
  }

  // ---------------------------------------------------------------------------
  // Responses written the way the prompts ask for them

  /** One labelled line. */
  function Line(key: string, value: string): string {
    key + value + "\n"
  }

  /** The response text a model is asked to produce for explore and grid
      steps: one labelled line per narrative field. */
  function RenderNarrative(n: Narrative): string {
    Line(ObservationLabel, n.observation)
      + (Line(ThoughtLabel, n.think)
      + (Line(ActionLabel, n.act)
      + Line(SummaryLabel, n.lastAct)))
  }

  /** A value that fits on its labelled line: one line, stripped, mentioning
      no key. */
  ghost predicate IsFieldText(f: string) {
    && '\n' !in f && IsStripped(f)
    && !Occurs(f, ObservationLabel) && !Occurs(f, ThoughtLabel) && !Occurs(f, ActionLabel)
    && !Occurs(f, SummaryLabel) && !Occurs(f, DecisionLabel) && !Occurs(f, DocumentationLabel)
  }

  /** Every label ends in a colon and a space, so a one-line stripped text
      without a colon fits on a labelled line. */
  lemma ColonFree(f: string)
    requires ':' !in f && '\n' !in f && IsStripped(f)
    ensures IsFieldText(f)
  {
    CharAbsent(f, ObservationLabel, 11);
    CharAbsent(f, ThoughtLabel, 7);
    CharAbsent(f, ActionLabel, 6);
    CharAbsent(f, SummaryLabel, 7);
    CharAbsent(f, DecisionLabel, 8);
    CharAbsent(f, DocumentationLabel, 13);
  }

  /** A labelled line whose key cannot start a match of `pat` does not
      contain `pat` unless its value does. */
  lemma LineFree(key: string, f: string, pat: string)
    requires |key| >= 2 && |pat| >= 2
    requires key[0] != pat[0] || key[1] != pat[1]
    requires forall k :: 1 <= k < |key| ==> key[k] != pat[0]
    requires !Occurs(f, pat) && '\n' !in pat
    ensures !Occurs(Line(key, f), pat)
  {
    assert Line(key, f) == key + (f + "\n");
    NoEarlyStart(key, f + "\n", pat);
    if Occurs(Line(key, f), pat) {
      var i :| OccursAt(key + (f + "\n"), pat, i);
      OccursShift(key, f + "\n", pat, i - |key|);
      OccursConcat(f, "\n", pat);
      assert false;
    }
  }

  /** The labelled line at the start of a response gives that label's field. */
  lemma FieldOfLine(key: string, f: string, rest: string)
    requires |key| > 0 && '\n' !in f && IsStripped(f)
    ensures Field(key, Line(key, f) + rest) == Some(f)
  {
    var s := Line(key, f) + rest;
    assert OccursAt(s, key, 0);
    FindFirstIs(key, s, 0);
    assert s == [] + key + f + "\n" + rest;
    RestOfLineAt(key, f, rest);
  }

  /** A labelled line for another label is skipped by the lookup. */
  lemma FieldSkipLine(key: string, f: string, rest: string, pat: string)
    requires |key| >= 2 && |pat| >= 2
    requires key[0] != pat[0] || key[1] != pat[1]
    requires forall k :: 1 <= k < |key| ==> key[k] != pat[0]
    requires !Occurs(f, pat) && '\n' !in pat
    ensures Field(pat, Line(key, f) + rest) == Field(pat, rest)
  {
    var x := Line(key, f);
    LineFree(key, f, pat);
    assert x[|x| - 1] == '\n';
    FindFirstSkip(x, rest, pat);
    FieldShift(x, rest, pat);
  }

  /** A lookup whose first match moves by `|x|` when `x` is put in front
      finds the same field. */
  lemma FieldShift(x: string, rest: string, pat: string)
    requires FindFirst(pat, x + rest) ==
               match FindFirst(pat, rest) case None => None case Some(j) => Some(|x| + j)
    ensures Field(pat, x + rest) == Field(pat, rest)
  {
    match FindFirst(pat, rest)
    case None =>
    case Some(j) =>
      FieldAt(pat, rest, j);
      FieldShiftAt(x, rest, pat, j);
  }

  /** The line after a match at `|x| + j` in `x + rest` is the line after
      `j` in `rest`. */
  lemma FieldShiftAt(x: string, rest: string, pat: string, j: nat)
    requires FindFirst(pat, x + rest) == Some(|x| + j)
    requires j + |pat| <= |rest|
    ensures Field(pat, x + rest) == Some(Strip(RestOfLine(rest, j + |pat|)))
  {
    RestOfLineShift(x, rest, j + |pat|);
    FieldIs(pat, x + rest, |x| + j, RestOfLine(rest, j + |pat|));
  }

  /** The field is the stripped line found after the first match. */
  lemma FieldIs(key: string, rsp: string, i: nat, line: string)
    requires FindFirst(key, rsp) == Some(i) && i + |key| <= |rsp|
    requires RestOfLine(rsp, i + |key|) == line
    ensures Field(key, rsp) == Some(Strip(line))
  {
    match FindFirst(key, rsp)
    case Some(j) =>
      assert j == i;
  }

  /** The field is the stripped rest of the line after the first match. */
  lemma FieldAt(key: string, rsp: string, i: nat)
    requires FindFirst(key, rsp) == Some(i)
    ensures i + |key| <= |rsp|
    ensures Field(key, rsp) == Some(Strip(RestOfLine(rsp, i + |key|)))
  {
    assert OccursAt(rsp, key, i);
    FieldIs(key, rsp, i, RestOfLine(rsp, i + |key|));
  }

  /** Reading back a response written with single-line, label-free fields
      gives the fields it was written from. */
  lemma ReadNarrativeRoundTrip(n: Narrative)
    requires IsFieldText(n.observation) && IsFieldText(n.think)
    requires IsFieldText(n.act) && IsFieldText(n.lastAct)
    ensures ReadNarrative(RenderNarrative(n)) == Some(n)
  {
    ObservationOfRender(n);
    ThoughtOfRender(n);
    ActionOfRender(n);
    SummaryOfRender(n);
  }

  lemma ObservationOfRender(n: Narrative)
    requires '\n' !in n.observation && IsStripped(n.observation)
    ensures Field(ObservationLabel, RenderNarrative(n)) == Some(n.observation)
  {
    FieldOfLine(ObservationLabel, n.observation,
                Line(ThoughtLabel, n.think) + (Line(ActionLabel, n.act) + Line(SummaryLabel, n.lastAct)));
  }

  lemma ThoughtOfRender(n: Narrative)
    requires !Occurs(n.observation, ThoughtLabel) && '\n' !in n.think && IsStripped(n.think)
    ensures Field(ThoughtLabel, RenderNarrative(n)) == Some(n.think)
  {
    var tail := Line(ActionLabel, n.act) + Line(SummaryLabel, n.lastAct);
    FieldSkipLine(ObservationLabel, n.observation, Line(ThoughtLabel, n.think) + tail, ThoughtLabel);
    FieldOfLine(ThoughtLabel, n.think, tail);
  }

  lemma ActionOfRender(n: Narrative)
    requires !Occurs(n.observation, ActionLabel) && !Occurs(n.think, ActionLabel)
    requires '\n' !in n.act && IsStripped(n.act)
    ensures Field(ActionLabel, RenderNarrative(n)) == Some(n.act)
  {
    assert Skips(ObservationLabel, n.observation, ActionLabel) && Skips(ThoughtLabel, n.think, ActionLabel);
    FieldOfThirdLine(ObservationLabel, n.observation, ThoughtLabel, n.think, ActionLabel, n.act,
                     Line(SummaryLabel, n.lastAct));
  }

  lemma SummaryOfRender(n: Narrative)
    requires !Occurs(n.observation, SummaryLabel) && !Occurs(n.think, SummaryLabel) && !Occurs(n.act, SummaryLabel)
    requires '\n' !in n.lastAct && IsStripped(n.lastAct)
    ensures Field(SummaryLabel, RenderNarrative(n)) == Some(n.lastAct)
  {
    assert Skips(ObservationLabel, n.observation, SummaryLabel);
    assert Skips(ThoughtLabel, n.think, SummaryLabel) && Skips(ActionLabel, n.act, SummaryLabel);
    FieldOfFourthLine(ObservationLabel, n.observation, ThoughtLabel, n.think, ActionLabel, n.act,
                      SummaryLabel, n.lastAct);
  }

  /** The line for `key` does not hide a match of `pat` from the lookup. */
  ghost predicate Skips(key: string, f: string, pat: string) {
    && |key| >= 2 && |pat| >= 2
    && (key[0] != pat[0] || key[1] != pat[1])
    && (forall k :: 1 <= k < |key| ==> key[k] != pat[0])
    && !Occurs(f, pat) && '\n' !in pat
  }

  /** The third of three labelled lines is found past the first two. */
  lemma FieldOfThirdLine(k1: string, f1: string, k2: string, f2: string, k3: string, f3: string, tail: string)
    requires Skips(k1, f1, k3) && Skips(k2, f2, k3)
    requires '\n' !in f3 && IsStripped(f3)
    ensures Field(k3, Line(k1, f1) + (Line(k2, f2) + (Line(k3, f3) + tail))) == Some(f3)
  {
    var t := Line(k3, f3) + tail;
    FieldSkipLine(k1, f1, Line(k2, f2) + t, k3);
    FieldSkipLine(k2, f2, t, k3);
    FieldOfLine(k3, f3, tail);
  }

  /** The last of four labelled lines is found past the first three. */
  lemma FieldOfFourthLine(k1: string, f1: string, k2: string, f2: string, k3: string, f3: string,
                          k4: string, f4: string)
    requires Skips(k1, f1, k4) && Skips(k2, f2, k4) && Skips(k3, f3, k4)
    requires '\n' !in f4 && IsStripped(f4)
    ensures Field(k4, Line(k1, f1) + (Line(k2, f2) + (Line(k3, f3) + Line(k4, f4)))) == Some(f4)
  {
    var rest := Line(k2, f2) + (Line(k3, f3) + Line(k4, f4));
    assert Line(k4, f4) == Line(k4, f4) + [];
    FieldOfThirdLine(k2, f2, k3, f3, k4, f4, []);
    FieldSkipLine(k1, f1, rest, k4);
  }
}
