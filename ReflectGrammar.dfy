/** `parse_reflect_rsp` in scripts/model.py: the decoder for the model's
    verdict on the effect of its last action. The answer carries a
    `Decision` line, a `Thought` line and, for effective actions, a
    `Documentation` line describing the element acted on. */
module ReflectGrammar {
  import opened Wrappers
  import opened Text
  import opened ResponseFields

  /** The decisions that come with documentation. */
  datatype Verdict = Back | Continue | Success

  datatype Reflection =
    | Ineffective(think: string)
    | Documented(verdict: Verdict, think: string, doc: string)
    | Error

  const IneffectiveText := "INEFFECTIVE"

  /** A response whose stripped text is shorter than this is rejected. */
  const MinLength := 10

  function VerdictText(v: Verdict): string {
    match v
    case Back => "BACK"
    case Continue => "CONTINUE"
    case Success => "SUCCESS"
  }

  /** The verdict a decision names, compared exactly. */
  function VerdictOf(decision: string): (r: Option<Verdict>)
    ensures r.Some? ==> VerdictText(r.value) == decision
    ensures r.None? ==> decision !in ["BACK", "CONTINUE", "SUCCESS"]
  {
    if decision == "BACK" then Some(Back)
    else if decision == "CONTINUE" then Some(Continue)
    else if decision == "SUCCESS" then Some(Success)
    else None
  }

  /** The decision made from the three lookups of a response long enough
      to be read: a missing decision or thought is an error, `INEFFECTIVE`
      ignores the documentation, the documented verdicts take it or the
      placeholder, and any other decision is an error. */
  function Judge(decision: Option<string>, think: Option<string>, doc: Option<string>): (r: Reflection)
    ensures decision.None? || think.None? ==> r.Error?
    ensures r.Ineffective? <==> decision == Some(IneffectiveText) && think.Some?
    ensures r.Ineffective? ==> think == Some(r.think)
    ensures r.Documented? ==>
              decision == Some(VerdictText(r.verdict)) && think == Some(r.think) && r.doc == doc.GetOr(NoDocumentation)
    ensures decision.Some? && think.Some? ==>
              (decision.value !in [IneffectiveText, "BACK", "CONTINUE", "SUCCESS"] <==> r.Error?)
  {
    match decision
    case None => Error
    case Some(d) =>
      match think
      case None => Error
      case Some(t) =>
        if d == IneffectiveText then Ineffective(t)
        else
          match VerdictOf(d)
          case Some(v) => Documented(v, t, doc.GetOr(NoDocumentation))
          case None => Error
  }

  /** `parse_reflect_rsp` before its result is flattened into a list: the
      length check comes before any lookup. */
  function Decode(rsp: string): (r: Reflection)
    ensures |Strip(rsp)| < MinLength ==> r.Error?
    ensures !Occurs(rsp, DecisionLabel) || !Occurs(rsp, ThoughtLabel) ==> r.Error?
    ensures |Strip(rsp)| >= MinLength ==>
              r == Judge(Field(DecisionLabel, rsp), Field(ThoughtLabel, rsp), Field(DocumentationLabel, rsp))
  {
    if |rsp| == 0 || |Strip(rsp)| < MinLength then Error
    else Judge(Field(DecisionLabel, rsp), Field(ThoughtLabel, rsp), Field(DocumentationLabel, rsp))
  }

  /** The Python list a reflection is returned as; `None` is the missing
      documentation of an ineffective action. */
  function AsList(r: Reflection): (l: seq<Item>)
    ensures r.Error? <==> l == [Str(ErrorTag)]
    ensures !r.Error? ==> |l| == 3
  {
    match r
    case Ineffective(think) => [Str(IneffectiveText), Str(think), Null]
    case Documented(v, think, doc) => [Str(VerdictText(v)), Str(think), Str(doc)]
    case Error => [Str(ErrorTag)]
  }

  /** `parse_reflect_rsp(rsp)`. */
  function ParseReflectRsp(rsp: string): (l: seq<Item>)
    ensures l == [Str(ErrorTag)] <==> Decode(rsp).Error?
    ensures |Strip(rsp)| < MinLength ==> l == [Str(ErrorTag)]
    ensures l != [Str(ErrorTag)] ==> |l| == 3 && (l[2].Null? <==> Decode(rsp).Ineffective?)
  {
    AsList(Decode(rsp))
  }

  /** Different reflections give different lists. */
  lemma AsListInjective(r: Reflection, s: Reflection)
    requires AsList(r) == AsList(s)
    ensures r == s
  {
    var l := AsList(r);
    if r.Documented? && s.Documented? {
      assert l[0] == Str(VerdictText(r.verdict)) && l[0] == Str(VerdictText(s.verdict));
    }
  }

  // ---------------------------------------------------------------------------
  // Responses written the way the reflection prompt asks for them

  /** The documentation line, when there is one. */
  function DocLine(doc: Option<string>): string {
    match doc
    case Some(d) => Line(DocumentationLabel, d)
    case None => ""
  }

  /** A decision line, a thought line and, when present, a documentation line. */
  function RenderReflection(decision: string, think: string, doc: Option<string>): string {
    Line(DecisionLabel, decision) + (Line(ThoughtLabel, think) + DocLine(doc))
  }

  /** The fields of a written reflection are read back, and its text is long
      enough to pass the length check. */
  lemma ReflectionFields(decision: string, think: string, doc: Option<string>)
    requires |decision| > 0 && IsFieldText(decision) && IsFieldText(think)
    requires doc.Some? ==> IsFieldText(doc.value)
    ensures var rsp := RenderReflection(decision, think, doc);
      && |Strip(rsp)| >= MinLength
      && Field(DecisionLabel, rsp) == Some(decision)
      && Field(ThoughtLabel, rsp) == Some(think)
      && Field(DocumentationLabel, rsp) == doc
  {
    var tail := Line(ThoughtLabel, think) + DocLine(doc);
    ReflectionLength(decision, tail);
    FieldOfLine(DecisionLabel, decision, tail);
    ThoughtOfReflection(decision, think, doc);
    DocumentationOfReflection(decision, think, doc);
  }

  lemma ThoughtOfReflection(decision: string, think: string, doc: Option<string>)
    requires IsFieldText(decision) && IsFieldText(think)
    ensures Field(ThoughtLabel, RenderReflection(decision, think, doc)) == Some(think)
  {
    FieldSkipLine(DecisionLabel, decision, Line(ThoughtLabel, think) + DocLine(doc), ThoughtLabel);
    FieldOfLine(ThoughtLabel, think, DocLine(doc));
  }

  lemma DocumentationOfReflection(decision: string, think: string, doc: Option<string>)
    requires IsFieldText(decision) && IsFieldText(think)
    requires doc.Some? ==> IsFieldText(doc.value)
    ensures Field(DocumentationLabel, RenderReflection(decision, think, doc)) == doc
  {
    SkipToDocumentation(decision, think, DocLine(doc));
    DocumentationOfLine(doc);
  }

  /** The decision and thought lines are skipped by the documentation lookup. */
  lemma SkipToDocumentation(decision: string, think: string, rest: string)
    requires IsFieldText(decision) && IsFieldText(think)
    ensures Field(DocumentationLabel, Line(DecisionLabel, decision) + (Line(ThoughtLabel, think) + rest))
            == Field(DocumentationLabel, rest)
  {
    FieldSkipLine(DecisionLabel, decision, Line(ThoughtLabel, think) + rest, DocumentationLabel);
    FieldSkipLine(ThoughtLabel, think, rest, DocumentationLabel);
  }

  /** The documentation line, when written, gives the documentation back. */
  lemma DocumentationOfLine(doc: Option<string>)
    requires doc.Some? ==> IsFieldText(doc.value)
    ensures Field(DocumentationLabel, DocLine(doc)) == doc
  {
    match doc
    case Some(d) =>
      assert DocLine(doc) == Line(DocumentationLabel, d) + [];
      FieldOfLine(DocumentationLabel, d, []);
    case None =>
      assert !Occurs(DocLine(doc), DocumentationLabel);
  }

  /** A decision line with a non-empty stripped decision is ten characters
      or more after stripping. */
  lemma ReflectionLength(decision: string, tail: string)
    requires |decision| > 0 && IsStripped(decision)
    ensures |Strip(Line(DecisionLabel, decision) + tail)| >= MinLength
  {
    var s := Line(DecisionLabel, decision) + tail;
    var j := |DecisionLabel| + |decision| - 1;
    assert s[0] == 'D';
    assert s[j] == decision[|decision| - 1];
    StripKeepsSpan(s, 0, j);
  }

  /** A documented verdict's text is judged as that verdict. */
  lemma JudgeVerdict(v: Verdict, think: string, doc: Option<string>)
    ensures Judge(Some(VerdictText(v)), Some(think), doc) == Documented(v, think, doc.GetOr(NoDocumentation))
  {
    assert VerdictText(v) != IneffectiveText;
    assert VerdictOf(VerdictText(v)) == Some(v);
  }

  /** A documented verdict written with its fields is read back as written;
      without a documentation line it gets the placeholder. */
  lemma DocumentedRoundTrip(v: Verdict, think: string, doc: Option<string>)
    requires IsFieldText(think)
    requires doc.Some? ==> IsFieldText(doc.value)
    ensures Decode(RenderReflection(VerdictText(v), think, doc)) == Documented(v, think, doc.GetOr(NoDocumentation))
  {
    ColonFree(VerdictText(v));
    ReflectionFields(VerdictText(v), think, doc);
    DecodeVerdict(RenderReflection(VerdictText(v), think, doc), v, think, doc);
  }

  /** A long enough response whose lookups find a documented verdict is
      decoded as that verdict. */
  lemma DecodeVerdict(rsp: string, v: Verdict, think: string, doc: Option<string>)
    requires |Strip(rsp)| >= MinLength
    requires Field(DecisionLabel, rsp) == Some(VerdictText(v)) && Field(ThoughtLabel, rsp) == Some(think)
    requires Field(DocumentationLabel, rsp) == doc
    ensures Decode(rsp) == Documented(v, think, doc.GetOr(NoDocumentation))
  {
    JudgeVerdict(v, think, doc);
  }

  /** An ineffective verdict carries no documentation, even when the
      response has a documentation line. */
  lemma IneffectiveIgnoresDocumentation(think: string, doc: Option<string>)
    requires IsFieldText(think)
    requires doc.Some? ==> IsFieldText(doc.value)
    ensures Decode(RenderReflection(IneffectiveText, think, doc)) == Ineffective(think)
    ensures ParseReflectRsp(RenderReflection(IneffectiveText, think, doc)) == [Str(IneffectiveText), Str(think), Null]
  {
    ColonFree(IneffectiveText);
    ReflectionFields(IneffectiveText, think, doc);
  }
}
