/** `parse_grid_rsp` in scripts/model.py: the decoder for the model's answer
    while the screenshot is overlaid with a numbered grid. The narrative is
    read as in exploration; the action names a grid cell and a position
    inside it: `tap(area, "subarea")`, `long_press(area, "subarea")`,
    `swipe(area, "subarea", area, "subarea")`, `grid()`, or anything
    mentioning `FINISH`. There is no `text` action in this mode. */
module GridGrammar {
  import opened Wrappers
  import opened Text
  import opened ResponseFields

  datatype Action =
    | Finish
    | TapGrid(area: int, subarea: string)
    | LongPressGrid(area: int, subarea: string)
    | SwipeGrid(startArea: int, startSubarea: string, endArea: int, endSubarea: string)
    | Grid

  datatype Command = Command(action: Action, narrative: Narrative) | Error

  /** The call name the action is written with. */
  function CallName(a: Action): string {
    match a
    case Finish => FinishKeyword
    case TapGrid(_, _) => "tap"
    case LongPressGrid(_, _) => "long_press"
    case SwipeGrid(_, _, _, _) => "swipe"
    case Grid => "grid"
  }

  /** The first element of the action's list: the call name with `_grid`
      appended, except for `FINISH` and `grid`. */
  function Name(a: Action): string {
    match a
    case Finish => FinishKeyword
    case Grid => "grid"
    case _ => CallName(a) + "_grid"
  }

  /** The cell at `parts[k]` and the position inside it at `parts[k + 1]`:
      an integer after stripping, and a stripped text without its outer
      characters. */
  function Spot(parts: seq<string>, k: nat): (r: Option<(int, string)>)
    ensures r.Some? ==> k + 1 < |parts|
    ensures r.Some? ==> PyInt(Strip(parts[k])) == Some(r.value.0) && r.value.1 == Inner(Strip(parts[k + 1]))
    ensures k + 1 < |parts| && PyInt(Strip(parts[k])).Some? ==> r.Some?
  {
    if k >= |parts| then None
    else
      match PyInt(Strip(parts[k]))
      case None => None
      case Some(area) => if k + 1 >= |parts| then None else Some((area, Inner(Strip(parts[k + 1]))))
  }

  /** The arguments of `name(...)` split at commas. */
  function Params(name: string, act: string): Option<seq<string>> {
    match CallArgs(name, act)
    case None => None
    case Some(args) => Some(Split(args, ','))
  }

  /** The `tap` and `long_press` branches: at least two arguments, of which
      only the first two are read. */
  function TouchOperands(name: string, act: string): (r: Option<(int, string)>)
    ensures r.Some? ==> Params(name, act).Some? && |Params(name, act).value| >= 2
    ensures Params(name, act).Some? && |Params(name, act).value| < 2 ==> r.None?
    ensures Params(name, act).None? ==> r.None?
    ensures Params(name, act).Some? ==> r == Spot(Params(name, act).value, 0)
  {
    match Params(name, act)
    case None => None
    case Some(parts) => Spot(parts, 0)
  }

  /** The `swipe` branch: at least four arguments, read as two cells each
      with a position. */
  function SwipeOperands(act: string): (r: Option<Action>)
    ensures r.Some? ==> r.value.SwipeGrid?
    ensures r.Some? ==> Params("swipe", act).Some? && |Params("swipe", act).value| >= 4
    ensures Params("swipe", act).Some? && |Params("swipe", act).value| < 4 ==> r.None?
    ensures r.None? <==> Params("swipe", act).None? || Spot(Params("swipe", act).value, 0).None? ||
                         Spot(Params("swipe", act).value, 2).None?
    ensures r.Some? ==> var parts := Params("swipe", act).value;
              r.value == SwipeGrid(Spot(parts, 0).value.0, Spot(parts, 0).value.1,
                                   Spot(parts, 2).value.0, Spot(parts, 2).value.1)
  {
    match Params("swipe", act)
    case None => None
    case Some(parts) =>
      match Spot(parts, 0)
      case None => None
      case Some(start) =>
        match Spot(parts, 2)
        case None => None
        case Some(end) => Some(SwipeGrid(start.0, start.1, end.0, end.1))
  }

  /** The branch on the action name: a known name whose operands do not
      decode fails like an unknown name. */
  function NamedAction(name: string, act: string): (r: Option<Action>)
    ensures r.Some? ==> !r.value.Finish? && CallName(r.value) == name
    ensures name !in ["tap", "long_press", "swipe", "grid"] ==> r.None?
    ensures name == "tap" || name == "long_press" ==> (r.None? <==> TouchOperands(name, act).None?)
    ensures r.Some? && (r.value.TapGrid? || r.value.LongPressGrid?) ==>
              TouchOperands(name, act) == Some((r.value.area, r.value.subarea))
    ensures name == "swipe" ==> r == SwipeOperands(act)
    ensures name == "grid" ==> r == Some(Grid)
  {
    if name == "tap" then
      match TouchOperands(name, act)
      case None => None
      case Some(spot) => Some(TapGrid(spot.0, spot.1))
    else if name == "long_press" then
      match TouchOperands(name, act)
      case None => None
      case Some(spot) => Some(LongPressGrid(spot.0, spot.1))
    else if name == "swipe" then SwipeOperands(act)
    else if name == "grid" then Some(Grid)
    else None
  }

  /** The action field read as a grid action, `None` where the source
      prints an error or raises. A `text` call, which exploration accepts,
      is one of the names rejected here. */
  function DecodeAction(act: string): (r: Option<Action>)
    ensures Contains(act, FinishKeyword) <==> r == Some(Finish)
    ensures r.Some? && !r.value.Finish? ==> ActionName(act) == CallName(r.value)
    ensures !Contains(act, FinishKeyword) ==>
              (ActionName(act) !in ["tap", "long_press", "swipe", "grid"] ==> r.None?)
    ensures !Contains(act, FinishKeyword) && ActionName(act) == "grid" ==> r == Some(Grid)
    ensures !Contains(act, FinishKeyword) && ActionName(act) in ["tap", "long_press"] ==>
              (r.None? <==> TouchOperands(ActionName(act), act).None?)
    ensures r.Some? && (r.value.TapGrid? || r.value.LongPressGrid?) ==>
              TouchOperands(CallName(r.value), act) == Some((r.value.area, r.value.subarea))
    ensures !Contains(act, FinishKeyword) && ActionName(act) == "swipe" ==> r == SwipeOperands(act)
  {
    if Contains(act, FinishKeyword) then Some(Finish)
    else NamedAction(ActionName(act), act)
  }

  /** `parse_grid_rsp` before its result is flattened into a list. */
  function Decode(rsp: string): (c: Command)
    ensures c.Error? <==> ReadNarrative(rsp).None? || DecodeAction(ReadNarrative(rsp).value.act).None?
    ensures c.Command? ==> ReadNarrative(rsp) == Some(c.narrative) && DecodeAction(c.narrative.act) == Some(c.action)
  {
    match ReadNarrative(rsp)
    case None => Error
    case Some(n) =>
      match DecodeAction(n.act)
      case None => Error
      case Some(a) => Command(a, n)
  }

  /** The Python list a command is returned as. */
  function AsList(c: Command): (r: seq<Item>)
    ensures c.Error? <==> r == [Str(ErrorTag)]
    ensures c.Command? ==> |r| >= 5 && r[0] == Str(Name(c.action))
  {
    match c
    case Error => [Str(ErrorTag)]
    case Command(a, Narrative(observation, think, act, lastAct)) =>
      match a
      case Finish => [Str(FinishKeyword), Str(observation), Str(think), Str(act), Str(lastAct)]
      case TapGrid(area, subarea) =>
        [Str(Name(a)), Int(area), Str(subarea), Str(lastAct), Str(observation), Str(think), Str(act)]
      case LongPressGrid(area, subarea) =>
        [Str(Name(a)), Int(area), Str(subarea), Str(lastAct), Str(observation), Str(think), Str(act)]
      case SwipeGrid(startArea, startSubarea, endArea, endSubarea) =>
        [Str(Name(a)), Int(startArea), Str(startSubarea), Int(endArea), Str(endSubarea),
         Str(lastAct), Str(observation), Str(think), Str(act)]
      case Grid => [Str("grid"), Str(observation), Str(think), Str(act), Str(lastAct)]
  }

  /** `parse_grid_rsp(rsp)`. */
  function ParseGridRsp(rsp: string): (r: seq<Item>)
    ensures r == [Str(ErrorTag)] <==> Decode(rsp).Error?
    ensures !(Occurs(rsp, ObservationLabel) && Occurs(rsp, ThoughtLabel) && Occurs(rsp, ActionLabel)) ==>
              r == [Str(ErrorTag)]
    ensures ReadNarrative(rsp).Some? && Contains(ReadNarrative(rsp).value.act, FinishKeyword) ==>
              var n := ReadNarrative(rsp).value;
              r == [Str(FinishKeyword), Str(n.observation), Str(n.think), Str(n.act), Str(n.lastAct)]
    ensures Decode(rsp).Command? ==> |r| >= 5 && r[0] == Str(Name(Decode(rsp).action))
  {
    AsList(Decode(rsp))
  }

  /** Different commands give different lists. */
  lemma AsListInjective(c: Command, d: Command)
    requires AsList(c) == AsList(d)
    ensures c == d
  {
    var l := AsList(c);
    if c.Command? && d.Command? {
      assert l[0] == Str(Name(c.action)) && l[0] == Str(Name(d.action));
    }
  }

  // ---------------------------------------------------------------------------
  // Actions written the way the grid prompt asks for them

  /** A cell and a position inside it, as two call arguments. */
  function SpotArgs(area: int, subarea: string): seq<string> {
    [IntToString(area), " " + Quote(subarea)]
  }

  /** The argument list a model writes for `a`. */
  function Arguments(a: Action): seq<string> {
    match a
    case TapGrid(area, subarea) => SpotArgs(area, subarea)
    case LongPressGrid(area, subarea) => SpotArgs(area, subarea)
    case SwipeGrid(startArea, startSubarea, endArea, endSubarea) =>
      SpotArgs(startArea, startSubarea) + SpotArgs(endArea, endSubarea)
    case _ => []
  }

  /** The action text for `a` with `extra` arguments written after the ones
      the action needs. */
  function RenderAction(a: Action, extra: seq<string>): string {
    match a
    case Finish => FinishKeyword
    case Grid => Call("grid", "")
    case _ => Call(CallName(a), Join(Arguments(a) + extra, ','))
  }

  ghost predicate WellFormed(a: Action) {
    match a
    case TapGrid(_, subarea) => IsArgument(subarea)
    case LongPressGrid(_, subarea) => IsArgument(subarea)
    case SwipeGrid(_, startSubarea, _, endSubarea) => IsArgument(startSubarea) && IsArgument(endSubarea)
    case _ => true
  }

  /** A cell written as two arguments is read back at its index. */
  lemma SpotOf(parts: seq<string>, k: nat, area: int, subarea: string)
    requires k + 1 < |parts| && parts[k] == IntToString(area) && parts[k + 1] == " " + Quote(subarea)
    ensures Spot(parts, k) == Some((area, subarea))
  {
    assert PyInt(Strip(parts[k])) == Some(area) by {
      assert IsStripped(IntToString(area));
      PyIntRoundTrip(area);
    }
    assert Inner(Strip(parts[k + 1])) == subarea by {
      QuoteRead(subarea);
    }
    SpotIs(parts, k, area, subarea);
  }

  /** A cell whose two arguments are read as `area` and `subarea` is that spot. */
  lemma SpotIs(parts: seq<string>, k: nat, area: int, subarea: string)
    requires k + 1 < |parts|
    requires PyInt(Strip(parts[k])) == Some(area) && Inner(Strip(parts[k + 1])) == subarea
    ensures Spot(parts, k) == Some((area, subarea))
  {
  }

  /** The arguments written for a well-formed action fit inside its call. */
  lemma ArgumentsOf(a: Action, extra: seq<string>)
    requires WellFormed(a)
    requires forall k :: 0 <= k < |extra| ==> IsArgument(extra[k])
    ensures forall k :: 0 <= k < |Arguments(a) + extra| ==> IsArgument((Arguments(a) + extra)[k])
  {
    match a
    case TapGrid(area, subarea) =>
      IntArgument(area);
      QuotedArgument(subarea);
    case LongPressGrid(area, subarea) =>
      IntArgument(area);
      QuotedArgument(subarea);
    case SwipeGrid(startArea, startSubarea, endArea, endSubarea) =>
      IntArgument(startArea);
      QuotedArgument(startSubarea);
      IntArgument(endArea);
      QuotedArgument(endSubarea);
    case _ =>
  }

  /** The call written for a well-formed action is read back as its name
      and its argument list. */
  lemma CallRead(a: Action, extra: seq<string>)
    requires WellFormed(a) && !a.Finish? && !a.Grid?
    requires forall k :: 0 <= k < |extra| ==> IsArgument(extra[k])
    ensures !Contains(RenderAction(a, extra), FinishKeyword)
    ensures ActionName(RenderAction(a, extra)) == CallName(a)
    ensures Params(CallName(a), RenderAction(a, extra)) == Some(Arguments(a) + extra)
  {
    var name := CallName(a);
    var parts := Arguments(a) + extra;
    CallNameFits(a);
    assert |parts| >= 1 && forall k :: 0 <= k < |parts| ==> IsArgument(parts[k]) by {
      ArgumentsOf(a, extra);
    }
    assert RenderAction(a, extra) == Call(name, Join(parts, ','));
    CallParts(name, parts);
  }

  /** The call names of the actions written as calls stand before `(`
      and share no character with `FINISH`. */
  lemma CallNameFits(a: Action)
    requires !a.Finish? && !a.Grid?
    ensures '(' !in CallName(a) && IsStripped(CallName(a))
    ensures forall k :: 0 <= k < |CallName(a)| ==> CallName(a)[k] !in FinishKeyword
  {
  }

  /** A call written with comma-joined arguments gives those arguments back. */
  lemma CallParts(name: string, parts: seq<string>)
    requires '(' !in name && IsStripped(name)
    requires forall k :: 0 <= k < |name| ==> name[k] !in FinishKeyword
    requires |parts| >= 1 && forall k :: 0 <= k < |parts| ==> IsArgument(parts[k])
    ensures !Contains(Call(name, Join(parts, ',')), FinishKeyword)
    ensures ActionName(Call(name, Join(parts, ','))) == name
    ensures Params(name, Call(name, Join(parts, ','))) == Some(parts)
  {
    ArgumentsFit(parts);
    CallWith(name, Join(parts, ','));
    SplitJoin(parts, ',');
  }

  /** Decoding the text written for a well-formed action gives the action
      back, whatever extra arguments follow the ones it needs. */
  lemma DecodeActionRoundTrip(a: Action, extra: seq<string>)
    requires WellFormed(a)
    requires forall k :: 0 <= k < |extra| ==> IsArgument(extra[k])
    ensures DecodeAction(RenderAction(a, extra)) == Some(a)
  {
    var act := RenderAction(a, extra);
    match a
    case Finish =>
      assert OccursAt(act, FinishKeyword, 0);
    case Grid =>
      NoSharedChars("", FinishKeyword);
      CallFree("grid", "", FinishKeyword);
      CallOf("grid", "");
    case TapGrid(_, _) =>
      TouchRoundTrip(a, extra);
    case LongPressGrid(_, _) =>
      TouchRoundTrip(a, extra);
    case SwipeGrid(_, _, _, _) =>
      SwipeRoundTrip(a, extra);
  }

  /** The `swipe` case of the round trip. */
  lemma SwipeRoundTrip(a: Action, extra: seq<string>)
    requires a.SwipeGrid? && WellFormed(a)
    requires forall k :: 0 <= k < |extra| ==> IsArgument(extra[k])
    ensures DecodeAction(RenderAction(a, extra)) == Some(a)
  {
    CallRead(a, extra);
    SwipeSpots(a, extra);
    DecodeSwipe(RenderAction(a, extra), Arguments(a) + extra, a);
  }

  /** Both cells of a written `swipe` are read back. */
  lemma SwipeSpots(a: Action, extra: seq<string>)
    requires a.SwipeGrid?
    ensures Spot(Arguments(a) + extra, 0) == Some((a.startArea, a.startSubarea))
    ensures Spot(Arguments(a) + extra, 2) == Some((a.endArea, a.endSubarea))
  {
    var parts := Arguments(a) + extra;
    assert parts[2] == IntToString(a.endArea) && parts[3] == " " + Quote(a.endSubarea);
    SpotOf(parts, 0, a.startArea, a.startSubarea);
    SpotOf(parts, 2, a.endArea, a.endSubarea);
  }

  /** A `swipe` call whose two cells are read is decoded as that swipe. */
  lemma DecodeSwipe(act: string, parts: seq<string>, a: Action)
    requires a.SwipeGrid? && !Contains(act, FinishKeyword) && ActionName(act) == "swipe"
    requires Params("swipe", act) == Some(parts)
    requires Spot(parts, 0) == Some((a.startArea, a.startSubarea))
    requires Spot(parts, 2) == Some((a.endArea, a.endSubarea))
    ensures DecodeAction(act) == Some(a)
  {
    assert SwipeOperands(act) == Some(a);
  }

  /** The `tap` and `long_press` cases of the round trip. */
  lemma TouchRoundTrip(a: Action, extra: seq<string>)
    requires a.TapGrid? || a.LongPressGrid?
    requires WellFormed(a)
    requires forall k :: 0 <= k < |extra| ==> IsArgument(extra[k])
    ensures DecodeAction(RenderAction(a, extra)) == Some(a)
  {
    CallRead(a, extra);
    TouchSpot(a, extra);
    DecodeTouch(RenderAction(a, extra), Arguments(a) + extra, a);
  }

  /** The cell of a written `tap` or `long_press` is read back. */
  lemma TouchSpot(a: Action, extra: seq<string>)
    requires a.TapGrid? || a.LongPressGrid?
    ensures Spot(Arguments(a) + extra, 0) == Some((a.area, a.subarea))
  {
    var parts := Arguments(a) + extra;
    assert parts[0] == IntToString(a.area) && parts[1] == " " + Quote(a.subarea);
    SpotOf(parts, 0, a.area, a.subarea);
  }

  /** A `tap` or `long_press` call whose cell is read is decoded as that
      action. */
  lemma DecodeTouch(act: string, parts: seq<string>, a: Action)
    requires a.TapGrid? || a.LongPressGrid?
    requires !Contains(act, FinishKeyword) && ActionName(act) == CallName(a)
    requires Params(CallName(a), act) == Some(parts)
    requires Spot(parts, 0) == Some((a.area, a.subarea))
    ensures DecodeAction(act) == Some(a)
  {
    assert TouchOperands(CallName(a), act) == Some((a.area, a.subarea));
  }

  /** Reading a response written with label-free narrative lines and a
      well-formed grid action gives back the action and the narrative. */
  lemma GridRoundTrip(a: Action, extra: seq<string>, n: Narrative)
    requires WellFormed(a) && n.act == RenderAction(a, extra)
    requires forall k :: 0 <= k < |extra| ==> IsArgument(extra[k])
    requires IsFieldText(n.observation) && IsFieldText(n.think)
    requires IsFieldText(n.act) && IsFieldText(n.lastAct)
    ensures Decode(RenderNarrative(n)) == Command(a, n)
    ensures ParseGridRsp(RenderNarrative(n)) == AsList(Command(a, n))
  {
    ReadNarrativeRoundTrip(n);
    DecodeActionRoundTrip(a, extra);
  }
}
