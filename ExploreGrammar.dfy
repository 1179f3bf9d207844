/** `parse_explore_rsp` in scripts/model.py: the decoder for the model's
    answer during autonomous exploration. The answer carries the four
    narrative fields; its `Action` field is either anything mentioning
    `FINISH` or one call among `tap(area)`, `text("input")`,
    `long_press(area)`, `swipe(area, "direction", "distance")` and `grid()`. */
module ExploreGrammar {
  import opened Wrappers
  import opened Text
  import opened ResponseFields

  datatype Action =
    | Finish
    | Tap(area: int)
    | TypeText(input: string)
    | LongPress(area: int)
    | Swipe(area: int, direction: string, distance: string)
    | Grid

  /** A decoded response: an action with the narrative it came with, or the
      failure every error path collapses to. */
  datatype Command = Command(action: Action, narrative: Narrative) | Error

  /** The name an action is called by; also the first element of its list. */
  function Name(a: Action): string {
    match a
    case Finish => FinishKeyword
    case Tap(_) => "tap"
    case TypeText(_) => "text"
    case LongPress(_) => "long_press"
    case Swipe(_, _, _) => "swipe"
    case Grid => "grid"
  }

  /** `int(re.findall(name + r"\((.*?)\)", act)[0])`. */
  function AreaOperand(name: string, act: string): (r: Option<int>)
    ensures r.Some? ==> CallArgs(name, act).Some? && PyInt(CallArgs(name, act).value) == r
    ensures CallArgs(name, act).Some? ==> r == PyInt(CallArgs(name, act).value)
    ensures CallArgs(name, act).None? ==> r.None?
  {
    match CallArgs(name, act)
    case None => None
    case Some(args) => PyInt(args)
  }

  /** The `swipe` branch: exactly three comma-separated arguments, an
      integer area, then two operands whose outer characters are dropped
      after stripping. */
  function SwipeOperands(act: string): (r: Option<Action>)
    ensures r.Some? ==> r.value.Swipe?
    ensures r.Some? ==> CallArgs("swipe", act).Some? && |Split(CallArgs("swipe", act).value, ',')| == 3
    ensures CallArgs("swipe", act).None? ==> r.None?
    ensures CallArgs("swipe", act).Some? && |Split(CallArgs("swipe", act).value, ',')| != 3 ==> r.None?
    ensures CallArgs("swipe", act).Some? && |Split(CallArgs("swipe", act).value, ',')| == 3 ==>
              (r.None? <==> PyInt(Split(CallArgs("swipe", act).value, ',')[0]).None?)
    ensures r.Some? ==> var parts := Split(CallArgs("swipe", act).value, ',');
              PyInt(parts[0]) == Some(r.value.area) &&
              r.value.direction == Inner(Strip(parts[1])) && r.value.distance == Inner(Strip(parts[2]))
  {
    match CallArgs("swipe", act)
    case None => None
    case Some(args) =>
      var parts := Split(args, ',');
      if |parts| != 3 then None
      else
        match PyInt(parts[0])
        case None => None
        case Some(area) => Some(Swipe(area, Inner(Strip(parts[1])), Inner(Strip(parts[2]))))
  }

  /** The branch on the action name: a known name whose operands do not
      decode fails like an unknown name. */
  function NamedAction(name: string, act: string): (r: Option<Action>)
    ensures r.Some? ==> !r.value.Finish? && Name(r.value) == name
    ensures name !in ["tap", "text", "long_press", "swipe", "grid"] ==> r.None?
    ensures name == "tap" || name == "long_press" ==> (r.None? <==> AreaOperand(name, act).None?)
    ensures r.Some? && (r.value.Tap? || r.value.LongPress?) ==> AreaOperand(name, act) == Some(r.value.area)
    ensures name == "text" ==> (r.None? <==> CallArgs("text", act).None?)
    ensures r.Some? && r.value.TypeText? ==>
              CallArgs("text", act).Some? && r.value.input == Inner(CallArgs("text", act).value)
    ensures name == "swipe" ==> r == SwipeOperands(act)
    ensures name == "grid" ==> r == Some(Grid)
  {
    if name == "tap" then
      match AreaOperand(name, act)
      case None => None
      case Some(area) => Some(Tap(area))
    else if name == "text" then
      match CallArgs(name, act)
      case None => None
      case Some(args) => Some(TypeText(Inner(args)))
    else if name == "long_press" then
      match AreaOperand(name, act)
      case None => None
      case Some(area) => Some(LongPress(area))
    else if name == "swipe" then SwipeOperands(act)
    else if name == "grid" then Some(Grid)
    else None
  }

  /** The action field read as an action, `None` where the source prints an
      error or raises. `FINISH` anywhere in the text wins over every name. */
  function DecodeAction(act: string): (r: Option<Action>)
    ensures Contains(act, FinishKeyword) <==> r == Some(Finish)
    ensures r.Some? && !r.value.Finish? ==> ActionName(act) == Name(r.value)
    ensures !Contains(act, FinishKeyword) ==>
              (ActionName(act) !in ["tap", "text", "long_press", "swipe", "grid"] ==> r.None?)
    ensures !Contains(act, FinishKeyword) && ActionName(act) == "grid" ==> r == Some(Grid)
    ensures !Contains(act, FinishKeyword) && ActionName(act) in ["tap", "long_press"] ==>
              (r.None? <==> AreaOperand(ActionName(act), act).None?)
    ensures r.Some? && (r.value.Tap? || r.value.LongPress?) ==> AreaOperand(Name(r.value), act) == Some(r.value.area)
    ensures !Contains(act, FinishKeyword) && ActionName(act) == "text" ==> (r.None? <==> CallArgs("text", act).None?)
    ensures r.Some? && r.value.TypeText? ==>
              CallArgs("text", act).Some? && r.value.input == Inner(CallArgs("text", act).value)
    ensures !Contains(act, FinishKeyword) && ActionName(act) == "swipe" ==> r == SwipeOperands(act)
  {
    if Contains(act, FinishKeyword) then Some(Finish)
    else NamedAction(ActionName(act), act)
  }

  /** `parse_explore_rsp` before its result is flattened into a list. */
  function Decode(rsp: string): (c: Command)
    ensures c.Error? <==> ReadNarrative(rsp).None? || DecodeAction(ReadNarrative(rsp).value.act).None?
    ensures c.Command? ==> ReadNarrative(rsp) == Some(c.narrative) && DecodeAction(c.narrative.act) == Some(c.action)
  {
    match ReadNarrative(rsp)
    case None => Error
    case Some(n) =>
      match DecodeAction(n.act)
      case None => Error
      case Some(a) => Command(a, n)
  }

  /** The Python list a command is returned as. */
  function AsList(c: Command): (r: seq<Item>)
    ensures c.Error? <==> r == [Str(ErrorTag)]
    ensures c.Command? ==> |r| >= 5 && r[0] == Str(Name(c.action))
  {
    match c
    case Error => [Str(ErrorTag)]
    case Command(a, Narrative(observation, think, act, lastAct)) =>
      match a
      case Finish => [Str(FinishKeyword), Str(observation), Str(think), Str(act), Str(lastAct)]
      case Tap(area) => [Str("tap"), Int(area), Str(lastAct), Str(observation), Str(think), Str(act)]
      case TypeText(input) => [Str("text"), Str(input), Str(lastAct), Str(observation), Str(think), Str(act)]
      case LongPress(area) => [Str("long_press"), Int(area), Str(lastAct), Str(observation), Str(think), Str(act)]
      case Swipe(area, direction, distance) =>
        [Str("swipe"), Int(area), Str(direction), Str(distance), Str(lastAct), Str(observation), Str(think), Str(act)]
      case Grid => [Str("grid"), Str(observation), Str(think), Str(act), Str(lastAct)]
  }

  /** `parse_explore_rsp(rsp)`. */
  function ParseExploreRsp(rsp: string): (r: seq<Item>)
    ensures r == [Str(ErrorTag)] <==> Decode(rsp).Error?
    ensures !(Occurs(rsp, ObservationLabel) && Occurs(rsp, ThoughtLabel) && Occurs(rsp, ActionLabel)) ==>
              r == [Str(ErrorTag)]
    ensures ReadNarrative(rsp).Some? && Contains(ReadNarrative(rsp).value.act, FinishKeyword) ==>
              var n := ReadNarrative(rsp).value;
              r == [Str(FinishKeyword), Str(n.observation), Str(n.think), Str(n.act), Str(n.lastAct)]
    ensures Decode(rsp).Command? ==> |r| >= 5 && r[0] == Str(Name(Decode(rsp).action))
  {
    AsList(Decode(rsp))
  }

  /** Different commands give different lists: the list shapes can be told
      apart by their first element and their length. */
  lemma AsListInjective(c: Command, d: Command)
    requires AsList(c) == AsList(d)
    ensures c == d
  {
    var l := AsList(c);
    if c.Command? && d.Command? {
      assert l[0] == Str(Name(c.action)) && l[0] == Str(Name(d.action));
    }
  }

  // ---------------------------------------------------------------------------
  // Actions written the way the exploration prompt asks for them

  /** The action text a model writes for `a`. */
  function RenderAction(a: Action): string {
    match a
    case Finish => FinishKeyword
    case Tap(area) => Call("tap", IntToString(area))
    case TypeText(input) => Call("text", Quote(input))
    case LongPress(area) => Call("long_press", IntToString(area))
    case Swipe(area, direction, distance) =>
      Call("swipe", SwipeArgs(area, direction, distance))
    case Grid => Call("grid", "")
  }

  ghost predicate WellFormed(a: Action) {
    match a
    case TypeText(input) => IsOperand(input)
    case Swipe(_, direction, distance) =>
      IsOperand(direction) && IsOperand(distance) && ',' !in direction && ',' !in distance
    case _ => true
  }

  /** Decoding the text written for a well-formed action gives the action back. */
  lemma DecodeActionRoundTrip(a: Action)
    requires WellFormed(a)
    ensures DecodeAction(RenderAction(a)) == Some(a)
  {
    var act := RenderAction(a);
    match a
    case Finish =>
      assert OccursAt(act, FinishKeyword, 0);
    case Tap(area) =>
      AreaCall("tap", area);
    case LongPress(area) =>
      AreaCall("long_press", area);
    case TypeText(input) =>
      TextCall(input);
    case Swipe(area, direction, distance) =>
      SwipeCall(area, direction, distance);
    case Grid =>
      GridCall();
  }

  /** `text("input")` is read back as its input. */
  lemma TextCall(input: string)
    requires IsOperand(input)
    ensures !Contains(Call("text", Quote(input)), FinishKeyword)
    ensures ActionName(Call("text", Quote(input))) == "text"
    ensures CallArgs("text", Call("text", Quote(input))) == Some(Quote(input))
    ensures Inner(Quote(input)) == input
    ensures DecodeAction(Call("text", Quote(input))) == Some(TypeText(input))
  {
    var act := Call("text", Quote(input));
    assert !Contains(act, FinishKeyword) && ActionName(act) == "text" && CallArgs("text", act) == Some(Quote(input)) by {
      QuoteFree(input, FinishKeyword);
      CallWith("text", Quote(input));
    }
    assert Inner(Quote(input)) == input;
    Decoded(act, TypeText(input));
  }

  /** `grid()` is read back as the grid switch. */
  lemma GridCall()
    ensures !Contains(Call("grid", ""), FinishKeyword)
    ensures ActionName(Call("grid", "")) == "grid"
    ensures DecodeAction(Call("grid", "")) == Some(Grid)
  {
    assert !Contains(Call("grid", ""), FinishKeyword) && ActionName(Call("grid", "")) == "grid" by {
      NoSharedChars("", FinishKeyword);
      CallWith("grid", "");
    }
    Decoded(Call("grid", ""), Grid);
  }

  /** `name(n)` is read back as its integer operand. */
  lemma AreaCall(name: string, area: int)
    requires name == "tap" || name == "long_press"
    ensures !Contains(Call(name, IntToString(area)), FinishKeyword)
    ensures ActionName(Call(name, IntToString(area))) == name
    ensures AreaOperand(name, Call(name, IntToString(area))) == Some(area)
    ensures DecodeAction(Call(name, IntToString(area))) == Some(if name == "tap" then Tap(area) else LongPress(area))
  {
    var digits := IntToString(area);
    assert '(' !in name && IsStripped(name) && forall k :: 0 <= k < |name| ==> name[k] !in FinishKeyword;
    assert IsOperand(digits) by {
      IntArgument(area);
    }
    assert PyInt(digits) == Some(area) by {
      PyIntRoundTrip(area);
    }
    CallWith(name, digits);
    Decoded(Call(name, digits), if name == "tap" then Tap(area) else LongPress(area));
  }

  /** The argument text of a `swipe` call. */
  function SwipeArgs(area: int, direction: string, distance: string): string {
    Join([IntToString(area), " " + Quote(direction), " " + Quote(distance)], ',')
  }

  /** The argument text of a well-formed `swipe` stays inside its call and
      does not mention `FINISH`. */
  lemma SwipeArgsFree(area: int, direction: string, distance: string)
    requires IsOperand(direction) && IsOperand(distance)
    ensures ')' !in SwipeArgs(area, direction, distance) && '\n' !in SwipeArgs(area, direction, distance)
    ensures !Occurs(SwipeArgs(area, direction, distance), FinishKeyword)
  {
    var digits := IntToString(area);
    var head := digits + [','] + " \"";
    var mid := "\", \"";
    var args := SwipeArgs(area, direction, distance);
    assert args == head + direction + (mid + distance + "\"") by {
      var d := " " + Quote(direction);
      var e := " " + Quote(distance);
      assert [digits, d, e][1..] == [d, e];
      assert [d, e][1..] == [e];
      assert Join([e], ',') == e;
      assert Join([d, e], ',') == d + [','] + e;
      assert args == digits + [','] + (d + [','] + e);
    }
    NoSharedChars(head, FinishKeyword);
    NoSharedChars(mid, FinishKeyword);
    NoSharedChars("\"", FinishKeyword);
    NotOccurs3(mid, distance, "\"", FinishKeyword);
    NotOccurs3(head, direction, mid + distance + "\"", FinishKeyword);
  }

  /** `swipe(n, "direction", "distance")` is read back as its three operands. */
  lemma SwipeCall(area: int, direction: string, distance: string)
    requires IsOperand(direction) && IsOperand(distance)
    requires ',' !in direction && ',' !in distance
    ensures !Contains(RenderAction(Swipe(area, direction, distance)), FinishKeyword)
    ensures ActionName(RenderAction(Swipe(area, direction, distance))) == "swipe"
    ensures SwipeOperands(RenderAction(Swipe(area, direction, distance))) == Some(Swipe(area, direction, distance))
    ensures DecodeAction(RenderAction(Swipe(area, direction, distance))) == Some(Swipe(area, direction, distance))
  {
    var act := RenderAction(Swipe(area, direction, distance));
    var args := SwipeArgs(area, direction, distance);
    assert !Contains(act, FinishKeyword) && ActionName(act) == "swipe" && CallArgs("swipe", act) == Some(args) by {
      SwipeArgsFree(area, direction, distance);
      CallWith("swipe", args);
    }
    assert SwipeOperands(act) == Some(Swipe(area, direction, distance)) by {
      SwipeSplit(area, direction, distance);
      SwipeOperandsOf(act, args, Swipe(area, direction, distance));
    }
    Decoded(act, Swipe(area, direction, distance));
  }

  /** An action text without `FINISH` that names `a`'s call and carries
      `a`'s operands decodes to `a`. */
  lemma Decoded(act: string, a: Action)
    requires !a.Finish? && !Contains(act, FinishKeyword) && ActionName(act) == Name(a)
    requires a.Tap? || a.LongPress? ==> AreaOperand(Name(a), act) == Some(a.area)
    requires a.TypeText? ==> CallArgs("text", act).Some? && Inner(CallArgs("text", act).value) == a.input
    requires a.Swipe? ==> SwipeOperands(act) == Some(a)
    ensures DecodeAction(act) == Some(a)
  {
  }

  /** A swipe whose argument text splits into its three operands is read
      as that swipe. */
  lemma SwipeOperandsOf(act: string, args: string, a: Action)
    requires a.Swipe? && CallArgs("swipe", act) == Some(args)
    requires var parts := Split(args, ',');
      && |parts| == 3 && PyInt(parts[0]) == Some(a.area)
      && Inner(Strip(parts[1])) == a.direction && Inner(Strip(parts[2])) == a.distance
    ensures SwipeOperands(act) == Some(a)
  {
  }

  /** The operands of a `swipe` are recovered from its argument text. */
  lemma SwipeSplit(area: int, direction: string, distance: string)
    requires ',' !in direction && ',' !in distance
    ensures var parts := Split(SwipeArgs(area, direction, distance), ',');
      && |parts| == 3 && PyInt(parts[0]) == Some(area)
      && Inner(Strip(parts[1])) == direction && Inner(Strip(parts[2])) == distance
  {
    var parts := [IntToString(area), " " + Quote(direction), " " + Quote(distance)];
    SplitJoin(parts, ',');
    PyIntRoundTrip(area);
    QuoteRead(direction);
    QuoteRead(distance);
  }

  /** Reading a response written with label-free narrative lines and a
      well-formed action gives back the action and the narrative. */
  lemma ExploreRoundTrip(a: Action, n: Narrative)
    requires WellFormed(a) && n.act == RenderAction(a)
    requires IsFieldText(n.observation) && IsFieldText(n.think)
    requires IsFieldText(n.act) && IsFieldText(n.lastAct)
    ensures Decode(RenderNarrative(n)) == Command(a, n)
    ensures ParseExploreRsp(RenderNarrative(n)) == AsList(Command(a, n))
  {
    ReadNarrativeRoundTrip(n);
    DecodeActionRoundTrip(a);
  }
}
