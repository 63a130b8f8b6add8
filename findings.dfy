/**
 * `execute` as written reads `ret.error` on whatever `evaluate` returned. When the last token is
 * a byte literal, that step returns `undefined`, so `execute` throws instead of reporting. The
 * rest of the model uses `Machine.ExecuteSpec`, which reports such a run as a success.
 */
module Findings {
  import opened Wrappers
  import opened Numeric
  import opened Buffers
  import opened JsText
  import Util
  import opened Script
  import opened Machine
  import opened MachineFacts

  /** A run that steps at least once finishes with the last step's return value, never without one. */
  lemma {:induction false} RunHasLastReturn(stack: seq<Value>, tokens: seq<string>, ctx: Context, now: int, last: Option<Ret>)
    requires tokens != [] || last.Some?
    ensures RunFrom(stack, tokens, ctx, now, last).status != Finished(None)
    decreases |tokens|
  {
    if tokens != [] {
      var e := Step(stack, tokens[0], ctx, now);
      if !e.halt && e.ret != ReturnedFalse {
        RunHasLastReturn(e.stack, tokens[1..], ctx, now, Some(e.ret));
      }
    }
  }

  /** `execute` as written; `None` stands for the exception thrown by `ret.error` on `undefined`. */
  function ExecuteAsWritten(script: string, ctx: Context, now: int): (r: Option<ExecResult>)
    ensures r.Some? ==> r.value == ExecuteSpec(script, ctx, now)
    ensures r.None? <==>
              ' ' in script && Run([], ParseScript(script), ctx, now).status == Finished(Some(ReturnedNothing))
  {
    SplitCount(script);
    SpacesZero(script);
    if script == "" then Some(ExecResult(Rejected, EmptyText, false))
    else
      var tokens := ParseScript(script);
      if |tokens| <= 1 then Some(ExecResult(Rejected, TooFewText, false))
      else
        var o := Run([], tokens, ctx, now);
        RunHasLastReturn([], tokens, ctx, now, None);
        if o.status.Stopped? then Some(ExecResult(Val(Num(1.0)), DiscontinuedText, true))
        else
          match EvalReturnOf(o)
          case ErrorRecord(e) => Some(ExecResult(ErrorObject(e), e, false))
          case LastReturn(ret) =>
            if ret == Some(ReturnedNothing) || ret.None? then None
            else Some(ExecResult(if |o.stack| > 0 then Val(o.stack[0]) else Undefined, SuccessText, true))
  }

  lemma LiteralTokens()
    ensures ParseScript("1 HEX:61") == ["1", "HEX:61"]
  {
    var t := ["1", "HEX:61"];
    JoinCons(t[0], t[1..]);
    assert Join(t) == "1 HEX:61";
    SplitJoin(t);
  }

  lemma MarkedByte()
    ensures Util.HexDecode("HEX:61") == [0x61]
  {
    assert Util.Marker + "61" == "HEX:61";
    Util.HexDecodeMarked("61");
    assert FromHex("61") == [6 * 16 + 1] + FromHex("");
  }

  lemma LiteralRun(t: seq<string>, ctx: Context, now: int)
    requires t == ["1", "HEX:61"]
    ensures Run([], t, ctx, now) == Outcome([Num(1.0), Bytes([0x61])], Finished(Some(ReturnedNothing)))
  {
    LeadingOne(ctx, now);
    RunFromCons([], t, ctx, now, None);
    MarkedByte();
    assert OpcodeOf(t[1]).None? && StartsWith(t[1], Util.Marker);
    ByteLiteralContinues([Num(1.0)], t[1], [], ctx, now, Some(ReturnedTrue));
    assert t[1..] == [t[1]] + [];
  }

  lemma LeadingOne(ctx: Context, now: int)
    ensures Step([], "1", ctx, now) == Effect(ReturnedTrue, [Num(1.0)], false)
  {
    Round6Integer(1);
    assert ParseNumber("1") == Some(1.0);
    var empty: seq<Value> := [];
    NumberLiteralShape(empty, "1", ctx, now);
    assert empty + [Num(1.0)] == [Num(1.0)];
  }

  /**
   * The stack the throw leaves behind: on `[1, bytes]`, the script `2 3 ADD` finds a Buffer in
   * entry 1 and fails at ADD (`FreshAddRun` gives the same script on a fresh stack).
   */
  lemma LeftoverRun(t: seq<string>, ctx: Context, now: int)
    requires t == ["2", "3", "ADD"]
    ensures Run([Num(1.0), Bytes([0x61])], t, ctx, now) ==
              Outcome([Num(1.0), Bytes([0x61]), Num(2.0), Num(3.0)], Failed("ADD"))
  {
    LeftoverSteps(ctx, now);
    RunFromCons([Num(1.0), Bytes([0x61])], t, ctx, now, None);
    RunFromCons([Num(1.0), Bytes([0x61]), Num(2.0)], t[1..], ctx, now, Some(ReturnedTrue));
    assert t[1..][1..] == t[2..];
    RunFromCons([Num(1.0), Bytes([0x61]), Num(2.0), Num(3.0)], t[2..], ctx, now, Some(ReturnedTrue));
  }

  lemma LeftoverSteps(ctx: Context, now: int)
    ensures Step([Num(1.0), Bytes([0x61])], "2", ctx, now) ==
              Effect(ReturnedTrue, [Num(1.0), Bytes([0x61]), Num(2.0)], false)
    ensures Step([Num(1.0), Bytes([0x61]), Num(2.0)], "3", ctx, now) ==
              Effect(ReturnedTrue, [Num(1.0), Bytes([0x61]), Num(2.0), Num(3.0)], false)
    ensures Step([Num(1.0), Bytes([0x61]), Num(2.0), Num(3.0)], "ADD", ctx, now) ==
              Effect(ReturnedFalse, [Num(1.0), Bytes([0x61]), Num(2.0), Num(3.0)], false)
  {
    NumeralStep([Num(1.0), Bytes([0x61])], "2", 2, ctx, now);
    NumeralStep([Num(1.0), Bytes([0x61]), Num(2.0)], "3", 3, ctx, now);
    StepOpcode(Add, [Num(1.0), Bytes([0x61]), Num(2.0), Num(3.0)], ctx, now);
  }

  /** On a fresh stack, `2 3 ADD` finishes with 5. */
  lemma FreshAddRun(t: seq<string>, ctx: Context, now: int)
    requires t == ["2", "3", "ADD"]
    ensures Run([], t, ctx, now) == Outcome([Num(5.0)], Finished(Some(ReturnedTrue)))
  {
    FreshSteps(ctx, now);
    RunFromCons([], t, ctx, now, None);
    RunFromCons([Num(2.0)], t[1..], ctx, now, Some(ReturnedTrue));
    assert t[1..][1..] == t[2..];
    RunFromCons([Num(2.0), Num(3.0)], t[2..], ctx, now, Some(ReturnedTrue));
    assert t[2..][1..] == [];
  }

  lemma FreshSteps(ctx: Context, now: int)
    ensures Step([], "2", ctx, now) == Effect(ReturnedTrue, [Num(2.0)], false)
    ensures Step([Num(2.0)], "3", ctx, now) == Effect(ReturnedTrue, [Num(2.0), Num(3.0)], false)
    ensures Step([Num(2.0), Num(3.0)], "ADD", ctx, now) == Effect(ReturnedTrue, [Num(5.0)], false)
  {
    var empty: seq<Value> := [];
    NumeralStep(empty, "2", 2, ctx, now);
    assert empty + [Num(2.0)] == [Num(2.0)];
    NumeralStep([Num(2.0)], "3", 3, ctx, now);
    BinaryShape(Add, [Num(2.0), Num(3.0)], ctx, now);
    Round6Integer(5);
  }

  /** A one-digit token pushes its value. */
  lemma NumeralStep(stack: seq<Value>, token: string, d: nat, ctx: Context, now: int)
    requires d < 10 && token == [('0' as int + d) as char]
    ensures Step(stack, token, ctx, now) == Effect(ReturnedTrue, stack + [Num(d as real)], false)
  {
    ParseDigits(token);
    assert DigitsValue(token) == d by {
      assert token[..0] == [];
    }
    Round6Integer(d);
    assert OpcodeOf(token).None?;
    NumberLiteralShape(stack, token, ctx, now);
  }

  /** "1 HEX:61" makes `execute` as written throw; the model reports success with result 1. */
  lemma LastByteLiteralThrows(ctx: Context, now: int)
    ensures ExecuteAsWritten("1 HEX:61", ctx, now).None?
    ensures ExecuteSpec("1 HEX:61", ctx, now) == ExecResult(Val(Num(1.0)), SuccessText, true)
  {
    LiteralTokens();
    LiteralRun(["1", "HEX:61"], ctx, now);
  }
}
