/**
 * Whole-script runs of `execute`: two worked scripts, and the reuse of one machine for several
 * scripts in a row.
 */
module Scenarios {
  import opened Wrappers
  import opened Numeric
  import opened JsText
  import opened Script
  import opened Machine
  import opened MachineFacts

  /** 5 < 3 is 0, so CONTINUETRUE discontinues: success with result 1, in any context. */
  lemma DiscontinueExample(ctx: Context, now: int)
    ensures ExecuteSpec("5 3 LESSTHAN CONTINUETRUE", ctx, now) == ExecResult(Val(Num(1.0)), DiscontinuedText, true)
  {
    var t := ["5", "3", "LESSTHAN", "CONTINUETRUE"];
    DiscontinueTokens();
    DiscontinueRun(t, ctx, now);
  }

  lemma DiscontinueTokens()
    ensures ParseScript("5 3 LESSTHAN CONTINUETRUE") == ["5", "3", "LESSTHAN", "CONTINUETRUE"]
  {
    assert "5 3 LESSTHAN CONTINUETRUE" == "5" + " " + ("3" + " " + ("LESSTHAN" + " " + "CONTINUETRUE"));
    SplitFourWords("5", "3", "LESSTHAN", "CONTINUETRUE");
  }

  lemma DiscontinueRun(t: seq<string>, ctx: Context, now: int)
    requires t == ["5", "3", "LESSTHAN", "CONTINUETRUE"]
    ensures Run([], t, ctx, now).status == Stopped
  {
    var s1: seq<Value> := [Num(5.0)];
    var s2: seq<Value> := [Num(5.0), Num(3.0)];
    var s3: seq<Value> := [Num(0.0)];
    DiscontinueLiterals(ctx, now);
    CompareStep(ctx, now);
    HaltStep(ctx, now);
    RunFromCons([], t, ctx, now, None);
    RunFromCons(s1, t[1..], ctx, now, Some(ReturnedTrue));
    assert t[1..][1..] == t[2..];
    RunFromCons(s2, t[2..], ctx, now, Some(ReturnedTrue));
    assert t[2..][1..] == t[3..];
    RunFromCons(s3, t[3..], ctx, now, Some(ReturnedTrue));
  }

  lemma DiscontinueLiterals(ctx: Context, now: int)
    ensures Step([], "5", ctx, now) == Effect(ReturnedTrue, [Num(5.0)], false)
    ensures Step([Num(5.0)], "3", ctx, now) == Effect(ReturnedTrue, [Num(5.0), Num(3.0)], false)
  {
    Round6Integer(5);
    Round6Integer(3);
    assert ParseNumber("5") == Some(5.0);
    assert ParseNumber("3") == Some(3.0);
    var empty: seq<Value> := [];
    NumberLiteralShape(empty, "5", ctx, now);
    assert empty + [Num(5.0)] == [Num(5.0)];
    NumberLiteralShape([Num(5.0)], "3", ctx, now);
  }

  lemma CompareStep(ctx: Context, now: int)
    ensures Step([Num(5.0), Num(3.0)], "LESSTHAN", ctx, now) == Effect(ReturnedTrue, [Num(0.0)], false)
  {
    var s2: seq<Value> := [Num(5.0), Num(3.0)];
    BinaryShape(LessThan, s2, ctx, now);
    BinaryResults(LessThan, 5.0, 3.0);
    var e := Step(s2, Mnemonic(LessThan), ctx, now);
    assert e.stack[..|e.stack| - 1] == s2[2..] == [];
  }

  lemma HaltStep(ctx: Context, now: int)
    ensures Step([Num(0.0)], "CONTINUETRUE", ctx, now).halt
  {
    ContinueTrueShape([Num(0.0)], ctx, now);
  }

  /** 1.123456789 + 2, rounded to 6 decimals, is 3.123457. */
  lemma AddExample(ctx: Context, now: int)
    ensures ExecuteSpec("1.123456789 2 ADD", ctx, now) == ExecResult(Val(Num(3.123457)), SuccessText, true)
  {
    var t := ["1.123456789", "2", "ADD"];
    AddTokens();
    AddRun(t, ctx, now);
  }

  lemma AddTokens()
    ensures ParseScript("1.123456789 2 ADD") == ["1.123456789", "2", "ADD"]
  {
    assert "1.123456789 2 ADD" == "1.123456789" + " " + ("2" + " " + "ADD");
    SplitThreeWords("1.123456789", "2", "ADD");
  }

  lemma DigitsSnoc(s: string, c: char)
    requires AllDigits(s) && IsDigit(c)
    ensures AllDigits(s + [c]) && DigitsValue(s + [c]) == DigitsValue(s) * 10 + ((c as int) - ('0' as int))
  {
    assert (s + [c])[..|s|] == s;
  }

  lemma NineDigits()
    ensures AllDigits("123456789") && DigitsValue("123456789") == 123456789
  {
    var d1 := "1";
    assert d1[..0] == [];
    var d2 := d1 + ['2'];
    DigitsSnoc(d1, '2');
    var d3 := d2 + ['3'];
    DigitsSnoc(d2, '3');
    var d4 := d3 + ['4'];
    DigitsSnoc(d3, '4');
    var d5 := d4 + ['5'];
    DigitsSnoc(d4, '5');
    var d6 := d5 + ['6'];
    DigitsSnoc(d5, '6');
    var d7 := d6 + ['7'];
    DigitsSnoc(d6, '7');
    var d8 := d7 + ['8'];
    DigitsSnoc(d7, '8');
    var d9 := d8 + ['9'];
    DigitsSnoc(d8, '9');
    assert d9 == "123456789";
  }

  lemma ReadOneNumeral()
    ensures ParseNumber("1.123456789") == Some(1.123456789)
  {
    var s := "1.123456789";
    assert DotIndex(s) == Some(1);
    assert s[..1] == "1" && s[2..] == "123456789";
    NineDigits();
    assert DigitsValue("1") == 1 by {
      assert "1"[..0] == [];
    }
    assert Pow10(9) == 1000000000;
  }

  lemma AddRun(t: seq<string>, ctx: Context, now: int)
    requires t == ["1.123456789", "2", "ADD"]
    ensures Run([], t, ctx, now) == Outcome([Num(3.123457)], Finished(Some(ReturnedTrue)))
  {
    var s1: seq<Value> := [Num(1.123457)];
    var s2: seq<Value> := [Num(1.123457), Num(2.0)];
    AddLiterals(ctx, now);
    AddOpcode(ctx, now);
    RunFromCons([], t, ctx, now, None);
    RunFromCons(s1, t[1..], ctx, now, Some(ReturnedTrue));
    assert t[1..][1..] == t[2..];
    RunFromCons(s2, t[2..], ctx, now, Some(ReturnedTrue));
    assert t[2..][1..] == [];
  }

  lemma AddLiterals(ctx: Context, now: int)
    ensures Step([], "1.123456789", ctx, now) == Effect(ReturnedTrue, [Num(1.123457)], false)
    ensures Step([Num(1.123457)], "2", ctx, now) == Effect(ReturnedTrue, [Num(1.123457), Num(2.0)], false)
  {
    ReadOneNumeral();
    assert Round6(1.123456789) == 1.123457 by {
      assert (1.123456789 * Scale + 0.5).Floor == 1123457;
    }
    Round6Integer(2);
    assert ParseNumber("2") == Some(2.0);
    var empty: seq<Value> := [];
    var t0, t1 := "1.123456789", "2";
    assert OpcodeOf(t0).None? && t0[0] == '1';
    NumberLiteralShape(empty, t0, ctx, now);
    assert empty + [Num(1.123457)] == [Num(1.123457)];
    assert OpcodeOf(t1).None? && t1[0] == '2';
    NumberLiteralShape([Num(1.123457)], t1, ctx, now);
  }

  lemma AddOpcode(ctx: Context, now: int)
    ensures Step([Num(1.123457), Num(2.0)], "ADD", ctx, now) == Effect(ReturnedTrue, [Num(3.123457)], false)
  {
    var s2: seq<Value> := [Num(1.123457), Num(2.0)];
    assert Round6(1.123457 + 2.0) == 3.123457 by {
      assert ((1.123457 + 2.0) * Scale + 0.5).Floor == 3123457;
    }
    BinaryShape(Add, s2, ctx, now);
    var e := Step(s2, Mnemonic(Add), ctx, now);
    assert e.stack[..|e.stack| - 1] == s2[2..] == [];
    assert e.stack == [Num(3.123457)];
  }

  /**
   * One machine serves script after script: each call of `execute` leaves the stack empty and
   * the flag down, so the second run does not see anything of the first.
   */
  method ExecuteTwice(vm: Vm, first: string, second: string, ctx: Context, now: int)
    returns (r1: ExecResult, r2: ExecResult)
    requires vm.Idle()
    modifies vm
    ensures vm.Idle()
    ensures r1 == ExecuteSpec(first, ctx, now) && r2 == ExecuteSpec(second, ctx, now)
  {
    r1 := vm.Execute(first, ctx, now);
    r2 := vm.Execute(second, ctx, now);
  }
}
