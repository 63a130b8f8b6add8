/**
 * The Forge stack machine (`lib/script.js`): the per-token dispatcher `pushToStack`, the
 * token loop `evaluate` and the entry point `execute`.
 *
 * The specification is given by pure functions: `Step` (one token), `Run` (a token list) and
 * `ExecuteSpec` (a whole script). The class `Vm` holds the state the source keeps in module
 * globals, the stack and the `discontinue` flag, and its methods are proved to follow the
 * specification functions.
 *
 * The stack is not a plain LIFO stack: binary operators read entries 0 and 1 (the oldest),
 * then push their result and shift twice, so the result lands at the tail; ISNAMEUSED reads
 * and removes the front; DUP, CONTINUETRUE and GETITEMEPOCH work on the tail.
 */
module Machine {
  import opened Wrappers
  import opened Numeric
  import opened Buffers
  import opened JsText
  import Util
  import opened Script

  /**
   * A stack entry. `Num` is a JavaScript number; `NonFinite` is the NaN or infinity a division
   * by zero yields; `Bytes` is a Node Buffer; `Str` is a transaction id string.
   */
  datatype Value = Num(n: real) | NonFinite | Bytes(data: seq<byte>) | Str(s: string)

  /** A signed item of the registry, as far as the opcodes look at it. */
  datatype Item = Item(tx: string, strName: string, timestamp: Option<int>, validation: Option<string>)

  /** `contextualData.this`: the item whose contract is being validated. */
  datatype Current = Current(timestamp: Option<int>, strTx: string)

  /** `contextualData`: `bestBlock` is `None` when absent or not a number. */
  datatype Context = Context(bestBlock: Option<int>, signedItems: seq<Item>, current: Current)

  /** What `pushToStack` returns: `true`, `false`, or nothing at all (the byte-literal branch). */
  datatype Ret = ReturnedTrue | ReturnedFalse | ReturnedNothing

  /** The effect of one token: the return value, the new stack, and whether `discontinue` was raised. */
  datatype Effect = Effect(ret: Ret, stack: seq<Value>, halt: bool)

  /** A refused token: `false`, nothing changed. */
  function Refuse(stack: seq<Value>): Effect {
    Effect(ReturnedFalse, stack, false)
  }

  /** The two oldest entries exist and are numbers (the source's pair of `isNaN` checks). */
  predicate NumericPair(stack: seq<Value>) {
    |stack| >= 2 && stack[0].Num? && stack[1].Num?
  }

  predicate IsBinaryNumeric(op: Opcode) {
    op == Add || op == Sub || op == Mul || op == Div || op == LessThan || op == GreaterThan
  }

  function Bool(b: bool): Value { Num(if b then 1.0 else 0.0) }

  /** The result a binary numeric opcode computes from entry 0 (`a`) and entry 1 (`b`). */
  function Binary(op: Opcode, a: real, b: real): Value
    requires IsBinaryNumeric(op)
  {
    match op
    case Add => Num(Round6(a + b))
    case Sub => Num(Round6(a - b))
    case Mul => Num(Round6(a * b))
    case Div => if b == 0.0 then NonFinite else Num(Round6(a / b))
    case LessThan => Bool(a < b)
    case GreaterThan => Bool(a > b)
  }

  /**
   * `stack[0] === stack[1]`, with `None` for a missing entry (`undefined`). Two byte strings on
   * the stack are always distinct Buffer objects (literals allocate, DUP deep-clones), so they
   * are never identical; NaN is not identical to anything.
   */
  function StrictEquals(a: Option<Value>, b: Option<Value>): bool {
    match (a, b)
    case (None, None) => true
    case (Some(Num(x)), Some(Num(y))) => x == y
    case (Some(Str(s)), Some(Str(t))) => s == t
    case _ => false
  }

  function Entry(stack: seq<Value>, i: nat): Option<Value> {
    if i < |stack| then Some(stack[i]) else None
  }

  /** The epoch CHAINEPOCH pushes: this item's timestamp, or `now` when it is absent, NaN or -1. */
  function ChainEpochOf(ctx: Context, now: int): int {
    match ctx.current.timestamp
    case None => now
    case Some(t) => if t == -1 then now else t
  }

  /**
   * An item that claims `name` for ISNAMEUSED: not this item, with a non-empty validation script
   * that conforms to ZFI-1 (stated by its shape, which `Script.Zfi1Shape` proves equivalent), and
   * whose name's UTF-8 bytes are `name`.
   */
  predicate ClaimsName(item: Item, strTx: string, name: seq<byte>) {
    && item.tx != strTx
    && item.validation.Some? && item.validation.value != ""
    && HasZfi1Shape(ParseScript(item.validation.value))
    && Utf8(item.strName) == name
  }

  /** Index of the first item claiming `name`. */
  function FirstClaim(items: seq<Item>, strTx: string, name: seq<byte>): (r: Option<nat>)
    ensures r.Some? ==> r.value < |items| && ClaimsName(items[r.value], strTx, name) &&
                        forall j :: 0 <= j < r.value ==> !ClaimsName(items[j], strTx, name)
    ensures r.None? ==> forall j :: 0 <= j < |items| ==> !ClaimsName(items[j], strTx, name)
    decreases |items|
  {
    if items == [] then None
    else if ClaimsName(items[0], strTx, name) then Some(0)
    else match FirstClaim(items[1..], strTx, name)
      case Some(k) => Some(k + 1)
      case None => None
  }

  /** Index of the first item whose transaction id is `tx`. */
  function FirstWithTx(items: seq<Item>, tx: string): (r: Option<nat>)
    ensures r.Some? ==> r.value < |items| && items[r.value].tx == tx &&
                        forall j :: 0 <= j < r.value ==> items[j].tx != tx
    ensures r.None? ==> forall j :: 0 <= j < |items| ==> items[j].tx != tx
    decreases |items|
  {
    if items == [] then None
    else if items[0].tx == tx then Some(0)
    else match FirstWithTx(items[1..], tx)
      case Some(k) => Some(k + 1)
      case None => None
  }

  /** The tail is a 64-character string, as GETITEMEPOCH demands. */
  predicate TxAtTail(stack: seq<Value>) {
    |stack| > 0 && stack[|stack| - 1].Str? && |stack[|stack| - 1].s| == 64
  }

  /** The front is a non-empty byte string, as ISNAMEUSED demands. */
  predicate NameAtFront(stack: seq<Value>) {
    |stack| > 0 && stack[0].Bytes? && |stack[0].data| >= 1
  }

  /** ADD, SUB, MUL, DIV, LESSTHAN, GREATERTHAN. */
  function BinaryStep(op: Opcode, stack: seq<Value>): Effect
    requires IsBinaryNumeric(op)
  {
    if !NumericPair(stack) then Refuse(stack)
    else Effect(ReturnedTrue, stack[2..] + [Binary(op, stack[0].n, stack[1].n)], false)
  }

  /** ISNAMEUSED */
  function NameStep(stack: seq<Value>, ctx: Context): Effect {
    if !NameAtFront(stack) then Refuse(stack)
    else
      match FirstClaim(ctx.signedItems, ctx.current.strTx, stack[0].data)
      case None => Effect(ReturnedTrue, stack[1..] + [Num(0.0)], false)
      case Some(i) => Effect(ReturnedTrue, stack[1..] + [Str(ctx.signedItems[i].tx), Num(1.0)], false)
  }

  /** GETITEMEPOCH */
  function ItemEpochStep(stack: seq<Value>, ctx: Context): Effect {
    if !TxAtTail(stack) then Refuse(stack)
    else
      match FirstWithTx(ctx.signedItems, stack[|stack| - 1].s)
      case None => Refuse(stack)
      case Some(i) =>
        match ctx.signedItems[i].timestamp
        case None => Refuse(stack)
        case Some(t) =>
          if t == 0 then Refuse(stack)
          else Effect(ReturnedTrue, stack[..|stack| - 1] + [Num(t as real)], false)
  }

  /** One opcode. */
  function OpStep(op: Opcode, stack: seq<Value>, ctx: Context, now: int): Effect {
    match op
    case Add | Sub | Mul | Div | LessThan | GreaterThan => BinaryStep(op, stack)
    case Dup =>
      if |stack| == 0 then Refuse(stack)
      else Effect(ReturnedTrue, stack + [stack[|stack| - 1]], false)
    case Equal =>
      var v := Bool(StrictEquals(Entry(stack, 0), Entry(stack, 1)));
      Effect(ReturnedTrue, if |stack| >= 2 then stack[2..] + [v] else [], false)
    case ContinueTrue =>
      if |stack| == 0 then Refuse(stack)
      else if stack[|stack| - 1] != Num(1.0) then Effect(ReturnedTrue, stack, true)
      else Effect(ReturnedTrue, stack[..|stack| - 1], false)
    case Epoch =>
      Effect(ReturnedTrue, stack + [Num(now as real)], false)
    case ChainEpoch =>
      var e := ChainEpochOf(ctx, now);
      if e < 0 then Refuse(stack) else Effect(ReturnedTrue, stack + [Num(e as real)], false)
    case GetBestBlk =>
      (match ctx.bestBlock
       case None => Refuse(stack)
       case Some(b) => Effect(ReturnedTrue, stack + [Num(b as real)], false))
    case IsNameUsed => NameStep(stack, ctx)
    case GetItemEpoch => ItemEpochStep(stack, ctx)
  }

  /** A token read as a native number: numeric and not hex-marked. */
  predicate IsNumberLiteral(token: string) {
    IsNumeral(token) && !StartsWith(token, Util.Marker)
  }

  /** A token that names no opcode: a native number, or else a byte string. */
  function LiteralStep(stack: seq<Value>, token: string): Effect {
    if IsNumberLiteral(token) then
      Effect(ReturnedTrue, stack + [Num(Round6(ParseNumber(token).value))], false)
    else if StartsWith(token, Util.Marker) || |token| > 0 then
      var bytes := Util.HexDecode(token);
      if |bytes| < 1 then Refuse(stack) else Effect(ReturnedNothing, stack + [Bytes(bytes)], false)
    else Refuse(stack)
  }

  /** `pushToStack(token)`: opcodes first, then native literals. */
  function Step(stack: seq<Value>, token: string, ctx: Context, now: int): Effect {
    match OpcodeOf(token)
    case Some(op) => OpStep(op, stack, ctx, now)
    case None => LiteralStep(stack, token)
  }

  /** An opcode's mnemonic runs that opcode. */
  lemma StepOpcode(op: Opcode, stack: seq<Value>, ctx: Context, now: int)
    ensures Step(stack, Mnemonic(op), ctx, now) == OpStep(op, stack, ctx, now)
  {
    OpcodeOfMnemonic(op);
  }

  /** How a token list ended: ran out of tokens (with the last step's return), discontinued, or refused. */
  datatype Status = Finished(last: Option<Ret>) | Stopped | Failed(token: string)

  datatype Outcome = Outcome(stack: seq<Value>, status: Status)

  /** The `evaluate` loop from a given point, `last` being the previous step's return value. */
  function RunFrom(stack: seq<Value>, tokens: seq<string>, ctx: Context, now: int, last: Option<Ret>): Outcome
    decreases |tokens|
  {
    if tokens == [] then Outcome(stack, Finished(last))
    else
      var e := Step(stack, tokens[0], ctx, now);
      if e.halt then Outcome(e.stack, Stopped)
      else if e.ret == ReturnedFalse then Outcome(e.stack, Failed(tokens[0]))
      else RunFrom(e.stack, tokens[1..], ctx, now, Some(e.ret))
  }

  /** One turn of the loop. */
  lemma RunFromCons(stack: seq<Value>, tokens: seq<string>, ctx: Context, now: int, last: Option<Ret>)
    requires |tokens| > 0
    ensures var e := Step(stack, tokens[0], ctx, now);
            RunFrom(stack, tokens, ctx, now, last) ==
              if e.halt then Outcome(e.stack, Stopped)
              else if e.ret == ReturnedFalse then Outcome(e.stack, Failed(tokens[0]))
              else RunFrom(e.stack, tokens[1..], ctx, now, Some(e.ret))
  {
  }

  /** A refused token changes nothing; a discontinue leaves the stack as it was and reports `true`. */
  lemma StepRefusalChangesNothing(stack: seq<Value>, token: string, ctx: Context, now: int)
    ensures var e := Step(stack, token, ctx, now);
            (e.ret == ReturnedFalse ==> e.stack == stack && !e.halt) &&
            (e.halt ==> e.ret == ReturnedTrue && e.stack == stack && token == Mnemonic(ContinueTrue))
  {
    match OpcodeOf(token)
    case Some(op) => OpRefusalChangesNothing(op, stack, ctx, now);
    case None => LiteralRefusalChangesNothing(stack, token);
  }

  lemma OpRefusalChangesNothing(op: Opcode, stack: seq<Value>, ctx: Context, now: int)
    ensures var e := OpStep(op, stack, ctx, now);
            (e.ret == ReturnedFalse ==> e.stack == stack && !e.halt) &&
            (e.halt ==> e.ret == ReturnedTrue && e.stack == stack && op == ContinueTrue)
  {
  }

  lemma LiteralRefusalChangesNothing(stack: seq<Value>, token: string)
    ensures var e := LiteralStep(stack, token);
            (e.ret == ReturnedFalse ==> e.stack == stack) && !e.halt
  {
  }

  function Run(stack: seq<Value>, tokens: seq<string>, ctx: Context, now: int): Outcome {
    RunFrom(stack, tokens, ctx, now, None)
  }

  /** What `evaluate` returns: an error record, or the last step's return value. */
  datatype EvalReturn = ErrorRecord(error: string) | LastReturn(ret: Option<Ret>)

  function FailureText(token: string): string {
    "Stack processor failure at operation \"" + token + "\""
  }

  function EvalReturnOf(o: Outcome): EvalReturn {
    match o.status
    case Failed(t) => ErrorRecord(FailureText(t))
    case Finished(last) => LastReturn(last)
    case Stopped => LastReturn(Some(ReturnedTrue))
  }

  /** The `result` field of `execute`'s record. */
  datatype Answer = Rejected | Val(v: Value) | Undefined | ErrorObject(error: string)

  /** `{result, text, success}` */
  datatype ExecResult = ExecResult(result: Answer, text: string, success: bool)

  const EmptyText: string := "Script is empty"
  const TooFewText: string := "Script has too few params, unable to execute a meaningful operation"
  const DiscontinuedText: string := "Script executed successfully, discontinued by condition"
  const SuccessText: string := "Script executed successfully"

  /** `execute(script, contextualData)` on a fresh, empty stack; `now` stands for the wall clock. */
  function ExecuteSpec(script: string, ctx: Context, now: int): ExecResult {
    if script == "" then ExecResult(Rejected, EmptyText, false)
    else
      var tokens := ParseScript(script);
      if |tokens| <= 1 then ExecResult(Rejected, TooFewText, false)
      else
        Report(Run([], tokens, ctx, now))
  }

  /** The record `execute` builds from a dispatched run. */
  function Report(o: Outcome): ExecResult {
    match o.status
    case Stopped => ExecResult(Val(Num(1.0)), DiscontinuedText, true)
    case Failed(t) => ExecResult(ErrorObject(FailureText(t)), FailureText(t), false)
    case Finished(_) => ExecResult(if |o.stack| > 0 then Val(o.stack[0]) else Undefined, SuccessText, true)
  }

  /** The item loop of ISNAMEUSED: the first item, in registry order, that claims `name`. */
  method FindClaim(items: seq<Item>, strTx: string, name: seq<byte>) returns (found: Option<nat>)
    ensures found == FirstClaim(items, strTx, name)
  {
    found := None;
    for i := 0 to |items|
      invariant forall j :: 0 <= j < i ==> !ClaimsName(items[j], strTx, name)
    {
      var item := items[i];
      if item.tx == strTx {
        continue;
      }
      if item.validation.None? || item.validation.value == "" {
        continue;
      }
      var conforms := ConformsToStandard(Text(item.validation.value), Zfi1);
      Zfi1Shape(ParseScript(item.validation.value));
      if !conforms {
        continue;
      }
      if name == Utf8(item.strName) {
        found := Some(i);
        break;
      }
    }
  }

  /** The item loop of GETITEMEPOCH: the first item whose transaction id is `tx`. */
  method FindTx(items: seq<Item>, tx: string) returns (found: Option<nat>)
    ensures found == FirstWithTx(items, tx)
  {
    found := None;
    for i := 0 to |items|
      invariant forall j :: 0 <= j < i ==> items[j].tx != tx
    {
      if tx == items[i].tx {
        found := Some(i);
        break;
      }
    }
  }

  /** The interpreter state: the stack and the `discontinue` flag, one pair per execution. */
  class Vm {
    var stack: seq<Value>
    var discontinue: bool

    /** Between two executions the stack is empty and the flag is down. */
    ghost predicate Idle()
      reads this
    {
      stack == [] && !discontinue
    }

    constructor ()
      ensures Idle()
    {
      stack := [];
      discontinue := false;
    }

    /** Binary numeric opcodes: read entries 0 and 1, push the result, shift twice. */
    method BinaryOp(op: Opcode) returns (r: Ret)
      requires IsBinaryNumeric(op)
      modifies this
      ensures Effect(r, stack, false) == BinaryStep(op, old(stack))
      ensures discontinue == old(discontinue)
    {
      if !(|stack| >= 2 && stack[0].Num? && stack[1].Num?) {
        return ReturnedFalse;
      }
      var ret := Binary(op, stack[0].n, stack[1].n);
      stack := stack + [ret];
      stack := stack[1..];
      stack := stack[1..];
      return ReturnedTrue;
    }

    /** ISNAMEUSED: scan the signed items for the first one claiming the front entry's name. */
    method IsNameUsedOp(ctx: Context) returns (r: Ret)
      modifies this
      ensures Effect(r, stack, false) == NameStep(old(stack), ctx)
      ensures discontinue == old(discontinue)
    {
      if !(|stack| > 0 && stack[0].Bytes? && |stack[0].data| >= 1) {
        return ReturnedFalse;
      }
      var items := ctx.signedItems;
      var found := FindClaim(items, ctx.current.strTx, stack[0].data);
      stack := stack[1..];
      if found.Some? {
        stack := stack + [Str(items[found.value].tx)];
      }
      stack := stack + [Bool(found.Some?)];
      return ReturnedTrue;
    }

    /** GETITEMEPOCH: replace the tail transaction id by the matching item's timestamp. */
    method GetItemEpochOp(ctx: Context) returns (r: Ret)
      modifies this
      ensures Effect(r, stack, false) == ItemEpochStep(old(stack), ctx)
      ensures discontinue == old(discontinue)
    {
      if !(|stack| > 0 && stack[|stack| - 1].Str? && |stack[|stack| - 1].s| == 64) {
        return ReturnedFalse;
      }
      var items := ctx.signedItems;
      var found := FindTx(items, stack[|stack| - 1].s);
      // No match: the source dereferences `null` here and throws; the model refuses the token.
      if found.None? {
        return ReturnedFalse;
      }
      var item := items[found.value];
      if item.timestamp.None? || item.timestamp.value == 0 {
        return ReturnedFalse;
      }
      stack := stack[..|stack| - 1];
      stack := stack + [Num(item.timestamp.value as real)];
      return ReturnedTrue;
    }

    /** `pushToStack(data)`: dispatch one token. */
    method PushToStack(data: string, ctx: Context, now: int) returns (r: Ret)
      modifies this
      ensures var e := Step(old(stack), data, ctx, now);
              r == e.ret && stack == e.stack && discontinue == (old(discontinue) || e.halt)
    {
      var op := OpcodeOf(data);
      if op.Some? && IsBinaryNumeric(op.value) {
        r := BinaryOp(op.value);
      } else if op == Some(Dup) {
        if |stack| == 0 {
          return ReturnedFalse;
        }
        stack := stack + [stack[|stack| - 1]];
        return ReturnedTrue;
      } else if op == Some(Equal) {
        var ret := Bool(StrictEquals(Entry(stack, 0), Entry(stack, 1)));
        stack := stack + [ret];
        if |stack| > 0 { stack := stack[1..]; }
        if |stack| > 0 { stack := stack[1..]; }
        return ReturnedTrue;
      } else if op == Some(ContinueTrue) {
        if |stack| == 0 {
          return ReturnedFalse;
        }
        if stack[|stack| - 1] != Num(1.0) {
          discontinue := true;
          return ReturnedTrue;
        }
        stack := stack[..|stack| - 1];
        return ReturnedTrue;
      } else if op == Some(Epoch) {
        stack := stack + [Num(now as real)];
        return ReturnedTrue;
      } else if op == Some(ChainEpoch) {
        var ret := now;
        if ctx.current.timestamp.None? || ctx.current.timestamp.value == -1 {
          ret := now;
        } else {
          ret := ctx.current.timestamp.value;
        }
        if ret < 0 {
          return ReturnedFalse;
        }
        stack := stack + [Num(ret as real)];
        return ReturnedTrue;
      } else if op == Some(GetBestBlk) {
        if ctx.bestBlock.None? {
          return ReturnedFalse;
        }
        stack := stack + [Num(ctx.bestBlock.value as real)];
        return ReturnedTrue;
      } else if op == Some(IsNameUsed) {
        r := IsNameUsedOp(ctx);
      } else if op == Some(GetItemEpoch) {
        r := GetItemEpochOp(ctx);
      } else if IsNumeral(data) && !StartsWith(data, Util.Marker) {
        stack := stack + [Num(Round6(ParseNumber(data).value))];
        return ReturnedTrue;
      } else if StartsWith(data, Util.Marker) || |data| > 0 {
        var ret := Util.HexDecode(data);
        if |ret| < 1 {
          return ReturnedFalse;
        }
        stack := stack + [Bytes(ret)];
        return ReturnedNothing;
      } else {
        return ReturnedFalse;
      }
    }

    /** `evaluate(scriptParams)`: run the tokens in order, stopping at a discontinue or a failure. */
    method Evaluate(scriptParams: seq<string>, ctx: Context, now: int) returns (r: EvalReturn)
      requires !discontinue
      modifies this
      ensures var o := Run(old(stack), scriptParams, ctx, now);
              stack == o.stack && discontinue == o.status.Stopped? && r == EvalReturnOf(o)
    {
      var evalRet: Option<Ret> := None;
      var i := 0;
      while i < |scriptParams|
        invariant 0 <= i <= |scriptParams|
        invariant !discontinue
        invariant Run(old(stack), scriptParams, ctx, now) == RunFrom(stack, scriptParams[i..], ctx, now, evalRet)
      {
        assert scriptParams[i..][0] == scriptParams[i] && scriptParams[i..][1..] == scriptParams[i + 1..];
        ghost var before := stack;
        ghost var e := Step(before, scriptParams[i], ctx, now);
        var ret := PushToStack(scriptParams[i], ctx, now);
        assert ret == e.ret && stack == e.stack && discontinue == e.halt;
        RunFromCons(before, scriptParams[i..], ctx, now, evalRet);
        StepRefusalChangesNothing(before, scriptParams[i], ctx, now);
        if discontinue {
          return LastReturn(Some(ret));
        } else if ret == ReturnedFalse {
          return ErrorRecord(FailureText(scriptParams[i]));
        }
        evalRet := Some(ret);
        i := i + 1;
      }
      return LastReturn(evalRet);
    }

    /** `execute(script, contextualData)`: every exit leaves the machine idle again. */
    method Execute(script: string, ctx: Context, now: int) returns (r: ExecResult)
      requires Idle()
      modifies this
      ensures Idle()
      ensures r == ExecuteSpec(script, ctx, now)
    {
      if script == "" {
        return ExecResult(Rejected, EmptyText, false);
      }
      var scriptParams := ParseScript(script);
      if |scriptParams| <= 1 {
        return ExecResult(Rejected, TooFewText, false);
      }
      var ret := Evaluate(scriptParams, ctx, now);
      if discontinue {
        stack := [];
        discontinue := false;
        return ExecResult(Val(Num(1.0)), DiscontinuedText, true);
      }
      if ret.ErrorRecord? {
        stack := [];
        return ExecResult(ErrorObject(ret.error), ret.error, false);
      }
      var stackResult := if |stack| > 0 then Val(stack[0]) else Undefined;
      stack := [];
      return ExecResult(stackResult, SuccessText, true);
    }
  }
}
