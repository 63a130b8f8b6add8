/**
 * Properties of the stack machine's specification: the stack shape each opcode leaves, the
 * reading of native literals, how `execute` reports each outcome, and the end-to-end
 * behaviour of a ZFI-1 validation script.
 */
module MachineFacts {
  import opened Wrappers
  import opened Numeric
  import opened Buffers
  import opened JsText
  import Util
  import opened Script
  import opened Machine

  /**
   * ADD, SUB, MUL, DIV, LESSTHAN and GREATERTHAN fail unless entries 0 and 1 are numbers; otherwise
   * both are removed from the front and the result is appended at the tail.
   */
  lemma BinaryShape(op: Opcode, stack: seq<Value>, ctx: Context, now: int)
    requires IsBinaryNumeric(op)
    ensures var e := Step(stack, Mnemonic(op), ctx, now);
            && !e.halt
            && (e.ret == ReturnedFalse <==> !NumericPair(stack))
            && (NumericPair(stack) ==>
                  && e.ret == ReturnedTrue
                  && |e.stack| == |stack| - 1
                  && e.stack[..|e.stack| - 1] == stack[2..]
                  && e.stack[|e.stack| - 1] == Binary(op, stack[0].n, stack[1].n))
  {
    StepOpcode(op, stack, ctx, now);
  }

  /**
   * Arithmetic results are normalised to 6 decimals and lie within half a millionth of the exact
   * result; DIV by zero gives the non-finite value; comparisons give 1 or 0.
   */
  lemma BinaryResults(op: Opcode, a: real, b: real)
    requires IsBinaryNumeric(op)
    ensures op == Div && b == 0.0 <==> Binary(op, a, b) == NonFinite
    ensures op == Add ==> SixDecimals(Binary(op, a, b).n) && -0.0000005 <= Binary(op, a, b).n - (a + b) <= 0.0000005
    ensures op == Sub ==> SixDecimals(Binary(op, a, b).n) && -0.0000005 <= Binary(op, a, b).n - (a - b) <= 0.0000005
    ensures op == Mul ==> SixDecimals(Binary(op, a, b).n) && -0.0000005 <= Binary(op, a, b).n - (a * b) <= 0.0000005
    ensures op == Div && b != 0.0 ==>
              SixDecimals(Binary(op, a, b).n) && -0.0000005 <= Binary(op, a, b).n - (a / b) <= 0.0000005
    ensures op == LessThan ==> Binary(op, a, b) == Num(if a < b then 1.0 else 0.0)
    ensures op == GreaterThan ==> Binary(op, a, b) == Num(if a > b then 1.0 else 0.0)
  {
    match op
    case Add => ArithResult(op, a, b);
    case Sub => ArithResult(op, a, b);
    case Mul => MulResult(a, b);
    case Div => DivResult(a, b);
    case _ =>
  }

  /** The exact value ADD, SUB and MUL round. */
  function Exact(op: Opcode, a: real, b: real): real
    requires op == Add || op == Sub || op == Mul
  {
    match op
    case Add => a + b
    case Sub => a - b
    case Mul => a * b
  }

  lemma ArithResult(op: Opcode, a: real, b: real)
    requires op == Add || op == Sub || op == Mul
    ensures Binary(op, a, b).Num?
    ensures SixDecimals(Binary(op, a, b).n) && -0.0000005 <= Binary(op, a, b).n - Exact(op, a, b) <= 0.0000005
  {
    RoundedResult(op, a, b, Exact(op, a, b));
  }

  lemma MulResult(a: real, b: real)
    ensures Binary(Mul, a, b).Num?
    ensures SixDecimals(Binary(Mul, a, b).n) && -0.0000005 <= Binary(Mul, a, b).n - (a * b) <= 0.0000005
  {
    ArithResult(Mul, a, b);
  }

  lemma DivResult(a: real, b: real)
    ensures b == 0.0 <==> Binary(Div, a, b) == NonFinite
    ensures b != 0.0 ==> SixDecimals(Binary(Div, a, b).n) && -0.0000005 <= Binary(Div, a, b).n - (a / b) <= 0.0000005
  {
    if b != 0.0 {
      var x := a / b;
      RoundedResult(Div, a, b, x);
    }
  }

  /** An arithmetic result that is the rounding of the exact value `x`. */
  lemma RoundedResult(op: Opcode, a: real, b: real, x: real)
    requires IsBinaryNumeric(op) && Binary(op, a, b) == Num(Round6(x))
    ensures SixDecimals(Binary(op, a, b).n) && -0.0000005 <= Binary(op, a, b).n - x <= 0.0000005
  {
    Round6Properties(x);
  }

  /**
   * EQUAL never fails and checks no types. With two entries or more it replaces entries 0 and 1 by
   * the verdict at the tail; with fewer, push-then-two-shifts leaves the stack empty.
   */
  lemma EqualShape(stack: seq<Value>, ctx: Context, now: int)
    ensures var e := Step(stack, Mnemonic(Equal), ctx, now);
            && e.ret == ReturnedTrue && !e.halt
            && (|stack| < 2 ==> e.stack == [])
            && (|stack| >= 2 ==>
                  e.stack == stack[2..] + [Num(if StrictEquals(Some(stack[0]), Some(stack[1])) then 1.0 else 0.0)])
  {
    StepOpcode(Equal, stack, ctx, now);
  }

  /** Byte strings compare by identity, so two byte strings on the stack are never EQUAL. */
  lemma EqualBytes(a: seq<byte>, b: seq<byte>, rest: seq<Value>, ctx: Context, now: int)
    ensures Step([Bytes(a), Bytes(b)] + rest, Mnemonic(Equal), ctx, now).stack == rest + [Num(0.0)]
  {
    var stack := [Bytes(a), Bytes(b)] + rest;
    assert stack[2..] == rest;
  }

  /** Numbers and strings compare by value. */
  lemma EqualValues(x: Value, rest: seq<Value>, ctx: Context, now: int)
    requires x.Num? || x.Str?
    ensures Step([x, x] + rest, Mnemonic(Equal), ctx, now).stack == rest + [Num(1.0)]
  {
    var stack := [x, x] + rest;
    assert stack[2..] == rest;
  }

  /** Two non-finite entries are never EQUAL: right for NaN, where the source's infinities would be. */
  lemma EqualNonFinite(rest: seq<Value>, ctx: Context, now: int)
    ensures Step([NonFinite, NonFinite] + rest, Mnemonic(Equal), ctx, now) == Effect(ReturnedTrue, rest + [Num(0.0)], false)
  {
    var stack := [NonFinite, NonFinite] + rest;
    assert stack[2..] == rest;
  }

  /** DUP fails on an empty stack; otherwise it appends a copy of the tail and keeps the rest. */
  lemma DupShape(stack: seq<Value>, ctx: Context, now: int)
    ensures var e := Step(stack, Mnemonic(Dup), ctx, now);
            && !e.halt
            && (e.ret == ReturnedFalse <==> stack == [])
            && (stack != [] ==> e.stack[..|stack|] == stack && e.stack == stack + [stack[|stack| - 1]])
  {
    StepOpcode(Dup, stack, ctx, now);
  }

  /**
   * CONTINUETRUE fails on an empty stack. A tail equal to 1 is popped; any other tail raises
   * `discontinue` and leaves the stack unchanged.
   */
  lemma ContinueTrueShape(stack: seq<Value>, ctx: Context, now: int)
    ensures var e := Step(stack, Mnemonic(ContinueTrue), ctx, now);
            && (e.ret == ReturnedFalse <==> stack == [])
            && (stack != [] && stack[|stack| - 1] == Num(1.0) ==>
                  !e.halt && e.ret == ReturnedTrue && e.stack == stack[..|stack| - 1])
            && (stack != [] && stack[|stack| - 1] != Num(1.0) ==>
                  e.halt && e.ret == ReturnedTrue && e.stack == stack)
  {
    StepOpcode(ContinueTrue, stack, ctx, now);
  }

  /**
   * EPOCH pushes `now`. CHAINEPOCH pushes this item's timestamp, or `now` when the timestamp is
   * absent or -1, and fails when that value is negative. GETBESTBLK pushes the best block, and
   * fails when it is missing.
   */
  lemma ClockAndChainShape(stack: seq<Value>, ctx: Context, now: int)
    ensures Step(stack, Mnemonic(Epoch), ctx, now) == Effect(ReturnedTrue, stack + [Num(now as real)], false)
    ensures var e := Step(stack, Mnemonic(ChainEpoch), ctx, now);
            var t := ctx.current.timestamp;
            var epoch := if t.None? || t.value == -1 then now else t.value;
            && (e.ret == ReturnedFalse <==> epoch < 0)
            && (epoch >= 0 ==> e.stack == stack + [Num(epoch as real)])
    ensures var e := Step(stack, Mnemonic(GetBestBlk), ctx, now);
            && (e.ret == ReturnedFalse <==> ctx.bestBlock.None?)
            && (ctx.bestBlock.Some? ==> e.stack == stack + [Num(ctx.bestBlock.value as real)])
  {
    StepOpcode(Epoch, stack, ctx, now);
    StepOpcode(ChainEpoch, stack, ctx, now);
    StepOpcode(GetBestBlk, stack, ctx, now);
  }

  /**
   * ISNAMEUSED fails unless the front entry is a non-empty byte string. Otherwise the front entry
   * is removed and, at the tail, the first item claiming that name contributes `[tx, 1]`, or `[0]`
   * is appended when no item claims it.
   */
  lemma IsNameUsedShape(stack: seq<Value>, ctx: Context, now: int)
    ensures var e := Step(stack, Mnemonic(IsNameUsed), ctx, now);
            var items := ctx.signedItems;
            && !e.halt
            && (e.ret == ReturnedFalse <==> !NameAtFront(stack))
            && (NameAtFront(stack) ==>
                  || ((forall j :: 0 <= j < |items| ==> !ClaimsName(items[j], ctx.current.strTx, stack[0].data)) &&
                      e.stack == stack[1..] + [Num(0.0)])
                  || (exists i :: 0 <= i < |items| && ClaimsName(items[i], ctx.current.strTx, stack[0].data) &&
                        (forall j :: 0 <= j < i ==> !ClaimsName(items[j], ctx.current.strTx, stack[0].data)) &&
                        e.stack == stack[1..] + [Str(items[i].tx), Num(1.0)]))
  {
    StepOpcode(IsNameUsed, stack, ctx, now);
    if NameAtFront(stack) {
      match FirstClaim(ctx.signedItems, ctx.current.strTx, stack[0].data)
      case None =>
      case Some(i) =>
    }
  }

  /** A list that starts with a claiming item has its first claim at 0. */
  lemma FirstClaimConsClaim(first: Item, rest: seq<Item>, strTx: string, name: seq<byte>)
    requires ClaimsName(first, strTx, name)
    ensures FirstClaim([first] + rest, strTx, name) == Some(0)
  {
    assert ([first] + rest)[0] == first;
  }

  /** A list that starts with a non-claiming item has its first claim one further than the rest. */
  lemma FirstClaimConsSkip(first: Item, rest: seq<Item>, strTx: string, name: seq<byte>)
    requires !ClaimsName(first, strTx, name)
    ensures FirstClaim([first] + rest, strTx, name) == Shifted(FirstClaim(rest, strTx, name), 0)
  {
    assert ([first] + rest)[0] == first && ([first] + rest)[1..] == rest;
  }

  /** The index of a first claim once `item` is inserted at `k`, when `item` does not claim. */
  function Shifted(found: Option<nat>, k: nat): Option<nat> {
    match found
    case None => None
    case Some(i) => Some(if i < k then i else i + 1)
  }

  /** Inserting an item that does not claim `name` only shifts the index of the first claim. */
  lemma {:induction false} FirstClaimInsert(items: seq<Item>, k: nat, item: Item, strTx: string, name: seq<byte>)
    requires k <= |items| && !ClaimsName(item, strTx, name)
    ensures FirstClaim(items[..k] + [item] + items[k..], strTx, name) == Shifted(FirstClaim(items, strTx, name), k)
    decreases k
  {
    if k == 0 {
      assert items[..k] + [item] + items[k..] == [item] + items;
      FirstClaimConsSkip(item, items, strTx, name);
    } else {
      FirstClaimInsert(items[1..], k - 1, item, strTx, name);
      FirstClaimInsertStep(items, k, item, strTx, name);
    }
  }

  lemma InsertAfterHead<T>(xs: seq<T>, k: nat, x: T)
    requires 0 < k <= |xs|
    ensures xs[..k] + [x] + xs[k..] == [xs[0]] + (xs[1..][..k - 1] + [x] + xs[1..][k - 1..])
    ensures xs == [xs[0]] + xs[1..]
  {
    assert xs[..k] == [xs[0]] + xs[1..][..k - 1];
    assert xs[k..] == xs[1..][k - 1..];
  }

  /** One element further into the list: the claim status of the head decides. */
  lemma FirstClaimInsertStep(items: seq<Item>, k: nat, item: Item, strTx: string, name: seq<byte>)
    requires 0 < k <= |items|
    requires var rest := items[1..];
             FirstClaim(rest[..k - 1] + [item] + rest[k - 1..], strTx, name) == Shifted(FirstClaim(rest, strTx, name), k - 1)
    ensures FirstClaim(items[..k] + [item] + items[k..], strTx, name) == Shifted(FirstClaim(items, strTx, name), k)
  {
    var first, rest := items[0], items[1..];
    var moreRest := rest[..k - 1] + [item] + rest[k - 1..];
    InsertAfterHead(items, k, item);
    if ClaimsName(first, strTx, name) {
      FirstClaimConsClaim(first, moreRest, strTx, name);
      FirstClaimConsClaim(first, rest, strTx, name);
    } else {
      FirstClaimConsSkip(first, moreRest, strTx, name);
      FirstClaimConsSkip(first, rest, strTx, name);
      ShiftedPastHead(FirstClaim(rest, strTx, name), k);
    }
  }

  lemma ShiftedPastHead(found: Option<nat>, k: nat)
    requires 0 < k
    ensures Shifted(Shifted(found, k - 1), 0) == Shifted(Shifted(found, 0), k)
  {
  }

  /**
   * Items ISNAMEUSED skips (this item itself, items without a validation script, items whose
   * script does not conform to ZFI-1, items with another name) can be added anywhere in the
   * registry without changing what it does.
   */
  lemma IsNameUsedIgnoresNonClaims(stack: seq<Value>, ctx: Context, k: nat, item: Item)
    requires k <= |ctx.signedItems|
    requires NameAtFront(stack) ==> !ClaimsName(item, ctx.current.strTx, stack[0].data)
    ensures var more := ctx.(signedItems := ctx.signedItems[..k] + [item] + ctx.signedItems[k..]);
            NameStep(stack, more) == NameStep(stack, ctx)
  {
    if NameAtFront(stack) {
      var items := ctx.signedItems;
      FirstClaimInsert(items, k, item, ctx.current.strTx, stack[0].data);
      assert FirstClaim(items[..k] + [item] + items[k..], ctx.current.strTx, stack[0].data) ==
             Shifted(FirstClaim(items, ctx.current.strTx, stack[0].data), k);
      var more := items[..k] + [item] + items[k..];
      match FirstClaim(items, ctx.current.strTx, stack[0].data)
      case None =>
      case Some(i) =>
        assert more[if i < k then i else i + 1] == items[i];
    }
  }

  /**
   * GETITEMEPOCH fails unless the tail is a 64-character string whose first matching item has a
   * timestamp that is present and not 0; then the tail is replaced by that timestamp.
   */
  lemma GetItemEpochShape(stack: seq<Value>, ctx: Context, now: int)
    ensures var e := Step(stack, Mnemonic(GetItemEpoch), ctx, now);
            var items := ctx.signedItems;
            && !e.halt
            && (!TxAtTail(stack) ==> e.ret == ReturnedFalse)
            && (TxAtTail(stack) ==>
                  var tx := stack[|stack| - 1].s;
                  && ((forall j :: 0 <= j < |items| ==> items[j].tx != tx) ==> e.ret == ReturnedFalse)
                  && forall i :: 0 <= i < |items| && items[i].tx == tx && (forall j :: 0 <= j < i ==> items[j].tx != tx) ==>
                       if items[i].timestamp.None? || items[i].timestamp.value == 0 then e.ret == ReturnedFalse
                       else e.ret == ReturnedTrue && e.stack == stack[..|stack| - 1] + [Num(items[i].timestamp.value as real)])
  {
    StepOpcode(GetItemEpoch, stack, ctx, now);
    if TxAtTail(stack) {
      var tx := stack[|stack| - 1].s;
      var found := FirstWithTx(ctx.signedItems, tx);
      forall i | 0 <= i < |ctx.signedItems| && ctx.signedItems[i].tx == tx &&
                 (forall j :: 0 <= j < i ==> ctx.signedItems[j].tx != tx)
        ensures found == Some(i)
      {
      }
    }
  }

  /** No mnemonic begins with the hex marker, so a marked token is never an opcode. */
  lemma MarkedIsNoOpcode(token: string)
    requires StartsWith(token, Util.Marker)
    ensures OpcodeOf(token).None?
  {
    assert token[0] == Util.Marker[0] == 'H';
  }

  /** A token that is no opcode, numeric and unmarked pushes its value, rounded to 6 decimals. */
  lemma NumberLiteralShape(stack: seq<Value>, token: string, ctx: Context, now: int)
    requires OpcodeOf(token).None? && IsNumeral(token) && !StartsWith(token, Util.Marker)
    ensures Step(stack, token, ctx, now) == Effect(ReturnedTrue, stack + [Num(Round6(ParseNumber(token).value))], false)
  {
  }

  /** The empty token (two adjacent spaces in a script) reads as the number 0. */
  lemma EmptyTokenIsZero(stack: seq<Value>, ctx: Context, now: int)
    ensures Step(stack, "", ctx, now) == Effect(ReturnedTrue, stack + [Num(0.0)], false)
  {
    Round6Integer(0);
  }

  /**
   * Any other token is a byte literal: its hex decoding (after the first marker is removed) is
   * pushed and the step returns nothing at all, neither `true` nor `false`; a decoding with no
   * bytes is refused.
   */
  lemma ByteLiteralShape(stack: seq<Value>, token: string, ctx: Context, now: int)
    requires OpcodeOf(token).None? && !IsNumberLiteral(token)
    ensures var e := Step(stack, token, ctx, now);
            && !e.halt
            && e.ret != ReturnedTrue
            && (e.ret == ReturnedFalse <==> |Util.HexDecode(token)| == 0)
            && (|Util.HexDecode(token)| > 0 ==> e.stack == stack + [Bytes(Util.HexDecode(token))])
  {
  }

  /** A byte literal's missing return value does not stop the evaluation loop. */
  lemma ByteLiteralContinues(stack: seq<Value>, token: string, rest: seq<string>, ctx: Context, now: int, last: Option<Ret>)
    requires OpcodeOf(token).None? && !IsNumberLiteral(token) && |Util.HexDecode(token)| > 0
    ensures RunFrom(stack, [token] + rest, ctx, now, last) ==
            RunFrom(stack + [Bytes(Util.HexDecode(token))], rest, ctx, now, Some(ReturnedNothing))
  {
    assert ([token] + rest)[1..] == rest;
  }

  /** A non-empty string written with `hexEncode(str, true)` is pushed back as its UTF-8 bytes. */
  lemma EncodedNameLiteral(stack: seq<Value>, str: string, ctx: Context, now: int)
    requires str != ""
    ensures Step(stack, Util.HexEncode(str, true), ctx, now) ==
            Effect(ReturnedNothing, stack + [Bytes(Utf8(str))], false)
  {
    var token := Util.HexEncode(str, true);
    MarkedIsNoOpcode(token);
    Util.HexRoundTrip(str, true);
  }

  /** A refused token is one of the script's tokens. */
  lemma {:induction false} FailedTokenInScript(stack: seq<Value>, tokens: seq<string>, ctx: Context, now: int, last: Option<Ret>)
    ensures RunFrom(stack, tokens, ctx, now, last).status.Failed? ==>
              RunFrom(stack, tokens, ctx, now, last).status.token in tokens
    decreases |tokens|
  {
    if tokens != [] {
      var e := Step(stack, tokens[0], ctx, now);
      if !e.halt && e.ret != ReturnedFalse {
        FailedTokenInScript(e.stack, tokens[1..], ctx, now, Some(e.ret));
        var t := RunFrom(e.stack, tokens[1..], ctx, now, Some(e.ret)).status;
        if t.Failed? {
          assert t.token in tokens[1..];
        }
      }
    }
  }

  /** A stack CONTINUETRUE discontinues on: non-empty, with a tail that is not the number 1. */
  predicate StopsContinueTrue(stack: seq<Value>) {
    |stack| > 0 && stack[|stack| - 1] != Num(1.0)
  }

  /** A discontinuing step is a CONTINUETRUE on a non-empty stack whose tail is not 1, and keeps the stack. */
  lemma HaltingStep(stack: seq<Value>, token: string, ctx: Context, now: int)
    ensures var e := Step(stack, token, ctx, now);
            e.halt ==> OpcodeOf(token) == Some(ContinueTrue) && e.stack == stack && StopsContinueTrue(stack)
  {
    StepRefusalChangesNothing(stack, token, ctx, now);
    if Step(stack, token, ctx, now).halt {
      OpcodeOfMnemonic(ContinueTrue);
      ContinueTrueShape(stack, ctx, now);
    }
  }

  /**
   * A run is discontinued only by a CONTINUETRUE of the script, and it stops with the stack as
   * that opcode found it: non-empty, with a tail that is not the number 1.
   */
  lemma {:induction false} StoppedAtContinueTrue(stack: seq<Value>, tokens: seq<string>, ctx: Context, now: int, last: Option<Ret>)
    ensures var o := RunFrom(stack, tokens, ctx, now, last);
            o.status.Stopped? ==>
              && (exists k :: 0 <= k < |tokens| && OpcodeOf(tokens[k]) == Some(ContinueTrue))
              && StopsContinueTrue(o.stack)
    decreases |tokens|
  {
    if tokens != [] {
      var e := Step(stack, tokens[0], ctx, now);
      HaltingStep(stack, tokens[0], ctx, now);
      if !e.halt && e.ret != ReturnedFalse {
        StoppedAtContinueTrue(e.stack, tokens[1..], ctx, now, Some(e.ret));
        if RunFrom(e.stack, tokens[1..], ctx, now, Some(e.ret)).status.Stopped? {
          var k :| 0 <= k < |tokens[1..]| && OpcodeOf(tokens[1..][k]) == Some(ContinueTrue);
          assert tokens[1..][k] == tokens[k + 1];
        }
      }
    }
  }

  /** A string value names the transaction of one of the signed items. */
  ghost predicate Registered(v: Value, ctx: Context) {
    v.Str? ==> exists i :: 0 <= i < |ctx.signedItems| && ctx.signedItems[i].tx == v.s
  }

  /** Every string on the stack names a signed item's transaction. */
  ghost predicate AllRegistered(stack: seq<Value>, ctx: Context) {
    forall k :: 0 <= k < |stack| ==> Registered(stack[k], ctx)
  }

  lemma RegisteredSlice(stack: seq<Value>, i: nat, j: nat, ctx: Context)
    requires AllRegistered(stack, ctx) && i <= j <= |stack|
    ensures AllRegistered(stack[i..j], ctx)
  {
    forall k | 0 <= k < j - i
      ensures Registered(stack[i..j][k], ctx)
    {
      assert stack[i..j][k] == stack[i + k];
    }
  }

  lemma RegisteredAppend(a: seq<Value>, b: seq<Value>, ctx: Context)
    requires AllRegistered(a, ctx) && AllRegistered(b, ctx)
    ensures AllRegistered(a + b, ctx)
  {
    forall k | 0 <= k < |a + b|
      ensures Registered((a + b)[k], ctx)
    {
      if k < |a| {
        assert (a + b)[k] == a[k];
      } else {
        assert (a + b)[k] == b[k - |a|];
      }
    }
  }

  lemma NameStepKeepsRegistered(stack: seq<Value>, ctx: Context)
    requires AllRegistered(stack, ctx)
    ensures AllRegistered(NameStep(stack, ctx).stack, ctx)
  {
    if NameAtFront(stack) {
      RegisteredSlice(stack, 1, |stack|, ctx);
      match FirstClaim(ctx.signedItems, ctx.current.strTx, stack[0].data)
      case None =>
        RegisteredAppend(stack[1..], [Num(0.0)], ctx);
      case Some(i) =>
        var t := Str(ctx.signedItems[i].tx);
        assert Registered(t, ctx);
        assert AllRegistered([t, Num(1.0)], ctx);
        RegisteredAppend(stack[1..], [t, Num(1.0)], ctx);
    }
  }

  lemma RegisteredPush(stack: seq<Value>, v: Value, ctx: Context)
    requires AllRegistered(stack, ctx) && Registered(v, ctx)
    ensures AllRegistered(stack + [v], ctx)
  {
    RegisteredAppend(stack, [v], ctx);
  }

  lemma BinaryStepKeepsRegistered(op: Opcode, stack: seq<Value>, ctx: Context)
    requires IsBinaryNumeric(op) && AllRegistered(stack, ctx)
    ensures AllRegistered(BinaryStep(op, stack).stack, ctx)
  {
    if NumericPair(stack) {
      RegisteredSlice(stack, 2, |stack|, ctx);
      RegisteredPush(stack[2..], Binary(op, stack[0].n, stack[1].n), ctx);
    }
  }

  lemma ItemEpochStepKeepsRegistered(stack: seq<Value>, ctx: Context)
    requires AllRegistered(stack, ctx)
    ensures AllRegistered(ItemEpochStep(stack, ctx).stack, ctx)
  {
    var e := ItemEpochStep(stack, ctx);
    if e.stack != stack {
      RegisteredSlice(stack, 0, |stack| - 1, ctx);
      RegisteredPush(stack[..|stack| - 1], e.stack[|stack| - 1], ctx);
      assert e.stack == stack[..|stack| - 1] + [e.stack[|stack| - 1]];
    }
  }

  lemma OpStepKeepsRegistered(op: Opcode, stack: seq<Value>, ctx: Context, now: int)
    requires AllRegistered(stack, ctx)
    ensures AllRegistered(OpStep(op, stack, ctx, now).stack, ctx)
  {
    match op
    case Add | Sub | Mul | Div | LessThan | GreaterThan => BinaryStepKeepsRegistered(op, stack, ctx);
    case IsNameUsed => NameStepKeepsRegistered(stack, ctx);
    case GetItemEpoch => ItemEpochStepKeepsRegistered(stack, ctx);
    case Dup =>
      if |stack| > 0 {
        RegisteredPush(stack, stack[|stack| - 1], ctx);
      }
    case Equal =>
      if |stack| >= 2 {
        RegisteredSlice(stack, 2, |stack|, ctx);
        RegisteredPush(stack[2..], Bool(StrictEquals(Entry(stack, 0), Entry(stack, 1))), ctx);
      }
    case ContinueTrue =>
      if |stack| > 0 {
        RegisteredSlice(stack, 0, |stack| - 1, ctx);
      }
    case Epoch => RegisteredPush(stack, Num(now as real), ctx);
    case ChainEpoch => RegisteredPush(stack, Num(ChainEpochOf(ctx, now) as real), ctx);
    case GetBestBlk =>
      if ctx.bestBlock.Some? {
        RegisteredPush(stack, Num(ctx.bestBlock.value as real), ctx);
      }
  }

  /** No step puts a string on the stack that is not a signed item's transaction id. */
  lemma StepKeepsRegistered(stack: seq<Value>, token: string, ctx: Context, now: int)
    requires AllRegistered(stack, ctx)
    ensures AllRegistered(Step(stack, token, ctx, now).stack, ctx)
  {
    match OpcodeOf(token)
    case Some(op) => OpStepKeepsRegistered(op, stack, ctx, now);
    case None =>
      var e := LiteralStep(stack, token);
      if e.stack != stack {
        RegisteredAppend(stack, e.stack[|stack|..], ctx);
        assert e.stack == stack + e.stack[|stack|..];
      }
  }

  /** Every stack a run passes through or ends with holds only registered strings. */
  lemma {:induction false} RunKeepsRegistered(stack: seq<Value>, tokens: seq<string>, ctx: Context, now: int, last: Option<Ret>)
    requires AllRegistered(stack, ctx)
    ensures AllRegistered(RunFrom(stack, tokens, ctx, now, last).stack, ctx)
    decreases |tokens|
  {
    if tokens != [] {
      var e := Step(stack, tokens[0], ctx, now);
      StepKeepsRegistered(stack, tokens[0], ctx, now);
      if !e.halt && e.ret != ReturnedFalse {
        RunKeepsRegistered(e.stack, tokens[1..], ctx, now, Some(e.ret));
      }
    }
  }

  /** On a stack of registered strings, GETITEMEPOCH always finds the item its operand names. */
  lemma RegisteredTxFound(stack: seq<Value>, ctx: Context)
    requires AllRegistered(stack, ctx) && TxAtTail(stack)
    ensures FirstWithTx(ctx.signedItems, stack[|stack| - 1].s).Some?
  {
    assert Registered(stack[|stack| - 1], ctx);
  }

  /**
   * A script refused at GETITEMEPOCH with a transaction id at the tail was refused for a missing
   * or zero timestamp, never because no signed item carries that id.
   */
  lemma GetItemEpochFindsItem(script: string, ctx: Context, now: int)
    ensures var o := Run([], ParseScript(script), ctx, now);
            o.status == Failed(Mnemonic(GetItemEpoch)) && TxAtTail(o.stack) ==>
              FirstWithTx(ctx.signedItems, o.stack[|o.stack| - 1].s).Some?
  {
    var o := Run([], ParseScript(script), ctx, now);
    RunKeepsRegistered([], ParseScript(script), ctx, now, None);
    if TxAtTail(o.stack) {
      RegisteredTxFound(o.stack, ctx);
    }
  }

  lemma {:induction false} SpacesZero(s: string)
    ensures Spaces(s) == 0 <==> ' ' !in s
    decreases |s|
  {
    if s != [] {
      SpacesZero(s[1..]);
      assert s == [s[0]] + s[1..];
    }
  }

  /**
   * `execute` rejects a script without dispatching exactly when it holds no space: the empty
   * script, and every script that splits into a single token.
   */
  lemma ExecuteRejection(script: string, ctx: Context, now: int)
    ensures ExecuteSpec(script, ctx, now).result == Rejected <==> ' ' !in script
    ensures script == "" ==> ExecuteSpec(script, ctx, now) == ExecResult(Rejected, EmptyText, false)
    ensures script != "" && ' ' !in script ==> ExecuteSpec(script, ctx, now) == ExecResult(Rejected, TooFewText, false)
  {
    SplitCount(script);
    SpacesZero(script);
  }

  /**
   * Once dispatch starts, `execute` reports: a discontinue as success with result 1; a refused
   * token as failure naming that token, which occurs in the script; and otherwise success with
   * the oldest remaining stack entry.
   */
  lemma ExecuteOutcomes(script: string, ctx: Context, now: int)
    requires ' ' in script
    ensures var tokens := ParseScript(script);
            var o := Run([], tokens, ctx, now);
            var r := ExecuteSpec(script, ctx, now);
            && |tokens| >= 2
            && (r.success <==> !o.status.Failed?)
            && (o.status.Stopped? ==> r == ExecResult(Val(Num(1.0)), DiscontinuedText, true))
            && (o.status.Failed? ==>
                  o.status.token in tokens && r.text == FailureText(o.status.token) && r.result == ErrorObject(r.text))
            && (o.status.Finished? ==>
                  r.text == SuccessText && r.result == (if o.stack == [] then Undefined else Val(o.stack[0])))
  {
    ExecuteRejection(script, ctx, now);
    SplitCount(script);
    SpacesZero(script);
    FailedTokenInScript([], ParseScript(script), ctx, now, None);
  }

  /** What a ZFI-1 script yields once a conflicting item has been found: its transaction id is `tx`. */
  function Zfi1Verdict(ctx: Context, now: int, tx: string): ExecResult {
    var items := ctx.signedItems;
    var found := FirstWithTx(items, tx);
    var failAtEpoch := ExecResult(ErrorObject(FailureText("GETITEMEPOCH")), FailureText("GETITEMEPOCH"), false);
    if |tx| != 64 || found.None? || items[found.value].timestamp.None? || items[found.value].timestamp.value == 0
    then failAtEpoch
    else if ChainEpochOf(ctx, now) < 0
    then ExecResult(ErrorObject(FailureText("CHAINEPOCH")), FailureText("CHAINEPOCH"), false)
    else ExecResult(Val(Bool(items[found.value].timestamp.value > ChainEpochOf(ctx, now))), SuccessText, true)
  }

  /** The opcode tokens of ZFI-1, after its name literal. */
  const Zfi1Ops: seq<string> :=
    [Mnemonic(IsNameUsed), Mnemonic(ContinueTrue), Mnemonic(GetItemEpoch), Mnemonic(ChainEpoch), Mnemonic(GreaterThan)]

  /** The template's tokens after the placeholder are these mnemonics. */
  lemma Zfi1OpsInTemplate()
    ensures Zfi1Template()[1..] == Zfi1Ops
  {
  }

  /** CHAINEPOCH with the conflicting item's timestamp on the stack. */
  lemma Zfi1ChainEpochStep(ts: int, ctx: Context, now: int)
    ensures var ce := ChainEpochOf(ctx, now);
            Step([Num(ts as real)], Mnemonic(ChainEpoch), ctx, now) ==
              if ce < 0 then Refuse([Num(ts as real)]) else Effect(ReturnedTrue, [Num(ts as real), Num(ce as real)], false)
  {
    StepOpcode(ChainEpoch, [Num(ts as real)], ctx, now);
  }

  /** GREATERTHAN of the timestamp and the chain epoch. */
  lemma Zfi1CompareStep(ts: int, ce: int, ctx: Context, now: int)
    ensures Step([Num(ts as real), Num(ce as real)], Mnemonic(GreaterThan), ctx, now) == Effect(ReturnedTrue, [Bool(ts > ce)], false)
  {
    var s := [Num(ts as real), Num(ce as real)];
    StepOpcode(GreaterThan, s, ctx, now);
    assert s[2..] == [];
  }

  /** The last two steps of ZFI-1, with the conflicting item's timestamp `ts` on the stack. */
  lemma Zfi1ChainSteps(ts: int, ctx: Context, now: int)
    ensures var ce := ChainEpochOf(ctx, now);
            Report(RunFrom([Num(ts as real)], Zfi1Ops[3..], ctx, now, Some(ReturnedTrue))) ==
              if ce < 0 then ExecResult(ErrorObject(FailureText("CHAINEPOCH")), FailureText("CHAINEPOCH"), false)
              else ExecResult(Val(Bool(ts > ce)), SuccessText, true)
  {
    var ops := Zfi1Ops[3..];
    var t := Num(ts as real);
    assert ops == [Mnemonic(ChainEpoch), Mnemonic(GreaterThan)];
    Zfi1ChainEpochStep(ts, ctx, now);
    RunFromCons([t], ops, ctx, now, Some(ReturnedTrue));
    var ce := ChainEpochOf(ctx, now);
    if ce >= 0 {
      var s := [t, Num(ce as real)];
      Zfi1CompareStep(ts, ce, ctx, now);
      assert ops[1..] == [Mnemonic(GreaterThan)];
      RunFromCons(s, ops[1..], ctx, now, Some(ReturnedTrue));
      assert ops[1..][1..] == [];
    }
  }

  /** GETITEMEPOCH with the conflicting item's transaction id on the stack. */
  lemma Zfi1ItemEpochStep(tx: string, ctx: Context, now: int)
    ensures Step([Str(tx)], Mnemonic(GetItemEpoch), ctx, now) == ItemEpochStep([Str(tx)], ctx)
  {
    StepOpcode(GetItemEpoch, [Str(tx)], ctx, now);
  }

  /** The last three steps of ZFI-1, with the conflicting item's transaction id on the stack. */
  lemma Zfi1EpochSteps(tx: string, ctx: Context, now: int)
    ensures Report(RunFrom([Str(tx)], Zfi1Ops[2..], ctx, now, Some(ReturnedTrue))) == Zfi1Verdict(ctx, now, tx)
  {
    var ops := Zfi1Ops[2..];
    assert ops[0] == Mnemonic(GetItemEpoch) && ops[1..] == Zfi1Ops[3..];
    Zfi1ItemEpochStep(tx, ctx, now);
    var e := ItemEpochStep([Str(tx)], ctx);
    RunFromCons([Str(tx)], ops, ctx, now, Some(ReturnedTrue));
    if e.ret != ReturnedFalse {
      var found := FirstWithTx(ctx.signedItems, tx);
      var ts := ctx.signedItems[found.value].timestamp.value;
      assert e.stack == [Num(ts as real)];
      Zfi1ChainSteps(ts, ctx, now);
    }
  }

  /** ISNAMEUSED with the name's bytes on the stack. */
  lemma Zfi1NameStep(name: seq<byte>, ctx: Context, now: int)
    ensures Step([Bytes(name)], Mnemonic(IsNameUsed), ctx, now) == NameStep([Bytes(name)], ctx)
  {
    StepOpcode(IsNameUsed, [Bytes(name)], ctx, now);
  }

  /** CONTINUETRUE after ISNAMEUSED: stops on 0, pops a 1. */
  lemma Zfi1ContinueStep(tx: string, ctx: Context, now: int)
    ensures Step([Num(0.0)], Mnemonic(ContinueTrue), ctx, now) == Effect(ReturnedTrue, [Num(0.0)], true)
    ensures Step([Str(tx), Num(1.0)], Mnemonic(ContinueTrue), ctx, now) == Effect(ReturnedTrue, [Str(tx)], false)
  {
    StepOpcode(ContinueTrue, [Num(0.0)], ctx, now);
    StepOpcode(ContinueTrue, [Str(tx), Num(1.0)], ctx, now);
  }

  /** ZFI-1 from its first opcode, with the name's bytes on the stack. */
  lemma Zfi1NameSteps(name: seq<byte>, ctx: Context, now: int)
    requires |name| > 0
    ensures var r := Report(RunFrom([Bytes(name)], Zfi1Ops, ctx, now, Some(ReturnedNothing)));
            match FirstClaim(ctx.signedItems, ctx.current.strTx, name)
            case None => r == ExecResult(Val(Num(1.0)), DiscontinuedText, true)
            case Some(i) => r == Zfi1Verdict(ctx, now, ctx.signedItems[i].tx)
  {
    var s1 := [Bytes(name)];
    Zfi1NameStep(name, ctx, now);
    assert Zfi1Ops[0] == Mnemonic(IsNameUsed) && Zfi1Ops[1] == Mnemonic(ContinueTrue);
    assert Zfi1Ops[1..][1..] == Zfi1Ops[2..];
    RunFromCons(s1, Zfi1Ops, ctx, now, Some(ReturnedNothing));
    match FirstClaim(ctx.signedItems, ctx.current.strTx, name)
    case None =>
      assert NameStep(s1, ctx).stack == [Num(0.0)];
      Zfi1ContinueStep("", ctx, now);
      RunFromCons([Num(0.0)], Zfi1Ops[1..], ctx, now, Some(ReturnedTrue));
    case Some(i) =>
      var tx := ctx.signedItems[i].tx;
      assert NameStep(s1, ctx).stack == [Str(tx), Num(1.0)];
      Zfi1ContinueStep(tx, ctx, now);
      RunFromCons([Str(tx), Num(1.0)], Zfi1Ops[1..], ctx, now, Some(ReturnedTrue));
      Zfi1EpochSteps(tx, ctx, now);
  }

  /**
   * Running a script of the ZFI-1 shape whose first token is a name literal: when no other
   * conforming item claims the name, the script is discontinued and valid (result 1); otherwise the
   * result is whether the other item's timestamp is later than this item's chain epoch.
   */
  lemma Zfi1Execution(script: string, ctx: Context, now: int)
    requires Conforms(ParseScript(script), ParseScript(Zfi1.structure))
    requires OpcodeOf(ParseScript(script)[0]).None? && |Util.HexDecode(ParseScript(script)[0])| > 0
    ensures var name := Util.HexDecode(ParseScript(script)[0]);
            var r := ExecuteSpec(script, ctx, now);
            match FirstClaim(ctx.signedItems, ctx.current.strTx, name)
            case None => r == ExecResult(Val(Num(1.0)), DiscontinuedText, true)
            case Some(i) => r == Zfi1Verdict(ctx, now, ctx.signedItems[i].tx)
  {
    var tokens := ParseScript(script);
    var name := Util.HexDecode(tokens[0]);
    Zfi1Shape(tokens);
    assert tokens[1..] == Zfi1Ops by {
      assert tokens[1..] == Zfi1Template()[1..];
      Zfi1OpsInTemplate();
    }
    assert script != "" && |tokens| == 6;
    assert ExecuteSpec(script, ctx, now) == Report(Run([], tokens, ctx, now));
    assert tokens == [tokens[0]] + Zfi1Ops;
    assert !IsNumberLiteral(tokens[0]);
    ByteLiteralContinues([], tokens[0], Zfi1Ops, ctx, now, None);
    var o := RunFrom([Bytes(name)], Zfi1Ops, ctx, now, Some(ReturnedNothing));
    var empty: seq<Value> := [];
    assert empty + [Bytes(name)] == [Bytes(name)];
    assert Run(empty, tokens, ctx, now) == RunFrom(empty, [tokens[0]] + Zfi1Ops, ctx, now, None);
    assert Run([], tokens, ctx, now) == o;
    assert ExecuteSpec(script, ctx, now) == Report(o);
    Zfi1NameSteps(name, ctx, now);
  }
}
