# Forge script machine, in Dafny

This project models the contract interpreter of ZENZO Forge, together with the hex and key helpers it relies on:

- **The Forge script language** (`lib/script.js`). A script is a line of space-separated tokens. Each token is an opcode (`ADD` … `GETITEMEPOCH`), a number literal, or a hex byte-string literal, optionally marked with `HEX:`. `execute` tokenizes the script. `evaluate` runs the tokens in order through the dispatcher `pushToStack`, which updates a stack and a `discontinue` flag. `execute` then turns the outcome into a `{result, text, success}` record.
- **The ZFI-1 standard.** This is the template `{native_string} ISNAMEUSED CONTINUETRUE GETITEMEPOCH CHAINEPOCH GREATERTHAN`. It gives first-come-first-served unique item names. `conformsToStandard` checks a script against it, position by position.
- **The helpers in `lib/util.js`.** `hexEncode` and `hexDecode` translate text to hex with an optional `HEX:` marker. `recoverContractString` extracts one token of a script and decodes it. `areKeysValid` is a key whitelist check.

## Modules

| file | module | contents |
|---|---|---|
| `wrappers.dfy` | `Wrappers` | `Option` |
| `jstext.dfy` | `JsText` | JavaScript string operations the source uses: `split(" ")`, with join as the model's inverse of it; the first-occurrence search behind `replace`; `includes`; and `replace` of the first occurrence |
| `numeric.dfy` | `Numeric` | reading a decimal numeral (`Number(s)` on the numerals this model admits), and the rounding of `pInt` to 6 decimals |
| `buffers.dfy` | `Buffers` | bytes, UTF-8 encoding, and Node's `toString("hex")` / `Buffer.from(s, "hex")` |
| `util.dfy` | `Util` | `hexEncode`, `hexDecode`, `recoverContractString`, `areKeysValid` |
| `script.dfy` | `Script` | the opcode table, the ZFI-1 standard, `parseScript`, `conformsToStandard`, `containsContextualCodes` |
| `machine.dfy` | `Machine` | the stack values and the context; specification functions `Step` (one token), `Run` (the token loop) and `ExecuteSpec` (a whole script); the class `Vm`, whose stack and flag the methods `PushToStack`, `Evaluate` and `Execute` update |
| `machine_facts.dfy` | `MachineFacts` | the stack shape each opcode leaves, the literal rules, the outcomes of `execute`, and the end-to-end run of a ZFI-1 script |
| `scenarios.dfy` | `Scenarios` | two whole scripts worked through, and one machine reused for consecutive scripts |
| `findings.dfy` | `Findings` | `execute` as written, which throws when the last token is a byte literal |

## Design

- **Machine state.** The source keeps the stack and the `discontinue` flag in module globals (`lib/script.js:73`, `lib/script.js:159`). Here they are the fields of a `Vm` object. `Vm.Idle()` (empty stack, flag down) holds before and after every `Execute`. One object therefore serves consecutive scripts without one run seeing another's stack (`Scenarios.ExecuteTwice`). The source as written loses this isolation after a script that throws (see Findings).
- **Values.** A stack entry is a number (`Num`, an exact real), a byte string (`Bytes`), or a transaction id string (`Str`). The extra value `NonFinite` stands for the NaN or infinity that a division by zero yields; it is not a number for the operand checks. The source's `isNaN(x)` operand check is read as "is a `Num`".
- **Byte identity.** Buffers compare with `===`, which is identity. Every byte string on the stack is a distinct object: each literal allocates a new Buffer, and `DUP` deep-clones. So `EQUAL` of two byte strings is always 0.
- **Injected inputs.** The wall clock `Math.floor(Date.now() / 1000)` is the parameter `now`. The context object `contextualData` is the datatype `Context`: `bestBlock`, `signedItems`, and `this`, renamed `current`.
- **Numbers.** `pInt` is modelled as rounding half away from zero to 6 decimal places, on exact reals. A numeral is an optional sign, then decimal digits with at most one `.`. The empty token reads as 0, because `Number("")` is 0.
- **Hex.** Hex decoding decodes the longest prefix of valid digit pairs, as Node does. Upper- and lower-case digits are both accepted.

Behaviour of the source worth knowing, which the model follows:

- A division by zero does not fail. It pushes a non-finite value.
- `Join(ParseScript(s)) == s` holds for every script, not only for scripts without doubled, leading or trailing spaces. Doubled spaces give empty tokens, which read as 0.
- GETITEMEPOCH accepts any 64-character string. Nothing checks that it is hexadecimal.
- `execute`'s "Script is an empty string" branch (`lib/script.js:137`) cannot be reached, because the empty script is already caught at line 135.

## Model

| member | source | states |
|---|---|---|
| JsText.StartsWith | lib/script.js:93 | Definition; no contract: `startsWith`, the pattern is a prefix of the string |
| JsText.IndexOf | lib/util.js:36 | the index found is the first occurrence of the pattern; `None` means it occurs nowhere |
| JsText.Includes | lib/script.js:113-115 | `includes` is true exactly when the pattern occurs somewhere in the string |
| JsText.RemoveFirst | lib/util.js:36 | `replace` with a string pattern cuts out the first occurrence only, and leaves a string without one unchanged |
| JsText.Split | lib/script.js:127-129 | `split(" ")` gives at least one token, and no token contains a space |
| JsText.SplitCount | lib/script.js:127-129 | the token count is the number of spaces plus one |
| JsText.SplitNoSpace | lib/script.js:142 | a script without a space is a single token |
| JsText.JoinSplit | lib/script.js:127-129 | rejoining the tokens with single spaces gives back the script, for every script |
| JsText.SplitJoin | lib/script.js:127-129 | splitting a join of space-free tokens gives back those tokens |
| JsText.SplitPrefix | lib/script.js:127-129 | a space-free word followed by a space splits off as the first token |
| JsText.Join | lib/script.js:127-129 | Definition; no contract: the tokens glued back with single spaces, the inverse of `split(" ")` |
| JsText.JoinCons | lib/script.js:127-129 | proof helper: joining puts exactly one space between the first token and the rest |
| JsText.SplitThreeWords | lib/script.js:127-129 | three space-free words joined by single spaces split back into those three words |
| JsText.SplitFourWords | lib/script.js:127-129 | the same for four words |
| JsText.SplitSixWords | lib/script.js:127-129 | the same for six words, the length of the ZFI-1 template |
| Numeric.DotIndex | lib/script.js:351 | the index found is the first `.` of the numeral, and `None` means it has no `.` |
| Numeric.ParseUnsigned | lib/script.js:119-121 | an unsigned numeral reads as a non-negative value |
| Numeric.ParseNumber | lib/script.js:351 | `Number("")` is 0, and a token that starts with neither sign, digit nor `.` is not a numeral |
| Numeric.DigitsValue | lib/script.js:351 | the decimal value of a digit run: the empty run is worth 0, and a run of k digits is worth less than 10^k |
| Numeric.ParseDigits | lib/script.js:351 | a run of digits reads as its decimal value, and with a leading `-` as minus that value |
| Numeric.IsNumeral | lib/script.js:351 | Definition; no contract: `Number(token)` is finite |
| Numeric.Round6 | lib/script.js:119-121 | Definition; no contract: `pInt`, rounding half away from zero to 6 decimals |
| Numeric.Round6Properties | lib/script.js:119-121 | `pInt` gives a whole number of millionths, at most half a millionth from its argument |
| Numeric.Round6Idempotent | lib/script.js:119-121 | rounding an already rounded number changes nothing |
| Numeric.Round6Integer | lib/script.js:355 | integers are unchanged by the rounding |
| Numeric.RoundOfMillionths | lib/script.js:119-121 | a number with at most 6 decimals is unchanged by the rounding |
| Buffers.EncodeChar | lib/script.js:311 | each character takes 1 to 4 bytes of UTF-8 |
| Buffers.Utf8 | lib/script.js:311 | a UTF-8 encoding is between one and four times as long as the text |
| Buffers.Utf8Ascii | lib/util.js:29 | ASCII text encodes as its own character codes, one byte each |
| Buffers.EncodeCharLead | lib/util.js:29 | the lead byte of a character's encoding determines the encoding's length |
| Buffers.EncodeCharInjective | lib/util.js:29 | two characters with the same encoding are equal |
| Buffers.Utf8Injective | lib/util.js:29 | two texts with the same UTF-8 encoding are equal, so on well-formed text (sequences of Unicode scalar values) `Buffer.from(s, "utf8")` loses nothing |
| Buffers.HexValue | lib/script.js:364 | a character's hex value is a nibble, and it is -1 exactly when the character is not a hex digit of either case |
| Buffers.HexDigitValue | lib/util.js:29 | each lower-case digit `toString("hex")` writes reads back as its own value |
| Buffers.ToHex | lib/util.js:29 | `toString("hex")` writes two characters per byte |
| Buffers.ToHexDigits | lib/util.js:29 | byte `i` becomes characters `2i` and `2i+1`: its high nibble's digit, then its low nibble's |
| Buffers.ToHexAlphabet | lib/util.js:29 | the hex text uses only the lower-case digits `0-9a-f` |
| Buffers.FromHex | lib/script.js:364 | `Buffer.from(s, "hex")` gives at most one byte per two characters |
| Buffers.FromToHex | lib/util.js:29 | decoding the hex text of a byte string gives back those bytes |
| Util.HexEncode | lib/util.js:28-31 | the output starts with `HEX:` exactly when a marker is asked for; after the marker it is the unmarked encoding; unmarked, it is two hex digits per UTF-8 byte, high nibble first |
| Util.HexText | lib/util.js:29 | unmarked hex text never starts with the marker, and byte `i` becomes the digits at `2i` and `2i+1` |
| Util.HexDecode | lib/util.js:34-38 | only the first `HEX:` occurrence is removed, wherever it is, and the rest is decoded; with no marker the whole text is decoded |
| Util.NoMarkerInHex | lib/util.js:28-31 | hex text never contains the marker |
| Util.HexDecodeMarked | lib/util.js:34-38 | a leading marker is removed and the remainder decoded |
| Util.HexDecodeDoubleMarker | lib/util.js:34-38 | a doubled marker keeps its second copy, which decodes to no bytes |
| Util.HexRoundTrip | lib/util.js:28-38 | `hexDecode(hexEncode(s, m))` gives the UTF-8 bytes of `s`, with or without the marker |
| Util.SpliceStart | lib/util.js:43 | `splice(pos, 1)` starts at `pos`, or counts a negative `pos` from the end, stopping at 0 |
| Util.RecoverContractString | lib/util.js:41-44 | the result decodes the token at `pos` of the split script; a negative `pos` counts from the end |
| Util.HexEncodeNoSpace | lib/util.js:28-31 | an encoded string contains no space, so it stays one token of a script |
| Util.NoSpaceConcat | lib/util.js:30 | prefixing the space-free marker to space-free hex text gives space-free text |
| Util.RecoverEmbeddedString | lib/util.js:41-44 | a string encoded into a script at position `k` is recovered from position `k`, as its UTF-8 bytes |
| Util.AreKeysValid | lib/util.js:14-21 | the result is all-valid exactly when every key is in the whitelist; otherwise it is the first key that is not |
| Script.OpcodeOf | lib/script.js:8-40 | a token is recognised exactly when it is some opcode's mnemonic |
| Script.OpcodeOfMnemonic | lib/script.js:8-40 | every mnemonic is recognised as its own opcode, so mnemonics are distinct |
| Script.ParseScript | lib/script.js:127-129 | the tokens are space-free, there is at least one, and rejoined they give the script |
| Script.Zfi1 | lib/script.js:58-67 | Definition; no contract: the ZFI-1 validation structure, the string placeholder followed by the five opcodes |
| Script.PositionMatches | lib/script.js:92-97 | Definition; no contract: the rule one template position applies to one token |
| Script.Conforms | lib/script.js:84-103 | Definition; no contract: equal lengths and every position's rule passed |
| Script.Zfi1Tokens | lib/script.js:58-67 | the ZFI-1 structure splits into the placeholder and the five opcodes |
| Script.ConformsToStandard | lib/script.js:84-103 | true exactly when the lengths agree and every position passes its rule: a string placeholder takes a marked or non-numeric token, a number placeholder a numeral, any other template token only itself |
| Script.Zfi1Shape | lib/script.js:84-103 | a token list conforms to ZFI-1 exactly when it has six tokens, the first marked or non-numeric, then `ISNAMEUSED CONTINUETRUE GETITEMEPOCH CHAINEPOCH GREATERTHAN` |
| Script.ShapeConforms | lib/script.js:90-101 | a token list of the ZFI-1 shape passes every position rule of the ZFI-1 template |
| Script.ConformsShape | lib/script.js:88-101 | a token list that passes the ZFI-1 template has six tokens and the template's five opcodes after the first |
| Script.ContainsContextualCodes | lib/script.js:111-117 | `None` exactly when none of GETBESTBLK, ISNAMEUSED, GETITEMEPOCH occurs as a substring; otherwise the list holds exactly those that occur, in that order |
| Script.SelectedFacts | lib/script.js:112-116 | the collected list holds an opcode exactly when its test passed, in the order of the tests |
| Machine.FirstClaim | lib/script.js:303-319 | the first item, in registry order, that is not this item, has a non-empty ZFI-1 validation script, and whose name's UTF-8 bytes are the operand; `None` when there is none |
| Machine.FirstWithTx | lib/script.js:333-341 | the first item whose transaction id is the operand; `None` when there is none |
| Machine.FindClaim | lib/script.js:303-319 | the item loop of ISNAMEUSED, with its three `continue`s and the `break`, finds exactly the first claiming item |
| Machine.FindTx | lib/script.js:333-341 | the item loop of GETITEMEPOCH finds exactly the first item with the operand's transaction id |
| Machine.StrictEquals | lib/script.js:227 | Definition; no contract: `===` on two stack entries, identity for byte strings and `undefined` for a missing entry |
| Machine.ClaimsName | lib/script.js:306-314 | Definition; no contract: an item other than this one, with a validation contract conforming to ZFI-1, whose name encodes to the operand |
| Machine.ChainEpochOf | lib/script.js:270-286 | Definition; no contract: this item's timestamp, or `now` when it is absent or -1 |
| Machine.BinaryStep | lib/script.js:184-249 | Definition; no contract: the arithmetic and comparison opcodes |
| Machine.NameStep | lib/script.js:299-327 | Definition; no contract: ISNAMEUSED |
| Machine.ItemEpochStep | lib/script.js:329-347 | Definition; no contract: GETITEMEPOCH |
| Machine.OpStep | lib/script.js:184-347 | Definition; no contract: the opcode branches of `pushToStack` |
| Machine.LiteralStep | lib/script.js:351-372 | Definition; no contract: the native number and byte-string branches of `pushToStack` |
| Machine.Step | lib/script.js:180-373 | Definition; no contract: `pushToStack`, opcodes first, then literals |
| Machine.RunFrom | lib/script.js:160-178 | Definition; no contract: the `evaluate` loop from a given point |
| Machine.Run | lib/script.js:160-178 | Definition; no contract: the `evaluate` loop from the first token |
| Machine.ExecuteSpec | lib/script.js:133-157 | Definition; no contract: `execute` on a fresh, empty stack |
| Machine.Report | lib/script.js:145-156 | Definition; no contract: the record `execute` builds from a dispatched run |
| Machine.StepOpcode | lib/script.js:184-347 | a token that is an opcode's mnemonic runs that opcode's branch |
| Machine.StepRefusalChangesNothing | lib/script.js:180-373 | a refused token leaves the stack as it was; a discontinue comes only from CONTINUETRUE, returns `true`, and leaves the stack as it was |
| Machine.OpRefusalChangesNothing | lib/script.js:184-347 | an opcode that returns `false` leaves the stack as it was, and only CONTINUETRUE raises the flag, leaving the stack as it was |
| Machine.LiteralRefusalChangesNothing | lib/script.js:351-372 | a refused literal leaves the stack as it was, and no literal raises the flag |
| Machine.Vm.BinaryOp | lib/script.js:184-249 | ADD/SUB/MUL/DIV/LESSTHAN/GREATERTHAN update the stack as `BinaryStep` says and do not touch the flag |
| Machine.Vm.IsNameUsedOp | lib/script.js:299-327 | ISNAMEUSED updates the stack as `NameStep` says and does not touch the flag |
| Machine.Vm.GetItemEpochOp | lib/script.js:329-347 | GETITEMEPOCH updates the stack as `ItemEpochStep` says and does not touch the flag |
| Machine.Vm.PushToStack | lib/script.js:180-373 | dispatching a token returns, leaves the stack and raises the flag exactly as `Step` says, with a raised flag staying raised |
| Machine.Vm.Evaluate | lib/script.js:160-178 | the loop ends with the stack of `Run`; the flag is up exactly when the run was discontinued; it returns the error record naming the refused token, or the last step's return value |
| Machine.Vm.Execute | lib/script.js:133-157 | from an idle machine, the result record is `ExecuteSpec`'s, and the machine is idle again afterwards, whichever exit is taken |
| MachineFacts.BinaryShape | lib/script.js:184-249 | binary opcodes fail exactly when entries 0 and 1 are not both numbers; otherwise both go from the front, the result is at the tail, and the stack is one shorter |
| MachineFacts.BinaryResults | lib/script.js:184-249 | ADD/SUB/MUL/DIV give a 6-decimal number within half a millionth of the exact result; DIV by zero, and only DIV by zero, gives a non-finite value; the comparisons give 1 or 0 |
| MachineFacts.RoundedResult | lib/script.js:184-216 | a result that is the rounding of an exact value has 6 decimals and lies within half a millionth of that value |
| MachineFacts.DivResult | lib/script.js:208-216 | DIV gives a non-finite value exactly when the divisor is 0, and otherwise the rounded quotient |
| MachineFacts.EqualShape | lib/script.js:226-232 | EQUAL never fails; with fewer than two entries it leaves an empty stack; otherwise entries 0 and 1 are replaced by the verdict at the tail |
| MachineFacts.EqualBytes | lib/script.js:227 | two byte strings are never EQUAL, whatever their contents |
| MachineFacts.EqualValues | lib/script.js:227 | a number or string is EQUAL to itself |
| MachineFacts.EqualNonFinite | lib/script.js:227 | EQUAL on two non-finite entries succeeds with 0, as `NaN === NaN` is false; for two infinities the source would give 1 (see Left out) |
| MachineFacts.DupShape | lib/script.js:218-223 | DUP fails exactly on the empty stack; otherwise it appends a copy of the tail and keeps the rest |
| MachineFacts.ContinueTrueShape | lib/script.js:251-261 | CONTINUETRUE fails exactly on the empty stack; a tail of 1 is popped; any other tail raises the flag and leaves the stack unchanged |
| MachineFacts.ClockAndChainShape | lib/script.js:264-295 | EPOCH pushes the clock; CHAINEPOCH pushes this item's timestamp, or the clock when it is absent or -1, and fails exactly when that is negative; GETBESTBLK fails exactly when the best block is missing, and pushes it otherwise |
| MachineFacts.IsNameUsedShape | lib/script.js:299-327 | ISNAMEUSED fails exactly unless the front is a non-empty byte string; then the front goes, and `[tx, 1]` of the first claiming item is appended, or `[0]` when none claims the name |
| MachineFacts.FirstClaimInsert | lib/script.js:305-319 | inserting a non-claiming item into the registry only shifts the index of the first claim |
| MachineFacts.FirstClaimConsClaim | lib/script.js:305-319 | proof helper: a registry whose first item claims the name finds it at index 0 |
| MachineFacts.FirstClaimConsSkip | lib/script.js:305-319 | proof helper: a first item that does not claim the name is skipped, and the index found in the rest moves up by one |
| MachineFacts.FirstClaimInsertStep | lib/script.js:305-319 | one step of the insertion proof: inserting behind the first item commutes with skipping or taking it |
| MachineFacts.IsNameUsedIgnoresNonClaims | lib/script.js:307-314 | adding an item ISNAMEUSED skips (this item, an item without a validation script, a non-ZFI-1 item, another name) anywhere in the registry changes nothing |
| MachineFacts.GetItemEpochShape | lib/script.js:329-347 | GETITEMEPOCH fails unless the tail is a 64-character string; it fails with no matching item, or when the first match's timestamp is missing or 0; otherwise the tail is replaced by that timestamp |
| MachineFacts.MarkedIsNoOpcode | lib/script.js:351-361 | a `HEX:`-marked token is never an opcode |
| MachineFacts.NumberLiteralShape | lib/script.js:351-358 | an unmarked numeral that is not an opcode pushes its value rounded to 6 decimals |
| MachineFacts.EmptyTokenIsZero | lib/script.js:351-358 | the empty token pushes 0 |
| MachineFacts.ByteLiteralShape | lib/script.js:361-372 | any other token pushes its hex decoding, after the first marker is removed; the step returns neither `true` nor `false`, and an empty decoding is refused |
| MachineFacts.ByteLiteralContinues | lib/script.js:171 | the byte branch's missing return value does not stop the token loop |
| MachineFacts.EncodedNameLiteral | lib/util.js:28-31 | a non-empty name written with `hexEncode(name, true)` is pushed back as the name's UTF-8 bytes |
| MachineFacts.StoppedAtContinueTrue | lib/script.js:251-256 | a run is discontinued only by a CONTINUETRUE of the script, and then its stack is non-empty with a tail that is not the number 1 |
| MachineFacts.NameStepKeepsRegistered | lib/script.js:320-325 | ISNAMEUSED puts on the stack only a transaction id copied from a signed item |
| MachineFacts.OpStepKeepsRegistered | lib/script.js:184-347 | no opcode puts a string on the stack that is not a signed item's transaction id |
| MachineFacts.StepKeepsRegistered | lib/script.js:180-373 | no token, opcode or literal, puts a string on the stack that is not a signed item's transaction id |
| MachineFacts.RunKeepsRegistered | lib/script.js:160-178 | the token loop keeps every string on the stack a signed item's transaction id |
| MachineFacts.RegisteredTxFound | lib/script.js:333-341 | when every string on the stack is a signed item's transaction id, the GETITEMEPOCH search finds a match |
| MachineFacts.GetItemEpochFindsItem | lib/script.js:342 | in a run of `execute`, a GETITEMEPOCH refused with a transaction id at the tail always had a matching item, so `foundItem` is never `null` there |
| MachineFacts.FailedTokenInScript | lib/script.js:171-172 | the token a failure names is one of the script's tokens |
| MachineFacts.SpacesZero | lib/script.js:142 | a script has no space exactly when its space count is 0 |
| MachineFacts.ExecuteRejection | lib/script.js:135-142 | `execute` rejects without dispatching exactly the scripts that hold no space, with "Script is empty" for the empty script and the too-few-params text otherwise |
| MachineFacts.ExecuteOutcomes | lib/script.js:144-156 | once dispatched, success holds exactly when no token failed; a discontinue gives 1; a failure names its token; otherwise the result is the oldest stack entry, or undefined on an empty stack |
| MachineFacts.Zfi1ChainSteps | lib/script.js:241-286 | CHAINEPOCH then GREATERTHAN on a timestamp give whether it is later than the chain epoch, or fail at CHAINEPOCH for a negative epoch |
| MachineFacts.Zfi1OpsInTemplate | lib/script.js:67 | the ZFI-1 template after its placeholder is the mnemonics of ISNAMEUSED, CONTINUETRUE, GETITEMEPOCH, CHAINEPOCH and GREATERTHAN |
| MachineFacts.Zfi1ChainEpochStep | lib/script.js:270-286 | CHAINEPOCH on a timestamp fails for a negative chain epoch, and otherwise appends it |
| MachineFacts.Zfi1CompareStep | lib/script.js:241-249 | GREATERTHAN on a timestamp and a chain epoch leaves just the verdict, 1 or 0 |
| MachineFacts.Zfi1ItemEpochStep | lib/script.js:329-347 | GETITEMEPOCH on a transaction id runs the GETITEMEPOCH branch |
| MachineFacts.Zfi1NameStep | lib/script.js:299-327 | ISNAMEUSED on the name's bytes runs the ISNAMEUSED branch |
| MachineFacts.Zfi1ContinueStep | lib/script.js:251-261 | CONTINUETRUE stops on the 0 of an unused name, and pops the 1 of a used one, leaving its transaction id |
| MachineFacts.Zfi1EpochSteps | lib/script.js:241-347 | the last three ZFI-1 steps from a transaction id give `Zfi1Verdict` |
| MachineFacts.Zfi1NameSteps | lib/script.js:251-327 | from the name's bytes, ZFI-1 discontinues when no item claims the name, and otherwise goes on with the claiming item's transaction id |
| MachineFacts.Zfi1Execution | lib/script.js:133-347 | a ZFI-1 script whose first token is a name literal gives 1 (discontinued, valid) when no other conforming item claims the name; otherwise its result is whether the other item's timestamp is later than this item's chain epoch, or a failure at GETITEMEPOCH or CHAINEPOCH |
| Scenarios.DiscontinueExample | lib/script.js:233-261 | `5 3 LESSTHAN CONTINUETRUE` is discontinued, with success and result 1, in any context |
| Scenarios.DiscontinueTokens | lib/script.js:127-129 | the tokens of `5 3 LESSTHAN CONTINUETRUE` |
| Scenarios.DiscontinueRun | lib/script.js:160-178 | the run of those tokens stops at CONTINUETRUE |
| Scenarios.DiscontinueLiterals | lib/script.js:351-358 | `5` then `3` push 5 and 3 |
| Scenarios.CompareStep | lib/script.js:233-240 | LESSTHAN on 5 and 3 leaves 0 |
| Scenarios.HaltStep | lib/script.js:251-261 | CONTINUETRUE on 0 raises the flag |
| Scenarios.AddExample | lib/script.js:184-191 | `1.123456789 2 ADD` gives 3.123457 |
| Scenarios.AddTokens | lib/script.js:127-129 | the tokens of `1.123456789 2 ADD` |
| Scenarios.ReadOneNumeral | lib/script.js:351 | `1.123456789` reads as that number |
| Scenarios.DigitsSnoc | lib/script.js:351 | proof helper: appending a digit multiplies a digit run's value by ten and adds the digit |
| Scenarios.NineDigits | lib/script.js:351 | `123456789` is worth 123456789 |
| Scenarios.AddRun | lib/script.js:160-191 | the run of those tokens ends with 3.123457 alone on the stack |
| Scenarios.AddLiterals | lib/script.js:351-358 | `1.123456789` pushes 1.123457 and `2` pushes 2 |
| Scenarios.AddOpcode | lib/script.js:184-191 | ADD on 1.123457 and 2 leaves 3.123457 |
| Scenarios.ExecuteTwice | lib/script.js:146-159 | two consecutive executions on one machine each give the result of a fresh execution |
| Findings.RunHasLastReturn | lib/script.js:162-177 | a loop that ran at least one step finishes with that step's return value |
| Findings.ExecuteAsWritten | lib/script.js:133-157 | `execute` as written throws exactly when a dispatched run ends normally after a byte literal; in every other case it agrees with `ExecuteSpec` |
| Findings.LiteralTokens | lib/script.js:127-129 | the tokens of `1 HEX:61` |
| Findings.MarkedByte | lib/util.js:34-38 | `HEX:61` decodes to the single byte 0x61 |
| Findings.LeadingOne | lib/script.js:351-358 | `1` pushes 1 |
| Findings.LiteralRun | lib/script.js:160-178 | the run of `1 HEX:61` ends normally with the byte step's missing return value |
| Findings.NumeralStep | lib/script.js:351-357 | a one-digit token pushes its value and returns true |
| Findings.LeftoverRun | lib/script.js:184-185 | on the stack `[1, bytes]` that the throw leaves behind, `2 3 ADD` pushes 2 and 3 and then fails at ADD, because entry 1 is a Buffer |
| Findings.FreshAddRun | lib/script.js:184-191 | on a fresh stack, `2 3 ADD` finishes with 5 alone on the stack |
| Findings.LastByteLiteralThrows | lib/script.js:150 | `1 HEX:61` makes `execute` as written throw, while `ExecuteSpec` reports success with result 1 |

## Left out

- Logging (`console.info`) and the `async`/`await` plumbing. These have no effect on results; evaluation is sequential.
- Concurrency. The source's module-level stack and flag are fields of one `Vm` object here. Interleaved executions on one shared state are not modelled.
- Floating point. Numbers are exact reals. `pInt`'s `Number(x).toFixed(6)` is modelled as exact rounding half away from zero, which can differ from the binary value `toFixed` rounds.
- NaN and the infinities collapse into the single value `NonFinite`, which is never a number, so arithmetic and the ordering comparisons on it fail. In the source, an infinity passes `isNaN` and can be used further. Besides `x / 0` with `x ≠ 0`, the source also gets Infinity from ADD, SUB or MUL of values beyond the double range, and from a numeral of more than about 309 digits. The model's exact reals never overflow, so there these give finite numbers. EQUAL never fails on `NonFinite`. It compares two `NonFinite` entries as unequal and pushes 0. The source agrees for NaN, since `NaN === NaN` is false. For two infinities the source gives 1, since `Infinity === Infinity` holds: `1 0 DIV DUP EQUAL` succeeds with 1 in the source and with 0 in the model (`MachineFacts.EqualNonFinite`).
- `Number(s)` parsing beyond signed decimal numerals: surrounding whitespace, exponents, `0x`/`0b`/`0o` prefixes and `Infinity` are not read as numbers here.
- JavaScript coercions in the operand checks. `isNaN` of a Buffer or string whose text looks numeric, and `+` on strings, are not modelled: only `Num` entries count as numbers.
- `Machine.ClaimsName`: does not model `conformsToStandard` being handed a validation script that is already a token array. Validation scripts are strings here.
- Script.ConformsToStandard: takes a string or a token list (the source's array case); other non-string inputs, which the source deep-clones, are not modelled.
- Util.RecoverContractString: requires `pos` to be less than the token count. At or past it, `splice` returns `[]`, and `hexDecode(undefined)` throws at `lib/util.js:36`; that throw is not modelled.
- One clock reading per run. The model passes a single `now` to a whole run, while the source reads `Date.now()` afresh at each EPOCH and at each CHAINEPOCH that falls back to the clock. So `EPOCH EPOCH EQUAL` always gives 1 in the model, whereas the source can give 0 when a second boundary passes between the two readings.
- `execute` on a non-string script ("Script is not a string"). Scripts are strings here.
- Machine.Vm.GetItemEpochOp: on a stack whose tail names no signed item, the source dereferences `null` (`lib/script.js:342`) and throws, where the model refuses the token. No run of `execute` reaches that case: a transaction id reaches the stack only through ISNAMEUSED, which copies it from a signed item (`MachineFacts.GetItemEpochFindsItem`).
- Machine.Vm.Execute: the exception thrown when the last token is a byte literal is not modelled (see Findings). The model reports such a run as a success.
- NaN timestamps in GETITEMEPOCH and CHAINEPOCH, and a NaN best block. Contextual numbers are integers or absent (`Option`), and absent plays the role of NaN.
- `hexDecode`'s final `toString("utf8")`. Decoding stops at the bytes, and the round trip is stated on UTF-8 bytes. Decoding arbitrary bytes back to text, with replacement characters, is not modelled.
- Node's hex decoder is modelled on the longest prefix of valid pairs. An odd trailing digit is dropped.
- The length check of GETITEMEPOCH counts Unicode scalar values, not UTF-16 code units.
- Strings are modelled as sequences of Unicode scalar values, so lone surrogates are not modelled. JavaScript strings are UTF-16 and can hold them. Node encodes a lone surrogate as EF BF BD, the bytes of U+FFFD, so on such strings the source's UTF-8 encoding is not injective.
- The order of object keys. `areKeysValid` takes the object's keys as a sequence, in entry order.
- The `scriptLeft` argument `evaluate` passes to `pushToStack`. No opcode reads it.
- `getOpcodes`, `getStandards` and `getStack`: trivial accessors of the constant tables and the stack.
- `sanitizeString`, `cleanItems` and `epoch` in `lib/util.js`: a regular expression, field deletion through a foreign method, and the clock.
- `lodash.cloneDeep`. Values are copied by value.

## Findings

| source | as written | input that shows it | evidently intended | confidence | as-written member | corrected member |
|---|---|---|---|---|---|---|
| lib/script.js:150 | `execute` reads `ret.error`, but a byte-literal step returns `undefined`, so a script whose last token is a byte literal throws a TypeError. The throw also skips the clearing of the stack (lines 151 and 155), so the next `execute` starts on the leftover entries, and `Scenarios.ExecuteTwice`'s isolation holds only for the corrected behaviour | `execute("1 HEX:61")`; afterwards `execute("2 3 ADD")` finds 1 and a Buffer at the front and fails at ADD (`Findings.LeftoverRun`), where on a fresh stack it gives 5 (`Findings.FreshAddRun`) | report the run like any other finished run: success, with the oldest stack entry as result | high (not executed) | Findings.LastByteLiteralThrows | MachineFacts.ExecuteOutcomes |
