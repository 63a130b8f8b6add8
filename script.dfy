/**
 * The static side of the Forge scripting language (`lib/script.js`): the opcode table,
 * the ZFI standards registry, the tokenizer, the structural conformance check against a
 * standard's template, and the scan for contextual opcodes.
 */
module Script {
  import opened Wrappers
  import opened JsText
  import opened Numeric
  import Util

  /** The instructions of the language, one per entry of the source's `opcodes` table. */
  datatype Opcode =
    | Add | Sub | Mul | Div | Dup
    | Equal | LessThan | GreaterThan | ContinueTrue
    | Epoch | ChainEpoch
    | GetBestBlk | IsNameUsed | GetItemEpoch

  /** The token that spells each opcode. */
  function Mnemonic(op: Opcode): string {
    match op
    case Add => "ADD"
    case Sub => "SUB"
    case Mul => "MUL"
    case Div => "DIV"
    case Dup => "DUP"
    case Equal => "EQUAL"
    case LessThan => "LESSTHAN"
    case GreaterThan => "GREATERTHAN"
    case ContinueTrue => "CONTINUETRUE"
    case Epoch => "EPOCH"
    case ChainEpoch => "CHAINEPOCH"
    case GetBestBlk => "GETBESTBLK"
    case IsNameUsed => "ISNAMEUSED"
    case GetItemEpoch => "GETITEMEPOCH"
  }

  /** The opcode a token names, if any: an exact, case-sensitive match of its mnemonic. */
  function OpcodeOf(token: string): (r: Option<Opcode>)
    ensures r.Some? ==> Mnemonic(r.value) == token
    ensures r.None? ==> forall op :: Mnemonic(op) != token
  {
    if token == "ADD" then Some(Add)
    else if token == "SUB" then Some(Sub)
    else if token == "MUL" then Some(Mul)
    else if token == "DIV" then Some(Div)
    else if token == "DUP" then Some(Dup)
    else if token == "EQUAL" then Some(Equal)
    else if token == "LESSTHAN" then Some(LessThan)
    else if token == "GREATERTHAN" then Some(GreaterThan)
    else if token == "CONTINUETRUE" then Some(ContinueTrue)
    else if token == "EPOCH" then Some(Epoch)
    else if token == "CHAINEPOCH" then Some(ChainEpoch)
    else if token == "GETBESTBLK" then Some(GetBestBlk)
    else if token == "ISNAMEUSED" then Some(IsNameUsed)
    else if token == "GETITEMEPOCH" then Some(GetItemEpoch)
    else None
  }

  /** Every mnemonic is recognised as its own opcode, so distinct opcodes have distinct mnemonics. */
  lemma OpcodeOfMnemonic(op: Opcode)
    ensures OpcodeOf(Mnemonic(op)) == Some(op)
  {
  }

  /** Placeholders a standard's template uses for one native (literal) token. */
  const NativeString: string := "{native_string}"
  const NativeNumber: string := "{native_number}"

  /** A published contract standard: the token structure its validation script must have. */
  datatype Standard = Standard(structure: string)

  /**
   * ZFI-1: names are first-come-first-served. Push the name, look it up, stop (valid) when it is
   * unused, otherwise fetch the other item's epoch and this item's chain epoch and compare.
   * The text is the source's, grouped word by word.
   */
  const Zfi1: Standard :=
    Standard(NativeString + " " + ("ISNAMEUSED" + " " + ("CONTINUETRUE" + " " + ("GETITEMEPOCH" + " " + ("CHAINEPOCH" + " " + "GREATERTHAN")))))

  /** `parseScript`: split on single spaces; no trimming, no validation. */
  function ParseScript(script: string): (tokens: seq<string>)
    ensures |tokens| >= 1 && Join(tokens) == script
    ensures forall k :: 0 <= k < |tokens| ==> ' ' !in tokens[k]
  {
    JoinSplit(script);
    Split(script)
  }

  /** The tokens of the ZFI-1 template. */
  function Zfi1Template(): seq<string> {
    [NativeString, "ISNAMEUSED", "CONTINUETRUE", "GETITEMEPOCH", "CHAINEPOCH", "GREATERTHAN"]
  }

  lemma Zfi1Tokens()
    ensures ParseScript(Zfi1.structure) == Zfi1Template()
  {
    var t := Zfi1Template();
    assert ' ' !in t[0] && ' ' !in t[1] && ' ' !in t[2] && ' ' !in t[3] && ' ' !in t[4] && ' ' !in t[5];
    SplitSixWords(t[0], t[1], t[2], t[3], t[4], t[5]);
  }

  /** One position of the conformance check: the rule the template token sets for the candidate token. */
  predicate PositionMatches(templateToken: string, token: string) {
    || (templateToken == NativeString && (StartsWith(token, Util.Marker) || !IsNumeral(token)))
    || (templateToken == NativeNumber && IsNumeral(token))
    || templateToken == token
  }

  /** A token list has the template's length and passes every position's rule. */
  predicate Conforms(tokens: seq<string>, template: seq<string>) {
    |tokens| == |template| && forall i :: 0 <= i < |template| ==> PositionMatches(template[i], tokens[i])
  }

  /** A script handed to the conformance check: text to be tokenized, or tokens already. */
  datatype ScriptArg = Text(text: string) | Tokens(tokens: seq<string>)

  function TokensOf(script: ScriptArg): seq<string> {
    match script
    case Text(s) => ParseScript(s)
    case Tokens(t) => t
  }

  /** The first `n` positions pass their rules. */
  predicate MatchesUpTo(tokens: seq<string>, template: seq<string>, n: nat)
    requires n <= |tokens| && n <= |template|
    decreases n
  {
    n == 0 || (MatchesUpTo(tokens, template, n - 1) && PositionMatches(template[n - 1], tokens[n - 1]))
  }

  lemma {:induction false} MatchesUpToAll(tokens: seq<string>, template: seq<string>, n: nat)
    requires n <= |tokens| && n <= |template|
    ensures MatchesUpTo(tokens, template, n) <==> forall j :: 0 <= j < n ==> PositionMatches(template[j], tokens[j])
    decreases n
  {
    if n > 0 {
      MatchesUpToAll(tokens, template, n - 1);
    }
  }

  /** `conformsToStandard(script, standard)`: a read-only walk that bails out at the first mismatch. */
  method ConformsToStandard(script: ScriptArg, standard: Standard) returns (r: bool)
    ensures r == Conforms(TokensOf(script), ParseScript(standard.structure))
  {
    var nScript := TokensOf(script);
    var nStandard := ParseScript(standard.structure);
    if |nScript| != |nStandard| {
      return false;
    }
    for i := 0 to |nStandard|
      invariant MatchesUpTo(nScript, nStandard, i)
    {
      var want, got := nStandard[i], nScript[i];
      if want == NativeString && (StartsWith(got, Util.Marker) || !IsNumeral(got)) {
        assert PositionMatches(want, got);
        continue;
      }
      if want == NativeNumber && IsNumeral(got) {
        assert PositionMatches(want, got);
        continue;
      }
      if want == got {
        assert PositionMatches(want, got);
        continue;
      }
      assert !PositionMatches(want, got);
      return false;
    }
    MatchesUpToAll(nScript, nStandard, |nStandard|);
    return true;
  }

  /** A token the string placeholder accepts: hex-marked, or not a numeral. */
  predicate IsStringToken(token: string) {
    StartsWith(token, Util.Marker) || !IsNumeral(token)
  }

  /** Six tokens: a string token, then the five opcodes of the ZFI-1 template, in order. */
  predicate HasZfi1Shape(tokens: seq<string>) {
    |tokens| == 6 && IsStringToken(tokens[0]) && tokens[1..] == Zfi1Template()[1..]
  }

  /** A script conforms to ZFI-1 exactly when it has the ZFI-1 shape. */
  lemma Zfi1Shape(tokens: seq<string>)
    ensures Conforms(tokens, ParseScript(Zfi1.structure)) <==>
      |tokens| == 6 && IsStringToken(tokens[0]) && tokens[1..] == Zfi1Template()[1..]
    ensures Conforms(tokens, ParseScript(Zfi1.structure)) <==> HasZfi1Shape(tokens)
  {
    Zfi1Tokens();
    if HasZfi1Shape(tokens) {
      ShapeConforms(tokens);
    }
    if Conforms(tokens, Zfi1Template()) {
      ConformsShape(tokens);
    }
  }

  lemma ShapeConforms(tokens: seq<string>)
    requires HasZfi1Shape(tokens)
    ensures Conforms(tokens, Zfi1Template())
  {
    var t := Zfi1Template();
    forall i | 0 <= i < 6 ensures PositionMatches(t[i], tokens[i]) {
      if i > 0 { assert tokens[i] == tokens[1..][i - 1]; }
    }
  }

  lemma ConformsShape(tokens: seq<string>)
    requires Conforms(tokens, Zfi1Template())
    ensures HasZfi1Shape(tokens)
  {
    var t := Zfi1Template();
    forall i | 1 <= i < 6 ensures tokens[i] == t[i] {
      assert PositionMatches(t[i], tokens[i]);
    }
    assert tokens[1..] == t[1..];
  }

  /** The contextual opcodes, in the order the scan reports them. */
  const ContextualOpcodes: seq<Opcode> := [GetBestBlk, IsNameUsed, GetItemEpoch]

  /** Position of a contextual opcode in `ContextualOpcodes`. */
  function ContextualRank(op: Opcode): nat {
    match op
    case GetBestBlk => 0
    case IsNameUsed => 1
    case GetItemEpoch => 2
    case _ => 3
  }

  /**
   * `containsContextualCodes(script)`: which contextual opcode names occur in the script text
   * (as substrings, not as tokens), in table order; `None` (the source's `null`) when none does.
   */
  function ContainsContextualCodes(script: string): (r: Option<seq<Opcode>>)
    ensures r.None? <==>
              && !Occurs(script, Mnemonic(GetBestBlk))
              && !Occurs(script, Mnemonic(IsNameUsed))
              && !Occurs(script, Mnemonic(GetItemEpoch))
    ensures r.Some? ==>
              && |r.value| > 0
              && (GetBestBlk in r.value <==> Occurs(script, Mnemonic(GetBestBlk)))
              && (IsNameUsed in r.value <==> Occurs(script, Mnemonic(IsNameUsed)))
              && (GetItemEpoch in r.value <==> Occurs(script, Mnemonic(GetItemEpoch)))
              && (forall op :: op in r.value ==> op in ContextualOpcodes)
              && forall i, j :: 0 <= i < j < |r.value| ==> ContextualRank(r.value[i]) < ContextualRank(r.value[j])
  {
    var inBest, inName, inEpoch :=
      Includes(script, Mnemonic(GetBestBlk)), Includes(script, Mnemonic(IsNameUsed)), Includes(script, Mnemonic(GetItemEpoch));
    var found := Selected(inBest, inName, inEpoch);
    SelectedFacts(inBest, inName, inEpoch);
    if found == [] then None else Some(found)
  }

  /** The contextual opcodes whose flag is set, in table order. */
  function Selected(inBest: bool, inName: bool, inEpoch: bool): seq<Opcode> {
    (if inBest then [GetBestBlk] else []) +
    (if inName then [IsNameUsed] else []) +
    (if inEpoch then [GetItemEpoch] else [])
  }

  lemma SelectedFacts(inBest: bool, inName: bool, inEpoch: bool)
    ensures forall op :: op in Selected(inBest, inName, inEpoch) <==>
      (op == GetBestBlk && inBest) || (op == IsNameUsed && inName) || (op == GetItemEpoch && inEpoch)
    ensures forall op :: op in Selected(inBest, inName, inEpoch) ==> op in ContextualOpcodes
    ensures forall i, j :: 0 <= i < j < |Selected(inBest, inName, inEpoch)| ==>
      ContextualRank(Selected(inBest, inName, inEpoch)[i]) < ContextualRank(Selected(inBest, inName, inEpoch)[j])
  {
  }
}
