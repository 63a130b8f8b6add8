/**
 * The helpers of `lib/util.js` that the engine and its callers share: the hex
 * encoder/decoder pair with its optional `HEX:` marker, recovering a hex-encoded string
 * from a contract script, and the key whitelist check. Strings are handled at the byte
 * level: what `hexDecode` returns is modelled as the decoded bytes, before their final
 * UTF-8 interpretation.
 */
module Util {
  import opened JsText
  import opened Buffers
  import opened Wrappers

  /** The marker that forces a token to be read as hex rather than as a number. */
  const Marker: string := "HEX:"

  /** `hexEncode(str, withMarker)`: the UTF-8 bytes of `str` in hex, optionally marked. */
  function HexEncode(str: string, withMarker: bool): (r: string)
    ensures StartsWith(r, Marker) <==> withMarker
    ensures withMarker ==> r[|Marker|..] == HexEncode(str, false)
    ensures !withMarker ==> (|r| == 2 * |Utf8(str)| &&
      forall i :: 0 <= i < |Utf8(str)| ==>
        r[2 * i] == HexDigits[Utf8(str)[i] / 16] && r[2 * i + 1] == HexDigits[Utf8(str)[i] % 16])
  {
    var hex := ToHex(Utf8(str));
    HexText(Utf8(str));
    if withMarker then
      var r := Marker + hex;
      assert r[..|Marker|] == Marker && r[|Marker|..] == hex;
      r
    else hex
  }

  /** Hex text does not start with the marker, and byte `i` becomes the digits `2i` and `2i+1`. */
  lemma HexText(b: seq<byte>)
    ensures !StartsWith(ToHex(b), Marker)
    ensures forall i :: 0 <= i < |b| ==>
              ToHex(b)[2 * i] == HexDigits[b[i] / 16] && ToHex(b)[2 * i + 1] == HexDigits[b[i] % 16]
  {
    NoMarkerInHex(b);
    assert !OccursAt(ToHex(b), Marker, 0);
    forall i | 0 <= i < |b|
      ensures ToHex(b)[2 * i] == HexDigits[b[i] / 16] && ToHex(b)[2 * i + 1] == HexDigits[b[i] % 16]
    {
      ToHexDigits(b, i);
    }
  }

  /** `hexDecode(str)`: drop the first `HEX:` (wherever it is), then decode the hex digits. */
  function HexDecode(str: string): (b: seq<byte>)
    ensures Occurs(str, Marker) ==>
              exists i :: OccursAt(str, Marker, i) && (forall j :: 0 <= j < i ==> !OccursAt(str, Marker, j)) &&
                          b == FromHex(str[..i] + str[i + |Marker|..])
    ensures !Occurs(str, Marker) ==> b == FromHex(str)
  {
    FromHex(RemoveFirst(str, Marker))
  }

  /** Hex text holds no marker, since neither 'H' nor ':' is a lower-case hex digit. */
  lemma NoMarkerInHex(b: seq<byte>)
    ensures !Occurs(ToHex(b), Marker)
  {
    var h := ToHex(b);
    ToHexAlphabet(b);
    assert 'H' !in HexDigits;
    forall i ensures !OccursAt(h, Marker, i) {
      if 0 <= i && i + |Marker| <= |h| {
        assert h[i..i + |Marker|][0] == h[i] != 'H';
      }
    }
  }

  /** A leading marker is the one removed, whatever follows it. */
  lemma HexDecodeMarked(h: string)
    ensures HexDecode(Marker + h) == FromHex(h)
  {
    var s := Marker + h;
    assert s[..|Marker|] == Marker;
    assert IndexOf(s, Marker) == Some(0);
    assert RemoveFirst(s, Marker) == s[|Marker|..] == h;
  }

  /** Only the first marker is removed: a doubled marker leaves the second one, which stops decoding. */
  lemma HexDecodeDoubleMarker(h: string)
    ensures HexDecode(Marker + Marker + h) == []
  {
    assert Marker + Marker + h == Marker + (Marker + h);
    HexDecodeMarked(Marker + h);
  }

  /** Round trip: decoding the encoding of a string gives back its UTF-8 bytes, with or without marker. */
  lemma HexRoundTrip(str: string, withMarker: bool)
    ensures HexDecode(HexEncode(str, withMarker)) == Utf8(str)
  {
    var hex := ToHex(Utf8(str));
    FromToHex(Utf8(str));
    if withMarker {
      assert HexEncode(str, true) == Marker + hex;
      HexDecodeMarked(hex);
    } else {
      NoMarkerInHex(Utf8(str));
    }
  }

  /** The start index `Array.prototype.splice(pos, 1)` uses on an array of length `n`. */
  function SpliceStart(pos: int, n: nat): (i: nat)
    requires 0 < n && pos < n
    ensures i < n
    ensures 0 <= pos ==> i == pos
    ensures pos < 0 && n + pos >= 0 ==> i == n + pos
    ensures n + pos < 0 ==> i == 0
  {
    if pos >= 0 then pos else if n + pos >= 0 then n + pos else 0
  }

  /**
   * `recoverContractString(script, pos)`: decode the token spliced out at `pos`. A position at
   * or past the last token makes the source call `replace` on `undefined`, so it is excluded;
   * a negative position counts from the end, as `splice` does.
   */
  function RecoverContractString(script: string, pos: int): (b: seq<byte>)
    requires pos < |Split(script)|
    ensures 0 <= pos ==> b == HexDecode(Split(script)[pos])
    ensures pos < 0 ==> b == HexDecode(Split(script)[SpliceStart(pos, |Split(script)|)])
  {
    var tokens := Split(script);
    HexDecode(tokens[SpliceStart(pos, |tokens|)])
  }

  /** Hex-encoded text never holds a space. */
  lemma HexEncodeNoSpace(str: string, withMarker: bool)
    ensures ' ' !in HexEncode(str, withMarker)
  {
    var hex := ToHex(Utf8(str));
    ToHexAlphabet(Utf8(str));
    assert ' ' !in HexDigits;
    assert ' ' !in hex by {
      forall k | 0 <= k < |hex| ensures hex[k] != ' ' {
        assert hex[k] in HexDigits;
      }
    }
    if withMarker {
      assert HexEncode(str, true) == Marker + hex;
      NoSpaceConcat(Marker, hex);
    }
  }

  lemma NoSpaceConcat(a: string, b: string)
    requires ' ' !in a && ' ' !in b
    ensures ' ' !in a + b
  {
    forall k | 0 <= k < |a + b| ensures (a + b)[k] != ' ' {
      if k < |a| { assert (a + b)[k] == a[k]; } else { assert (a + b)[k] == b[k - |a|]; }
    }
  }

  /** A string hex-encoded into a contract at token position `|before|` is recovered as its UTF-8 bytes. */
  lemma RecoverEmbeddedString(before: seq<string>, str: string, withMarker: bool, after: seq<string>)
    requires forall k :: 0 <= k < |before| ==> ' ' !in before[k]
    requires forall k :: 0 <= k < |after| ==> ' ' !in after[k]
    ensures |before| < |Split(Join(before + [HexEncode(str, withMarker)] + after))|
    ensures RecoverContractString(Join(before + [HexEncode(str, withMarker)] + after), |before|) == Utf8(str)
  {
    var tokens := before + [HexEncode(str, withMarker)] + after;
    HexEncodeNoSpace(str, withMarker);
    assert forall k :: 0 <= k < |tokens| ==> ' ' !in tokens[k] by {
      forall k | 0 <= k < |tokens| ensures ' ' !in tokens[k] {
        if k < |before| { assert tokens[k] == before[k]; }
        else if k > |before| { assert tokens[k] == after[k - |before| - 1]; }
      }
    }
    SplitJoin(tokens);
    assert tokens[|before|] == HexEncode(str, withMarker);
    HexRoundTrip(str, withMarker);
  }

  /** What `areKeysValid` returns: `true`, or the first key that is not in the whitelist. */
  datatype KeyCheck = AllValid | InvalidKey(key: string)

  /**
   * `areKeysValid(validKeys, obj)`, with `obj` given by its keys in `Object.entries` order:
   * every key must be whitelisted, else the first offending key is reported.
   */
  method AreKeysValid(validKeys: seq<string>, keys: seq<string>) returns (r: KeyCheck)
    ensures r.AllValid? <==> forall k :: 0 <= k < |keys| ==> keys[k] in validKeys
    ensures r.InvalidKey? ==>
              exists i :: 0 <= i < |keys| && keys[i] == r.key && keys[i] !in validKeys &&
                          forall j :: 0 <= j < i ==> keys[j] in validKeys
  {
    for i := 0 to |keys|
      invariant forall j :: 0 <= j < i ==> keys[j] in validKeys
    {
      if keys[i] !in validKeys {
        return InvalidKey(keys[i]);
      }
    }
    return AllValid;
  }
}
