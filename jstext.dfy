/**
 * The few JavaScript string primitives the scripting engine relies on, stated on
 * `seq<char>`: `startsWith`, `indexOf`/`includes`, `replace` with a string pattern
 * (which replaces the FIRST occurrence only), and `split(" ")` with its inverse `join(" ")`.
 */
module JsText {
  import opened Wrappers

  /** `s.startsWith(p)` */
  predicate StartsWith(s: string, p: string) {
    |p| <= |s| && s[..|p|] == p
  }

  /** `p` occurs in `s` starting at index `i`. */
  predicate OccursAt(s: string, p: string, i: int) {
    0 <= i && i + |p| <= |s| && s[i..i + |p|] == p
  }

  /** `p` occurs somewhere in `s`. */
  ghost predicate Occurs(s: string, p: string) {
    exists i :: OccursAt(s, p, i)
  }

  lemma OccursAtShift(s: string, p: string, k: int)
    requires |s| > 0 && k >= 0
    ensures OccursAt(s[1..], p, k) <==> OccursAt(s, p, k + 1)
  {
    if 0 <= k && k + |p| <= |s| - 1 {
      assert s[1..][k..k + |p|] == s[k + 1..k + 1 + |p|];
    }
  }

  /** `s.indexOf(p)`, with `None` for JavaScript's -1: the first occurrence of `p` in `s`. */
  function IndexOf(s: string, p: string): (r: Option<nat>)
    ensures r.Some? ==> OccursAt(s, p, r.value) && forall j :: 0 <= j < r.value ==> !OccursAt(s, p, j)
    ensures r.None? ==> forall j :: !OccursAt(s, p, j)
    decreases |s|
  {
    if |p| > |s| then None
    else if s[..|p|] == p then Some(0)
    else
      match IndexOf(s[1..], p)
      case Some(k) =>
        assert OccursAt(s, p, k + 1) by { OccursAtShift(s, p, k); }
        assert forall j :: 0 < j <= k ==> !OccursAt(s, p, j) by {
          forall j | 0 < j <= k ensures !OccursAt(s, p, j) { OccursAtShift(s, p, j - 1); }
        }
        Some(k + 1)
      case None =>
        assert forall j :: !OccursAt(s, p, j) by {
          forall j ensures !OccursAt(s, p, j) { if j > 0 { OccursAtShift(s, p, j - 1); } }
        }
        None
  }

  /** `s.includes(p)` */
  function Includes(s: string, p: string): (r: bool)
    ensures r <==> Occurs(s, p)
  {
    IndexOf(s, p).Some?
  }

  /** `s.replace(p, "")`: removes the first occurrence of `p` and leaves the rest alone. */
  function RemoveFirst(s: string, p: string): (r: string)
    ensures Occurs(s, p) ==>
      exists i :: OccursAt(s, p, i) && (forall j :: 0 <= j < i ==> !OccursAt(s, p, j)) && r == s[..i] + s[i + |p|..]
    ensures !Occurs(s, p) ==> r == s
  {
    match IndexOf(s, p)
    case Some(i) => s[..i] + s[i + |p|..]
    case None => s
  }

  /** `script.split(" ")`: the tokens between single spaces. Never empty; a token never holds a space. */
  function Split(s: string): (r: seq<string>)
    ensures |r| >= 1
    ensures forall k :: 0 <= k < |r| ==> ' ' !in r[k]
    decreases |s|
  {
    if s == [] then [""]
    else
      var rest := Split(s[1..]);
      if s[0] == ' ' then [""] + rest
      else [[s[0]] + rest[0]] + rest[1..]
  }

  /** `tokens.join(" ")` */
  function Join(tokens: seq<string>): string {
    if |tokens| == 0 then ""
    else if |tokens| == 1 then tokens[0]
    else tokens[0] + " " + Join(tokens[1..])
  }

  lemma JoinCons(t: string, rest: seq<string>)
    requires |rest| >= 1
    ensures Join([t] + rest) == t + " " + Join(rest)
  {
    assert ([t] + rest)[1..] == rest;
  }

  /** Number of spaces in `s`. */
  function Spaces(s: string): nat {
    if s == [] then 0 else (if s[0] == ' ' then 1 else 0) + Spaces(s[1..])
  }

  /** Splitting yields one token more than there are separators. */
  lemma {:induction false} SplitCount(s: string)
    ensures |Split(s)| == Spaces(s) + 1
    decreases |s|
  {
    if s != [] { SplitCount(s[1..]); }
  }

  /** A script with no space is a single token: itself. */
  lemma {:induction false} SplitNoSpace(s: string)
    requires ' ' !in s
    ensures Split(s) == [s]
    decreases |s|
  {
    if s != [] {
      assert ' ' !in s[1..] by {
        forall k | 0 <= k < |s[1..]| ensures s[1..][k] != ' ' { assert s[1..][k] == s[k + 1]; }
      }
      SplitNoSpace(s[1..]);
      assert [s[0]] + s[1..] == s;
    }
  }

  /** Rejoining the tokens with single spaces gives back the script, whatever its spacing. */
  lemma {:induction false} JoinSplit(s: string)
    ensures Join(Split(s)) == s
    decreases |s|
  {
    if s != [] {
      var rest := Split(s[1..]);
      JoinSplit(s[1..]);
      if s[0] == ' ' {
        assert Split(s) == [""] + rest;
        assert (([""] + rest)[1..]) == rest;
        assert s == "" + " " + s[1..];
      } else if |rest| == 1 {
        assert Split(s) == [[s[0]] + rest[0]];
        assert s == [s[0]] + s[1..];
      } else {
        var t := [[s[0]] + rest[0]] + rest[1..];
        assert t[1..] == rest[1..];
        assert Join(rest) == rest[0] + " " + Join(rest[1..]);
        assert s == [s[0]] + s[1..];
      }
    }
  }

  /** Splitting the join of space-free tokens gives the tokens back. */
  lemma {:induction false} SplitJoin(tokens: seq<string>)
    requires |tokens| >= 1
    requires forall k :: 0 <= k < |tokens| ==> ' ' !in tokens[k]
    ensures Split(Join(tokens)) == tokens
    decreases |tokens|
  {
    if |tokens| == 1 {
      SplitNoSpace(tokens[0]);
    } else {
      SplitJoin(tokens[1..]);
      SplitPrefix(tokens[0], Join(tokens[1..]));
      assert [tokens[0]] + tokens[1..] == tokens;
    }
  }

  /** Splitting `w + " " + rest` for a space-free word `w`. */
  lemma {:induction false} SplitPrefix(w: string, rest: string)
    requires ' ' !in w
    ensures Split(w + " " + rest) == [w] + Split(rest)
    decreases |w|
  {
    if w == [] {
      assert w + " " + rest == [' '] + rest;
      assert ([' '] + rest)[1..] == rest;
    } else {
      var s := w + " " + rest;
      assert ' ' !in w[1..] by {
        forall k | 0 <= k < |w[1..]| ensures w[1..][k] != ' ' { assert w[1..][k] == w[k + 1]; }
      }
      SplitPrefix(w[1..], rest);
      assert s[1..] == w[1..] + " " + rest;
      assert s[0] == w[0];
      assert [w[0]] + w[1..] == w;
    }
  }

  /** Three space-free words joined by single spaces split back into those words. */
  lemma SplitThreeWords(a: string, b: string, c: string)
    requires ' ' !in a && ' ' !in b && ' ' !in c
    ensures Split(a + " " + (b + " " + c)) == [a, b, c]
  {
    SplitNoSpace(c);
    SplitPrefix(b, c);
    SplitPrefix(a, b + " " + c);
  }

  /** Four space-free words joined by single spaces split back into those words. */
  lemma SplitFourWords(a: string, b: string, c: string, d: string)
    requires ' ' !in a && ' ' !in b && ' ' !in c && ' ' !in d
    ensures Split(a + " " + (b + " " + (c + " " + d))) == [a, b, c, d]
  {
    SplitThreeWords(b, c, d);
    SplitPrefix(a, b + " " + (c + " " + d));
  }

  /** Six space-free words joined by single spaces split back into those words. */
  lemma SplitSixWords(a: string, b: string, c: string, d: string, e: string, f: string)
    requires ' ' !in a && ' ' !in b && ' ' !in c && ' ' !in d && ' ' !in e && ' ' !in f
    ensures Split(a + " " + (b + " " + (c + " " + (d + " " + (e + " " + f))))) == [a, b, c, d, e, f]
  {
    SplitNoSpace(f);
    SplitPrefix(e, f);
    SplitPrefix(d, e + " " + f);
    SplitPrefix(c, d + " " + (e + " " + f));
    SplitPrefix(b, c + " " + (d + " " + (e + " " + f)));
    SplitPrefix(a, b + " " + (c + " " + (d + " " + (e + " " + f))));
  }
}
