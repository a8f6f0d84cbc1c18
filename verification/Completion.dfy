/** Completion of pod names: the candidates, their longest common prefix, and what the line becomes. */
module Completion {
  import opened Options
  import opened Utf8
  import opened LineEditor

  type Text = seq<byte>

  // ---- Candidates ----

  function Matching(strs: seq<Text>, s: Text): seq<Text> {
    if strs == [] then []
    else
      var init, last := Matching(strs[..|strs| - 1], s), strs[|strs| - 1];
      if s <= last then init + [last] else init
  }

  method FilterPrefix(strs: seq<Text>, s: Text) returns (r: seq<Text>)
    ensures r == Matching(strs, s)
  {
    r := [];
    for i := 0 to |strs|
      invariant r == Matching(strs[..i], s)
    {
      var v := strs[i];
      assert strs[..i + 1][..i] == strs[..i];
      if |v| >= |s| {
        if v[..|s|] == s {
          r := r + [v];
        }
      }
    }
    assert strs[..|strs|] == strs;
  }

  lemma {:induction false} MatchingExact(strs: seq<Text>, s: Text, v: Text)
    ensures v in Matching(strs, s) <==> v in strs && s <= v
  {
    if strs != [] {
      MatchingExact(strs[..|strs| - 1], s, v);
      assert strs == strs[..|strs| - 1] + [strs[|strs| - 1]];
    }
  }

  // ---- Longest common prefix ----

  ghost predicate IsCommon(strs: seq<Text>, p: Text) {
    forall i :: 0 <= i < |strs| ==> p <= strs[i]
  }

  /** A common prefix that every common prefix is a prefix of; there is at most one. */
  ghost predicate IsLongest(strs: seq<Text>, p: Text) {
    IsCommon(strs, p) && forall q :: IsCommon(strs, q) ==> q <= p
  }

  lemma LongestIsUnique(strs: seq<Text>, p: Text, q: Text)
    requires IsLongest(strs, p) && IsLongest(strs, q)
    ensures p == q
  {
    assert p <= q && q <= p;
  }

  /** isCommonPrefix, the closure */
  method IsCommonPrefix(strs: seq<Text>, length: nat) returns (yes: bool)
    requires strs != [] && forall i :: 0 <= i < |strs| ==> length <= |strs[i]|
    ensures yes == IsCommon(strs, strs[0][..length])
  {
    var str0 := strs[0][..length];
    for i := 1 to |strs|
      invariant forall j :: 0 <= j < i ==> str0 <= strs[j]
    {
      if strs[i][..length] != str0 {
        assert !(str0 <= strs[i]);
        return false;
      }
    }
    return true;
  }

  /** Shorter prefixes of a common prefix are common: what makes the binary search right. */
  lemma CommonIsMonotone(strs: seq<Text>, n: nat, m: nat)
    requires strs != [] && n <= m <= |strs[0]| && IsCommon(strs, strs[0][..m])
    ensures IsCommon(strs, strs[0][..n])
  {
    forall i | 0 <= i < |strs|
      ensures strs[0][..n] <= strs[i]
    {
      assert strs[0][..m] <= strs[i];
      assert strs[0][..n] == strs[0][..m][..n];
    }
  }

  method LongestCommonPrefix(strs: seq<Text>) returns (p: Text)
    ensures strs == [] ==> p == []
    ensures strs != [] ==> IsLongest(strs, p)
  {
    if |strs| == 0 {
      return [];
    }
    var minLength := |strs[0]|;
    for i := 0 to |strs|
      invariant minLength <= |strs[0]|
      invariant forall j :: 0 <= j < i ==> minLength <= |strs[j]|
      invariant exists j :: 0 <= j < |strs| && minLength == |strs[j]|
    {
      if |strs[i]| < minLength {
        minLength := |strs[i]|;
      }
    }
    var low, high := 0, minLength;
    while low < high
      invariant 0 <= low <= high <= minLength
      invariant IsCommon(strs, strs[0][..low])
      invariant forall n :: high < n <= minLength ==> !IsCommon(strs, strs[0][..n])
    {
      var mid := (high - low + 1) / 2 + low;
      var yes := IsCommonPrefix(strs, mid);
      if yes {
        low := mid;
      } else {
        forall n | mid <= n <= minLength
          ensures !IsCommon(strs, strs[0][..n])
        {
          if IsCommon(strs, strs[0][..n]) {
            CommonIsMonotone(strs, mid, n);
          }
        }
        high := mid - 1;
      }
    }
    p := strs[0][..low];
    forall q | IsCommon(strs, q)
      ensures q <= p
    {
      assert q <= strs[0] && forall j :: 0 <= j < |strs| ==> |q| <= |strs[j]|;
      assert q == strs[0][..|q|];
    }
  }

  // ---- The same as a function, for the callback ----

  predicate Shared(a: Text, b: Text, q: Text) {
    q <= a && q <= b
  }

  function Common(a: Text, b: Text): (p: Text)
    ensures Shared(a, b, p)
    ensures forall q :: Shared(a, b, q) ==> q <= p
    decreases |a|
  {
    if a == [] || b == [] || a[0] != b[0] then []
    else
      var rest := Common(a[1..], b[1..]);
      CommonCons(a, b, rest);
      [a[0]] + rest
  }

  lemma CommonCons(a: Text, b: Text, rest: Text)
    requires a != [] && b != [] && a[0] == b[0]
    requires Shared(a[1..], b[1..], rest)
    requires forall q :: Shared(a[1..], b[1..], q) ==> q <= rest
    ensures Shared(a, b, [a[0]] + rest)
    ensures forall q :: Shared(a, b, q) ==> q <= [a[0]] + rest
  {
    forall q | Shared(a, b, q)
      ensures q <= [a[0]] + rest
    {
      if q != [] {
        assert Shared(a[1..], b[1..], q[1..]);
        assert q[1..] <= rest && q == [a[0]] + q[1..];
      }
    }
  }

  function Lcp(strs: seq<Text>): Text
    requires strs != []
  {
    if |strs| == 1 then strs[0] else Common(strs[0], Lcp(strs[1..]))
  }

  lemma {:induction false} LcpIsLongest(strs: seq<Text>)
    requires strs != []
    ensures IsLongest(strs, Lcp(strs))
    decreases |strs|
  {
    if |strs| > 1 {
      LcpIsLongest(strs[1..]);
      var p, rest := Lcp(strs), Lcp(strs[1..]);
      forall i | 0 <= i < |strs|
        ensures p <= strs[i]
      {
        if i > 0 {
          assert rest <= strs[1..][i - 1];
        }
      }
      forall q | IsCommon(strs, q)
        ensures q <= p
      {
        assert q <= strs[0];
        assert IsCommon(strs[1..], q);
        assert Shared(strs[0], rest, q);
      }
    } else {
      assert forall q :: IsCommon(strs, q) ==> q <= strs[0];
    }
  }

  /** The binary search and the fold agree. */
  lemma SearchIsLcp(strs: seq<Text>, p: Text)
    requires strs != [] && IsLongest(strs, p)
    ensures p == Lcp(strs)
  {
    LcpIsLongest(strs);
    LongestIsUnique(strs, p, Lcp(strs));
  }

  // ---- The callback and the line ----

  /** The AutoCompletion callback for a list of suggestions, whatever the key. */
  function Complete(suggests: seq<Text>, line: Text): (c: LineEditor.Completion)
    ensures c.Some? ==> c.value.1 == |c.value.0|
  {
    var sugs := Matching(suggests, line);
    if |line| >= 1 && |sugs| >= 1 then Some((Lcp(sugs), |Lcp(sugs)|)) else None
  }

  /** There is a completion exactly when something was typed and some suggestion starts with it. */
  lemma CompletesExactly(suggests: seq<Text>, line: Text)
    ensures Complete(suggests, line).Some? <==> line != [] && exists v :: v in suggests && line <= v
  {
    hide Lcp, Matching;
    var sugs := Matching(suggests, line);
    if sugs != [] {
      MatchingExact(suggests, line, sugs[0]);
    }
    if v :| v in suggests && line <= v {
      MatchingExact(suggests, line, v);
    }
  }

  /** The completed text starts with the typed one, and every candidate starts with the completed text. */
  lemma CompletionExtends(suggests: seq<Text>, line: Text)
    requires Complete(suggests, line).Some?
    ensures var newLine := Complete(suggests, line).value.0;
            && line <= newLine
            && forall v :: v in suggests && line <= v ==> newLine <= v
  {
    var sugs := Matching(suggests, line);
    LcpIsLongest(sugs);
    forall i | 0 <= i < |sugs|
      ensures line <= sugs[i]
    {
      MatchingExact(suggests, line, sugs[i]);
    }
    assert IsCommon(sugs, line);
    forall v | v in suggests && line <= v
      ensures Lcp(sugs) <= v
    {
      MatchingExact(suggests, line, v);
      var i :| 0 <= i < |sugs| && sugs[i] == v;
    }
  }

  /** A byte position that does not lie inside a rune: the end, or in front of a byte that begins one. */
  predicate AtBoundary(v: Text, n: nat) {
    n == |v| || (n < |v| && !Tail(v[n]))
  }

  /** In well-formed text exactly the prefixes that end at such a position are well-formed. */
  lemma {:induction false} BoundaryPrefix(v: Text, n: nat)
    requires Valid(v) && n <= |v|
    ensures Valid(v[..n]) <==> AtBoundary(v, n)
    decreases |v|
  {
    if n == 0 {
      assert v[..0] == [];
      HeadIsNoTail(v);
    } else {
      var k := RuneLen(v);
      InsideIsTail(v);
      if n < k {
        ShortIsInvalid(v, n);
      } else {
        BoundaryPrefix(v[k..], n - k);
        RuneLenRestrict(v, n);
        assert v[..n][k..] == v[k..][..n - k];
        assert n < |v| ==> v[k..][n - k] == v[n];
      }
    }
  }

  lemma HeadIsNoTail(v: Text)
    requires Valid(v)
    ensures v != [] ==> !Tail(v[0])
  {
  }

  lemma ShortIsInvalid(v: Text, n: nat)
    requires 0 < n < RuneLen(v)
    ensures !Valid(v[..n])
  {
    assert v[..n][0] == v[0];
  }

  /**
   When a completion of well-formed names is whole: exactly when some candidate, and then every one, has a rune
   boundary where the common prefix ends.
   */
  lemma CompletionIsWhole(suggests: seq<Text>, line: Text)
    requires Complete(suggests, line).Some? && forall v :: v in suggests ==> Valid(v)
    ensures var newLine := Complete(suggests, line).value.0;
            && (Valid(newLine) <==> exists v :: v in suggests && line <= v && AtBoundary(v, |newLine|))
            && (Valid(newLine) <==> forall v :: v in suggests && line <= v ==> AtBoundary(v, |newLine|))
  {
    hide Complete, Valid, AtBoundary;
    var newLine := Complete(suggests, line).value.0;
    CompletionExtends(suggests, line);
    forall v | v in suggests && line <= v
      ensures Valid(newLine) <==> AtBoundary(v, |newLine|)
    {
      BoundaryPrefix(v, |newLine|);
      assert v[..|newLine|] == newLine;
    }
    SomeCandidate(suggests, line);
  }

  lemma SomeCandidate(suggests: seq<Text>, line: Text)
    requires Complete(suggests, line).Some?
    ensures exists v :: v in suggests && line <= v
  {
    var v := Matching(suggests, line)[0];
    MatchingExact(suggests, line, v);
  }

  /**
   In the editor: a key that completes leaves the cursor at the end of a line whose runes start with those
   typed. The line reads back as the completion exactly when that does not end inside a rune: for well-formed
   names, when one of those that match has a rune boundary there.
   */
  lemma CompletionInLine(t: Term, key: Rune, suggests: seq<Text>)
    requires t.InWidth()
    requires t.complete(Encode(t.before) + Encode(t.after), |Encode(t.before)|, key) == Complete(suggests, Encode(t.Line()))
    requires Complete(suggests, Encode(t.Line())).Some?
    ensures var newLine := Complete(suggests, Encode(t.Line())).value.0;
            var r := TypeKey(t, key);
            && r.after == []
            && Scalars(t.Line()) <= r.Line()
            && (Encode(r.Line()) == newLine <==> Valid(newLine))
            && ((forall v :: v in suggests ==> Valid(v)) ==>
                  (Encode(r.Line()) == newLine <==>
                     exists v :: v in suggests && Encode(t.Line()) <= v && AtBoundary(v, |newLine|)))
  {
    hide Lcp, Matching, Complete, WriteLine, WriteSpaces, MoveCursorToPos, Encode, Decode, Valid, Scalars, AtBoundary;
    var newLine := Complete(suggests, Encode(t.Line())).value.0;
    EncodeAppend(t.before, t.after);
    CompletionExtends(suggests, Encode(t.Line()));
    ExtendsInRunes(t.Line(), newLine);
    assert newLine[..|newLine|] == newLine;
    var runes := Decode(newLine);
    assert TypeKey(t, key).before == runes[..|runes|] == runes && TypeKey(t, key).after == runes[|runes|..] == [];
    assert TypeKey(t, key).Line() == runes;
    if forall v :: v in suggests ==> Valid(v) {
      CompletionIsWhole(suggests, Encode(t.Line()));
    }
  }

  /**
   Any callback: where it puts the cursor between two well-formed parts of its line, the editor puts it between their
   runes.
   */
  lemma CompletionPlaces(t: Term, key: Rune, left: Text, right: Text)
    requires t.InWidth() && Valid(left) && Valid(right)
    requires t.complete(Encode(t.before) + Encode(t.after), |Encode(t.before)|, key) == Some((left + right, |left|))
    ensures TypeKey(t, key).before == Decode(left) && TypeKey(t, key).after == Decode(right)
  {
    hide WriteLine, WriteSpaces, MoveCursorToPos, Encode, Decode, Valid;
    SplitValid(left, right);
    assert (left + right)[..|left|] == left;
  }

  /** Bytes that extend an encoded line decode to runes that extend the line. */
  lemma ExtendsInRunes(line: seq<Rune>, newLine: Text)
    requires Encode(line) <= newLine
    ensures Scalars(line) <= Decode(newLine)
    ensures Encode(Decode(newLine)) == newLine <==> Valid(newLine)
  {
    hide Encode, Decode, Valid, Scalars;
    var typed := Encode(line);
    var extra := newLine[|typed|..];
    DecodeEncode(line);
    assert newLine == typed + extra;
    SplitValid(typed, extra);
    ValidIffRoundTrip(newLine);
  }

  /** Candidates that part inside a rune: the completion is torn, and the line ends in U+FFFD. */
  lemma TornCompletion()
    ensures var suggests: seq<Text> := [[0x61, 0xC3, 0xA8], [0x61, 0xC3, 0xA9]];
            Complete(suggests, [0x61]) == Some(([0x61, 0xC3], 2))
    ensures !Valid([0x61, 0xC3]) && Decode([0x61, 0xC3]) == [0x61, RUNE_ERROR]
  {
    var a: Text, b: Text := [0x61, 0xC3, 0xA8], [0x61, 0xC3, 0xA9];
    BothMatch(a, b, [0x61]);
    TornPair(a, b);
    TornDecode();
  }

  lemma BothMatch(a: Text, b: Text, s: Text)
    requires s <= a && s <= b
    ensures Matching([a, b], s) == [a, b]
  {
    var none: seq<Text> := [];
    assert [a, b][..1] == [a] && [a][..0] == none;
    assert Matching(none, s) == none;
    assert Matching([a], s) == none + [a] == [a];
    assert [a] + [b] == [a, b];
  }

  lemma TornPair(a: Text, b: Text)
    requires a == [0x61, 0xC3, 0xA8] && b == [0x61, 0xC3, 0xA9]
    ensures Lcp([a, b]) == [0x61, 0xC3]
  {
    assert [a, b][1..] == [b] && Lcp([b]) == b;
    var p: Text := [0x61, 0xC3];
    assert Shared(a, b, p);
    var q := Common(a, b);
    assert p <= q && q <= a;
    if 2 < |q| {
      SharedAgrees(a, b, q, 2);
    }
    assert q == p;
  }

  lemma SharedAgrees(a: Text, b: Text, q: Text, n: nat)
    requires Shared(a, b, q) && n < |q|
    ensures n < |a| && n < |b| && a[n] == b[n]
  {
    assert a[n] == q[n];
  }

  lemma TornDecode()
    ensures !Valid([0x61, 0xC3]) && Decode([0x61, 0xC3]) == [0x61, RUNE_ERROR]
  {
    var c: Text, d: Text := [0x61, 0xC3], [0xC3];
    assert c[1..] == d && d[1..] == [];
    assert RuneLen(c) == 1 && RuneLen(d) == 0;
    assert Decode(d) == [RUNE_ERROR] + Decode([]);
    assert Decode([]) == [];
  }
}
