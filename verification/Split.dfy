/** The `split` helper that cuts the list of manager addresses. */
module Split {

  predicate Occurs(s: string, d: string, i: nat) {
    i + |d| <= |s| && s[i..i + |d|] == d
  }

  ghost predicate Contains(s: string, d: string) {
    exists i :: Occurs(s, d, i)
  }

  /** string::find: the first occurrence at or after `from`, or -1 for npos. */
  function Find(s: string, d: string, from: nat): (r: int)
    ensures r >= 0 ==> from <= r && Occurs(s, d, r) && forall i :: from <= i < r ==> !Occurs(s, d, i)
    ensures r < 0 ==> r == -1 && forall i :: from <= i ==> !Occurs(s, d, i)
    decreases |s| - from
  {
    if from + |d| > |s| then -1
    else if Occurs(s, d, from) then from
    else if from == |s| then -1
    else Find(s, d, from + 1)
  }

  /** The pieces of s from position `from` on. */
  function Tokens(s: string, d: string, from: nat): seq<string>
    requires d != "" && from <= |s|
    decreases |s| - from
  {
    var end := Find(s, d, from);
    if end < 0 then [s[from..]] else [s[from..end]] + Tokens(s, d, end + |d|)
  }

  /** split */
  method SplitAt(s: string, delimiter: string) returns (res: seq<string>)
    requires delimiter != ""
    ensures res == Tokens(s, delimiter, 0)
  {
    var posStart := 0;
    res := [];
    var posEnd := Find(s, delimiter, posStart);
    while posEnd >= 0
      invariant 0 <= posStart <= |s| && posEnd == Find(s, delimiter, posStart)
      invariant res + Tokens(s, delimiter, posStart) == Tokens(s, delimiter, 0)
      decreases |s| - posStart
    {
      var token := s[posStart..posEnd];
      posStart := posEnd + |delimiter|;
      res := res + [token];
      posEnd := Find(s, delimiter, posStart);
    }
    res := res + [s[posStart..]];
  }

  function Join(tokens: seq<string>, d: string): string
    requires tokens != []
  {
    if |tokens| == 1 then tokens[0] else tokens[0] + d + Join(tokens[1..], d)
  }

  /** Joining the pieces gives the string back. */
  lemma {:induction false} JoinTokens(s: string, d: string, from: nat)
    requires d != "" && from <= |s|
    ensures Tokens(s, d, from) != [] && Join(Tokens(s, d, from), d) == s[from..]
    decreases |s| - from
  {
    var end := Find(s, d, from);
    if end >= 0 {
      JoinTokens(s, d, end + |d|);
      var rest := Tokens(s, d, end + |d|);
      assert Tokens(s, d, from)[1..] == rest;
      assert s[from..] == s[from..end] + d + s[end + |d|..];
    }
  }

  /** No piece contains the delimiter. */
  lemma {:induction false} TokensAreFree(s: string, d: string, from: nat, token: string)
    requires d != "" && from <= |s| && token in Tokens(s, d, from)
    ensures !Contains(token, d)
    decreases |s| - from
  {
    var end := Find(s, d, from);
    var stop := if end < 0 then |s| else end;
    if token == s[from..stop] {
      forall i: nat ensures !Occurs(token, d, i) {
        if Occurs(token, d, i) {
          assert s[from + i..from + i + |d|] == token[i..i + |d|];
          assert Occurs(s, d, from + i);
        }
      }
    } else {
      TokensAreFree(s, d, end + |d|, token);
    }
  }

  // ---------------------------------------------------------------- when splitting undoes joining

  /** Some proper beginning of d is also an end of d. */
  ghost predicate Bordered(d: string) {
    exists k :: 0 < k < |d| && d[..k] == d[|d| - k..]
  }

  ghost predicate Free(tokens: seq<string>, d: string) {
    forall t {:trigger t in tokens} :: t in tokens ==> !Contains(t, d)
  }

  /** An occurrence that begins inside `first` lies inside it or overlaps the joint. */
  lemma AcrossJoint(before: string, first: string, d: string, more: string, i: nat)
    requires |before| <= i < |before| + |first|
    ensures Occurs(before + first + d + more, d, i) ==> Contains(first, d) || Bordered(d)
  {
    var s, end := before + first + d + more, |before| + |first|;
    if Occurs(s, d, i) {
      if i + |d| <= end {
        assert first[i - |before|..i - |before| + |d|] == s[i..i + |d|];
        assert Occurs(first, d, i - |before|);
      } else {
        var k := i + |d| - end;
        assert d[|d| - k..] == s[i..i + |d|][|d| - k..] == s[end..end + k];
        assert d[..k] == s[end..end + k];
      }
    }
  }

  lemma JointParts(before: string, first: string, d: string, more: string)
    ensures var s, end := before + first + d + more, |before| + |first|;
      && s[|before|..end] == first && Occurs(s, d, end)
      && |before| + |first| + |d| == |before + first + d| <= |s|
  {
    var s, end := before + first + d + more, |before| + |first|;
    assert s[|before|..end] == first;
    assert s[end..end + |d|] == d;
  }

  /** Where the first occurrence is, Find finds it. */
  lemma FindIs(s: string, d: string, from: nat, end: nat)
    requires from <= end && Occurs(s, d, end) && forall i :: from <= i < end ==> !Occurs(s, d, i)
    ensures Find(s, d, from) == end
  {
  }

  lemma FirstToken(before: string, first: string, d: string, more: string)
    requires d != "" && !Contains(first, d) && !Bordered(d)
    ensures var s := before + first + d + more;
      Tokens(s, d, |before|) == [first] + Tokens(s, d, |before + first + d|)
  {
    hide Find, Occurs, Contains, Bordered;
    var s, end := before + first + d + more, |before| + |first|;
    JointParts(before, first, d, more);
    forall i | |before| <= i < end ensures !Occurs(s, d, i) { AcrossJoint(before, first, d, more, i); }
    FindIs(s, d, |before|, end);
  }

  lemma InsideLast(before: string, last: string, d: string, i: nat)
    requires |before| <= i
    ensures Occurs(before + last, d, i) ==> Contains(last, d)
  {
    var s := before + last;
    if Occurs(s, d, i) {
      assert last[i - |before|..i - |before| + |d|] == s[i..i + |d|];
      assert Occurs(last, d, i - |before|);
    }
  }

  lemma LastToken(before: string, last: string, d: string)
    requires d != "" && !Contains(last, d)
    ensures Tokens(before + last, d, |before|) == [last]
  {
    hide Find, Occurs, Contains;
    var s := before + last;
    assert s[|before|..] == last;
    forall i: nat | |before| <= i ensures !Occurs(s, d, i) { InsideLast(before, last, d, i); }
  }

  lemma {:induction false} TokensOfJoinFrom(tokens: seq<string>, d: string, before: string)
    requires tokens != [] && d != "" && Free(tokens, d) && !Bordered(d)
    ensures Tokens(before + Join(tokens, d), d, |before|) == tokens
    decreases |tokens|
  {
    hide Tokens, Bordered, Contains;
    var first := tokens[0];
    assert first in tokens;
    if |tokens| == 1 {
      LastToken(before, first, d);
    } else {
      var more := Join(tokens[1..], d);
      FirstToken(before, first, d, more);
      assert forall t :: t in tokens[1..] ==> t in tokens;
      TokensOfJoinFrom(tokens[1..], d, before + first + d);
      assert before + Join(tokens, d) == before + first + d + more;
    }
  }

  /** With a border, the piece before it and the empty piece run together with the delimiter. */
  lemma BorderBreaks(d: string, k: nat)
    requires 0 < k < |d| && d[..k] == d[|d| - k..]
    ensures var ts := [d[..|d| - k], ""]; Free(ts, d) && Tokens(Join(ts, d), d, 0) != ts
  {
    var first := d[..|d| - k];
    var ts := [first, ""];
    assert Join(ts[1..], d) == "";
    var s := Join(ts, d);
    assert s == first + d + "";
    assert s[0..|d|] == first + d[..k] == first + d[|d| - k..] == d;
    assert Occurs(s, d, 0) && Find(s, d, 0) == 0;
    assert Tokens(s, d, 0)[0] == "";
  }

  /** Splitting undoes joining of delimiter-free pieces exactly for delimiters without a border. */
  lemma SplitUndoesJoinExactly(d: string)
    requires d != ""
    ensures !Bordered(d) <==>
      forall ts {:trigger Join(ts, d)} :: ts != [] && Free(ts, d) ==> Tokens(Join(ts, d), d, 0) == ts
  {
    hide Tokens;
    if k :| 0 < k < |d| && d[..k] == d[|d| - k..] {
      BorderBreaks(d, k);
      assert Join([d[..|d| - k], ""], d) == Join([d[..|d| - k], ""], d);
    } else {
      forall ts | ts != [] && Free(ts, d) ensures Tokens(Join(ts, d), d, 0) == ts {
        TokensOfJoinFrom(ts, d, "");
        assert "" + Join(ts, d) == Join(ts, d);
      }
    }
  }

  /** A delimiter of one character has no border. */
  lemma TokensOfJoin(tokens: seq<string>, c: char, before: string)
    requires tokens != [] && forall t :: t in tokens ==> c !in t
    ensures Tokens(before + Join(tokens, [c]), [c], |before|) == tokens
  {
    forall t | t in tokens ensures !Contains(t, [c]) {
      forall i: nat ensures !Occurs(t, [c], i) { assert i + 1 <= |t| ==> t[i..i + 1] == [t[i]]; }
    }
    TokensOfJoinFrom(tokens, [c], before);
  }

  /** The delimiter "aa" has one. */
  lemma LongDelimiterFails()
    ensures Bordered("aa") && Free(["a", ""], "aa")
    ensures Join(["a", ""], "aa") == "aaa" && Tokens("aaa", "aa", 0) == ["", "a"]
  {
    assert "aa"[..1] == "aa"[1..] == "a";
    BorderBreaks("aa", 1);
    assert Join(["a", ""][1..], "aa") == "";
    assert Occurs("aaa", "aa", 0) && Find("aaa", "aa", 0) == 0;
    assert Find("aaa", "aa", 2) == -1;
    assert "aaa"[2..] == "a" && "aaa"[0..0] == "";
  }
}
