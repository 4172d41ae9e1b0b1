/**
 * The three string operations of Python that the script relies on:
 * `str.split()` with no separator, `' '.join(...)` and `str.strip()` with no
 * argument. All three use Python's notion of a whitespace character.
 */
module Text {

  /** Python's `str.isspace` for one character (the set `split()` and `strip()` use). */
  predicate IsSpace(c: char) {
    var n := c as int;
    n == 0x20 || 0x09 <= n <= 0x0D || 0x1C <= n <= 0x1F || n == 0x85 || n == 0xA0
    || n == 0x1680 || 0x2000 <= n <= 0x200A || n == 0x2028 || n == 0x2029
    || n == 0x202F || n == 0x205F || n == 0x3000
  }

  /** A token as `split()` produces it: non-empty, without whitespace. */
  predicate IsWord(w: string) {
    w != [] && forall i :: 0 <= i < |w| ==> !IsSpace(w[i])
  }

  predicate AllWords(ts: seq<string>) {
    forall i :: 0 <= i < |ts| ==> IsWord(ts[i])
  }

  predicate AllSpace(s: string) {
    forall i :: 0 <= i < |s| ==> IsSpace(s[i])
  }

  /** The length of the longest prefix of `s` that holds no whitespace. */
  function WordLength(s: string): (n: nat)
    ensures n <= |s|
    ensures forall i :: 0 <= i < n ==> !IsSpace(s[i])
    ensures n < |s| ==> IsSpace(s[n])
  {
    if s == [] || IsSpace(s[0]) then 0 else 1 + WordLength(s[1..])
  }

  /** `s.split()`: the maximal runs of non-whitespace characters, in order. */
  function Split(s: string): (r: seq<string>)
    ensures AllWords(r)
    decreases |s|
  {
    if s == [] then []
    else if IsSpace(s[0]) then Split(s[1..])
    else
      var n := WordLength(s);
      [s[..n]] + Split(s[n..])
  }

  /** `' '.join(ts)`. */
  function Join(ts: seq<string>): string {
    if ts == [] then []
    else if |ts| == 1 then ts[0]
    else ts[0] + " " + Join(ts[1..])
  }

  /** `s.lstrip()`. */
  function LStrip(s: string): (r: string)
    ensures |r| <= |s| && r == s[|s| - |r|..]
    ensures AllSpace(s[..|s| - |r|])
    ensures r == [] || !IsSpace(r[0])
  {
    if s != [] && IsSpace(s[0]) then LStrip(s[1..]) else s
  }

  /** `s.rstrip()`. */
  function RStrip(s: string): (r: string)
    ensures |r| <= |s| && r == s[..|r|]
    ensures AllSpace(s[|r|..])
    ensures r == [] || !IsSpace(r[|r| - 1])
  {
    if s != [] && IsSpace(s[|s| - 1]) then
      var r := RStrip(s[..|s| - 1]);
      assert s[|r|..] == s[..|s| - 1][|r|..] + [s[|s| - 1]];
      r
    else s
  }

  /** `s.strip()`. */
  function Strip(s: string): string {
    RStrip(LStrip(s))
  }

  /** Every character of `s` that is not whitespace, in order. */
  function NonSpace(s: string): string {
    if s == [] then [] else (if IsSpace(s[0]) then [] else [s[0]]) + NonSpace(s[1..])
  }

  function Concat(ts: seq<string>): string {
    if ts == [] then [] else ts[0] + Concat(ts[1..])
  }

  /**
   * A string with whitespace runs collapsed: every whitespace character is a
   * plain space standing between two non-whitespace characters.
   */
  predicate Collapsed(s: string) {
    forall i :: 0 <= i < |s| && IsSpace(s[i]) ==>
      s[i] == ' ' && 0 < i < |s| - 1 && !IsSpace(s[i - 1]) && !IsSpace(s[i + 1])
  }

  lemma WordLengthOfWordThenSpace(w: string, rest: string)
    requires IsWord(w)
    requires rest == [] || IsSpace(rest[0])
    ensures WordLength(w + rest) == |w|
  {
    var s := w + rest;
    assert forall i :: 0 <= i < |w| ==> s[i] == w[i];
    assert |w| < |s| ==> s[|w|] == rest[0];
  }

  /** Splitting a word is the one-token list holding it. */
  lemma SplitWord(w: string)
    requires IsWord(w)
    ensures Split(w) == [w]
  {
    WordLengthOfWordThenSpace(w, []);
    assert w + [] == w;
    assert w[|w|..] == [];
  }

  /** Splitting what `' '.join` built gives back the tokens: `split` inverts `join`. */
  lemma {:induction false} SplitJoin(ts: seq<string>)
    requires AllWords(ts)
    ensures Split(Join(ts)) == ts
  {
    if ts == [] {
    } else if |ts| == 1 {
      SplitWord(ts[0]);
    } else {
      var t, j := ts[0], Join(ts[1..]);
      var s := t + " " + j;
      assert s == t + (" " + j);
      WordLengthOfWordThenSpace(t, " " + j);
      assert s[..|t|] == t;
      assert s[|t|..] == " " + j;
      assert (" " + j)[1..] == j;
      assert AllWords(ts[1..]) by {
        forall i | 0 <= i < |ts[1..]| ensures IsWord(ts[1..][i]) {
          assert ts[1..][i] == ts[i + 1];
        }
      }
      SplitJoin(ts[1..]);
      assert [t] + ts[1..] == ts;
    }
  }

  /** Leading whitespace adds no token. */
  lemma {:induction false} SplitSpaces(sp: string, rest: string)
    requires AllSpace(sp)
    ensures Split(sp + rest) == Split(rest)
    decreases |sp|
  {
    if sp != [] {
      var s := sp + rest;
      assert s[0] == sp[0] && IsSpace(s[0]);
      assert s[1..] == sp[1..] + rest;
      assert Split(s) == Split(s[1..]);
      assert AllSpace(sp[1..]) by {
        forall i | 0 <= i < |sp[1..]| ensures IsSpace(sp[1..][i]) {
          assert sp[1..][i] == sp[i + 1];
        }
      }
      SplitSpaces(sp[1..], rest);
    } else {
      assert sp + rest == rest;
    }
  }

  /** A word followed by a run of whitespace is one token, however long the run. */
  lemma SplitWordRun(w: string, sp: string, rest: string)
    requires IsWord(w) && sp != [] && AllSpace(sp)
    ensures Split(w + sp + rest) == [w] + Split(rest)
  {
    var s := w + (sp + rest);
    assert w + sp + rest == s;
    assert s[0] == w[0];
    assert (sp + rest)[0] == sp[0];
    WordLengthOfWordThenSpace(w, sp + rest);
    assert s[..|w|] == w;
    assert s[|w|..] == sp + rest;
    SplitSpaces(sp, rest);
  }

  /** Words with the whitespace run `gaps[i]` after word `i`. */
  function Spaced(ws: seq<string>, gaps: seq<string>): string
    requires |gaps| == |ws|
  {
    if ws == [] then [] else ws[0] + gaps[0] + Spaced(ws[1..], gaps[1..])
  }

  /** Whitespace runs fit to separate words: all of them non-empty except perhaps the trailing one. */
  predicate Gaps(gaps: seq<string>) {
    forall i :: 0 <= i < |gaps| ==> AllSpace(gaps[i]) && (i < |gaps| - 1 ==> gaps[i] != [])
  }

  /**
   * `split()` returns the words of any line built from words and whitespace
   * runs, whatever the length and kind of each run, leading and trailing runs
   * included.
   */
  lemma {:induction false} SplitSpaced(lead: string, ws: seq<string>, gaps: seq<string>)
    requires AllSpace(lead) && AllWords(ws) && |gaps| == |ws| && Gaps(gaps)
    ensures Split(lead + Spaced(ws, gaps)) == ws
    decreases |ws|
  {
    SplitSpaces(lead, Spaced(ws, gaps));
    if ws != [] {
      var w, g, rest := ws[0], gaps[0], Spaced(ws[1..], gaps[1..]);
      assert AllWords(ws[1..]) by {
        forall i | 0 <= i < |ws[1..]| ensures IsWord(ws[1..][i]) {
          assert ws[1..][i] == ws[i + 1];
        }
      }
      assert Gaps(gaps[1..]) by {
        forall i | 0 <= i < |gaps[1..]| ensures AllSpace(gaps[1..][i]) && (i < |gaps[1..]| - 1 ==> gaps[1..][i] != []) {
          assert gaps[1..][i] == gaps[i + 1];
        }
      }
      SplitSpaced([], ws[1..], gaps[1..]);
      assert [] + rest == rest;
      assert IsWord(w) && AllSpace(g);
      if g == [] {
        assert |ws| == 1;
        assert Spaced(ws, gaps) == w;
        SplitWord(w);
      } else {
        SplitWordRun(w, g, rest);
      }
      assert [w] + ws[1..] == ws;
    }
  }

  /** Joining non-empty words gives a non-empty string that starts and ends with no whitespace. */
  lemma {:induction false} JoinEnds(ts: seq<string>)
    requires AllWords(ts) && ts != []
    ensures Join(ts) != [] && !IsSpace(Join(ts)[0]) && !IsSpace(Join(ts)[|Join(ts)| - 1])
  {
    assert IsWord(ts[0]);
    if |ts| > 1 {
      assert AllWords(ts[1..]) by {
        forall i | 0 <= i < |ts[1..]| ensures IsWord(ts[1..][i]) {
          assert ts[1..][i] == ts[i + 1];
        }
      }
      JoinEnds(ts[1..]);
      var j := Join(ts[1..]);
      assert Join(ts) == ts[0] + " " + j;
      assert Join(ts)[0] == ts[0][0];
      assert Join(ts)[|Join(ts)| - 1] == j[|j| - 1];
    }
  }

  /** `' '.join` of tokens collapses whitespace: only single spaces between tokens remain. */
  lemma {:induction false} JoinCollapsed(ts: seq<string>)
    requires AllWords(ts)
    ensures Collapsed(Join(ts))
  {
    if ts == [] {
    } else if |ts| == 1 {
      assert IsWord(ts[0]);
    } else {
      var t := ts[0];
      assert IsWord(t);
      assert AllWords(ts[1..]) by {
        forall i | 0 <= i < |ts[1..]| ensures IsWord(ts[1..][i]) {
          assert ts[1..][i] == ts[i + 1];
        }
      }
      JoinCollapsed(ts[1..]);
      JoinEnds(ts[1..]);
      var j := Join(ts[1..]);
      var s := t + " " + j;
      assert s == Join(ts);
      assert forall i :: 0 <= i < |t| ==> s[i] == t[i];
      forall i | 0 <= i < |s| && IsSpace(s[i])
        ensures s[i] == ' ' && 0 < i < |s| - 1 && !IsSpace(s[i - 1]) && !IsSpace(s[i + 1])
      {
        if i == |t| {
          assert s[i - 1] == t[|t| - 1];
          assert s[i + 1] == j[0];
        } else if i > |t| {
          var k := i - |t| - 1;
          assert s[i] == j[k];
          if k == 0 {
            assert false;
          }
          assert s[i - 1] == j[k - 1];
          assert s[i + 1] == j[k + 1];
        }
      }
    }
  }

  /** A trailing whitespace character does not change the tokens. */
  lemma {:induction false} SplitAppendSpace(s: string, c: char)
    requires IsSpace(c)
    ensures Split(s + [c]) == Split(s)
    decreases |s|
  {
    var t := s + [c];
    if s == [] {
      assert t[1..] == [];
    } else if IsSpace(s[0]) {
      assert t[1..] == s[1..] + [c];
      SplitAppendSpace(s[1..], c);
    } else {
      var n := WordLength(s);
      var m := WordLength(t);
      assert forall i :: 0 <= i < |s| ==> t[i] == s[i];
      assert t[|s|] == c;
      assert m == n;
      assert t[..n] == s[..n];
      assert t[n..] == s[n..] + [c];
      SplitAppendSpace(s[n..], c);
    }
  }

  lemma {:induction false} SplitLStrip(s: string)
    ensures Split(LStrip(s)) == Split(s)
    decreases |s|
  {
    if s != [] && IsSpace(s[0]) {
      SplitLStrip(s[1..]);
    }
  }

  lemma {:induction false} SplitRStrip(s: string)
    ensures Split(RStrip(s)) == Split(s)
    decreases |s|
  {
    if s != [] && IsSpace(s[|s| - 1]) {
      var p := s[..|s| - 1];
      assert s == p + [s[|s| - 1]];
      SplitAppendSpace(p, s[|s| - 1]);
      SplitRStrip(p);
    }
  }

  /** `line.strip()` never changes what `line.split()` returns. */
  lemma SplitStrip(s: string)
    ensures Split(Strip(s)) == Split(s)
  {
    SplitRStrip(LStrip(s));
    SplitLStrip(s);
  }

  /** A blank line strips to the empty string and splits into no tokens. */
  lemma {:induction false} BlankLine(s: string)
    requires AllSpace(s)
    ensures Strip(s) == [] && Split(s) == []
    decreases |s|
  {
    if s != [] {
      assert AllSpace(s[1..]) by {
        forall i | 0 <= i < |s[1..]| ensures IsSpace(s[1..][i]) {
          assert s[1..][i] == s[i + 1];
        }
      }
      BlankLine(s[1..]);
      assert LStrip(s) == LStrip(s[1..]);
    }
  }

  lemma {:induction false} NonSpaceAppend(a: string, b: string)
    ensures NonSpace(a + b) == NonSpace(a) + NonSpace(b)
    decreases |a|
  {
    if a != [] {
      var head := if IsSpace(a[0]) then [] else [a[0]];
      assert (a + b)[0] == a[0];
      assert (a + b)[1..] == a[1..] + b;
      NonSpaceAppend(a[1..], b);
      calc {
        NonSpace(a + b);
        head + NonSpace(a[1..] + b);
        head + (NonSpace(a[1..]) + NonSpace(b));
        (head + NonSpace(a[1..])) + NonSpace(b);
      }
    } else {
      assert a + b == b;
    }
  }

  lemma {:induction false} NonSpaceOfSpaceFree(w: string)
    requires forall i :: 0 <= i < |w| ==> !IsSpace(w[i])
    ensures NonSpace(w) == w
    decreases |w|
  {
    if w != [] {
      NonSpaceOfSpaceFree(w[1..]);
      assert [w[0]] + w[1..] == w;
    }
  }

  /** The tokens of `s`, put back together, are exactly its non-whitespace characters. */
  lemma {:induction false} ConcatSplit(s: string)
    ensures Concat(Split(s)) == NonSpace(s)
    decreases |s|
  {
    if s == [] {
    } else if IsSpace(s[0]) {
      ConcatSplit(s[1..]);
    } else {
      var n := WordLength(s);
      assert s == s[..n] + s[n..];
      NonSpaceAppend(s[..n], s[n..]);
      NonSpaceOfSpaceFree(s[..n]);
      ConcatSplit(s[n..]);
      var r := [s[..n]] + Split(s[n..]);
      assert r[0] == s[..n] && r[1..] == Split(s[n..]);
    }
  }
}
