/**
 Python's `str.split()` with no separator and `' '.join(...)`, the two string
 operations the dispatcher uses to turn an f-string into an argv vector.

 `split()` with no argument breaks a string at runs of whitespace and drops
 empty pieces, so leading, trailing and repeated whitespace produce no token.
 */
module Tokens {

  /** The characters CPython treats as whitespace in `str.split()`
      (Py_UNICODE_ISSPACE): the ASCII controls 0x09-0x0D and 0x1C-0x1F, the
      space, NEL, NBSP and the Unicode space separators. */
  predicate IsSpace(c: char) {
    var n := c as int;
    || (0x09 <= n <= 0x0D)
    || (0x1C <= n <= 0x20)
    || n == 0x85
    || n == 0xA0
    || n == 0x1680
    || (0x2000 <= n <= 0x200A)
    || n == 0x2028
    || n == 0x2029
    || n == 0x202F
    || n == 0x205F
    || n == 0x3000
  }

  /** A token `split()` can produce: non-empty, with no whitespace in it. */
  predicate IsWord(w: string) {
    |w| > 0 && forall i :: 0 <= i < |w| ==> !IsSpace(w[i])
  }

  predicate AllWords(ws: seq<string>) {
    forall i :: 0 <= i < |ws| ==> IsWord(ws[i])
  }

  /** Length of the run of non-whitespace characters that starts `s`. */
  function WordLen(s: string): (n: nat)
    ensures n <= |s|
    ensures 0 < |s| && !IsSpace(s[0]) ==> 0 < n
  {
    if |s| == 0 || IsSpace(s[0]) then 0 else 1 + WordLen(s[1..])
  }

  /** The leading word is a maximal run of non-whitespace characters. */
  lemma {:induction false} WordLenSpec(s: string)
    ensures forall i :: 0 <= i < WordLen(s) ==> !IsSpace(s[i])
    ensures WordLen(s) < |s| ==> IsSpace(s[WordLen(s)])
    decreases |s|
  {
    if |s| > 0 && !IsSpace(s[0]) {
      WordLenSpec(s[1..]);
      forall i | 1 <= i < WordLen(s) ensures !IsSpace(s[i]) {
        assert s[i] == s[1..][i - 1];
      }
    }
  }

  /** `s.split()`. */
  function Split(s: string): seq<string>
    decreases |s|
  {
    if |s| == 0 then []
    else if IsSpace(s[0]) then Split(s[1..])
    else
      var n := WordLen(s);
      [s[..n]] + Split(s[n..])
  }

  /** `' '.join(ws)`. */
  function Join(ws: seq<string>): string {
    if |ws| == 0 then ""
    else if |ws| == 1 then ws[0]
    else ws[0] + " " + Join(ws[1..])
  }

  /** The tokens of each piece, in order. */
  function SplitAll(ws: seq<string>): seq<string> {
    if |ws| == 0 then [] else Split(ws[0]) + SplitAll(ws[1..])
  }

  /** The whitespace-free characters of `s`, in order. */
  function Visible(s: string): string {
    if |s| == 0 then ""
    else if IsSpace(s[0]) then Visible(s[1..])
    else [s[0]] + Visible(s[1..])
  }

  /** The concatenation of a list of strings. */
  function Concat(ws: seq<string>): string {
    if |ws| == 0 then "" else ws[0] + Concat(ws[1..])
  }

  /** Every token of `split()` is a word: no empty token, no whitespace
      inside a token. */
  lemma {:induction false} SplitYieldsWords(s: string)
    ensures AllWords(Split(s))
    decreases |s|
  {
    if |s| == 0 {
    } else if IsSpace(s[0]) {
      SplitYieldsWords(s[1..]);
    } else {
      var n := WordLen(s);
      var r := Split(s);
      WordLenSpec(s);
      SplitYieldsWords(s[n..]);
      assert r == [s[..n]] + Split(s[n..]);
      forall i | 0 <= i < |r| ensures IsWord(r[i]) {
        if i > 0 {
          assert r[i] == Split(s[n..])[i - 1];
        }
      }
    }
  }

  /** `WordLen` is the only length meeting its own postcondition. */
  lemma WordLenUnique(s: string, m: nat)
    requires m <= |s|
    requires forall i :: 0 <= i < m ==> !IsSpace(s[i])
    requires m < |s| ==> IsSpace(s[m])
    ensures WordLen(s) == m
  {
    WordLenSpec(s);
  }

  /** Gluing two words gives a word. */
  lemma WordConcat(a: string, b: string)
    requires IsWord(a) && IsWord(b)
    ensures IsWord(a + b)
  {
    forall i | 0 <= i < |a + b| ensures !IsSpace((a + b)[i]) {
      if i < |a| {
        assert (a + b)[i] == a[i];
      } else {
        assert (a + b)[i] == b[i - |a|];
      }
    }
  }

  /** A word splits into itself. */
  lemma SplitWord(w: string)
    requires IsWord(w)
    ensures Split(w) == [w]
  {
    WordLenUnique(w, |w|);
    assert w[..|w|] == w;
    assert w[|w|..] == [];
  }

  /** A whitespace character after `a` ends `a`'s leading word at the latest. */
  lemma WordLenBeforeSpace(a: string, c: char, b: string)
    requires IsSpace(c)
    ensures WordLen(a + [c] + b) == WordLen(a)
  {
    var s := a + [c] + b;
    var n := WordLen(a);
    WordLenSpec(a);
    forall i | 0 <= i < n ensures !IsSpace(s[i]) {
      assert s[i] == a[i];
    }
    assert s[n] == if n < |a| then a[n] else c;
    WordLenUnique(s, n);
  }

  /** Splitting distributes over a whitespace separator: the separator never
      glues the last token of `a` to the first token of `b`. */
  lemma {:induction false} SplitAtSpace(a: string, c: char, b: string)
    requires IsSpace(c)
    ensures Split(a + [c] + b) == Split(a) + Split(b)
    decreases |a|
  {
    var s := a + [c] + b;
    if |a| == 0 {
      assert s[1..] == b;
    } else if IsSpace(a[0]) {
      assert s[1..] == a[1..] + [c] + b;
      SplitAtSpace(a[1..], c, b);
    } else {
      var n := WordLen(a);
      WordLenBeforeSpace(a, c, b);
      assert s[..n] == a[..n];
      assert s[n..] == a[n..] + [c] + b;
      SplitAtSpace(a[n..], c, b);
    }
  }

  lemma {:induction false} SplitAllAppend(xs: seq<string>, ys: seq<string>)
    ensures SplitAll(xs + ys) == SplitAll(xs) + SplitAll(ys)
    decreases |xs|
  {
    if |xs| == 0 {
      assert xs + ys == ys;
    } else {
      assert (xs + ys)[1..] == xs[1..] + ys;
      SplitAllAppend(xs[1..], ys);
    }
  }

  /** Words are left alone: splitting a list of words piecewise gives it back. */
  lemma {:induction false} SplitAllWords(ws: seq<string>)
    requires AllWords(ws)
    ensures SplitAll(ws) == ws
    decreases |ws|
  {
    if |ws| > 0 {
      SplitWord(ws[0]);
      SplitAllWords(ws[1..]);
    }
  }

  /** Splitting a space-joined list is splitting each piece: a piece with
      whitespace falls apart into several tokens, an empty or all-whitespace
      piece vanishes, a word stays one token. */
  lemma {:induction false} SplitJoin(ws: seq<string>)
    ensures Split(Join(ws)) == SplitAll(ws)
    decreases |ws|
  {
    if |ws| == 0 {
    } else if |ws| == 1 {
      assert SplitAll(ws[1..]) == [];
    } else {
      assert ws[0] + " " + Join(ws[1..]) == ws[0] + [' '] + Join(ws[1..]);
      SplitAtSpace(ws[0], ' ', Join(ws[1..]));
      SplitJoin(ws[1..]);
    }
  }

  lemma {:induction false} JoinCons(w: string, ws: seq<string>)
    requires |ws| > 0
    ensures Join([w] + ws) == w + " " + Join(ws)
  {
    assert ([w] + ws)[1..] == ws;
  }

  /** `SplitAll` over a list that starts with one given piece. */
  lemma SplitAllCons(m: string, ws: seq<string>)
    ensures SplitAll([m] + ws) == Split(m) + SplitAll(ws)
  {
    assert ([m] + ws)[0] == m;
    assert ([m] + ws)[1..] == ws;
  }

  /** Fixed words around one piece: the words stay whole, the piece
      contributes its own tokens. */
  lemma {:induction false} SplitAllTemplate(pre: seq<string>, mid: string, post: seq<string>)
    requires AllWords(pre) && AllWords(post)
    ensures SplitAll(pre + [mid] + post) == pre + Split(mid) + post
  {
    assert pre + [mid] + post == pre + ([mid] + post);
    SplitAllAppend(pre, [mid] + post);
    SplitAllCons(mid, post);
    SplitAllWords(pre);
    SplitAllWords(post);
  }

  /** An f-string of fixed words around one substituted string, after `split()`. */
  lemma SplitTemplate(pre: seq<string>, mid: string, post: seq<string>)
    requires AllWords(pre) && AllWords(post)
    ensures Split(Join(pre + [mid] + post)) == pre + Split(mid) + post
  {
    SplitJoin(pre + [mid] + post);
    SplitAllTemplate(pre, mid, post);
  }

  /** The same with two substituted strings. */
  lemma {:induction false} SplitTemplate2(pre: seq<string>, m1: string, mid: seq<string>,
                                          m2: string, post: seq<string>)
    requires AllWords(pre) && AllWords(mid) && AllWords(post)
    ensures Split(Join(pre + [m1] + mid + [m2] + post))
         == pre + Split(m1) + mid + Split(m2) + post
  {
    var tail := mid + [m2] + post;
    var ws := pre + [m1] + mid + [m2] + post;
    assert ws == pre + ([m1] + tail);
    SplitJoin(ws);
    SplitAllAppend(pre, [m1] + tail);
    SplitAllCons(m1, tail);
    SplitAllTemplate(mid, m2, post);
    SplitAllWords(pre);
  }

  /** `' '.join` followed by `split()` is the identity on lists of words. */
  lemma JoinRoundTrip(ws: seq<string>)
    requires AllWords(ws)
    ensures Split(Join(ws)) == ws
  {
    SplitJoin(ws);
    SplitAllWords(ws);
  }

  /** `split()` is stable: re-joining its tokens and splitting again changes
      nothing. */
  lemma SplitStable(s: string)
    ensures Split(Join(Split(s))) == Split(s)
  {
    SplitYieldsWords(s);
    JoinRoundTrip(Split(s));
  }

  lemma {:induction false} ConcatAppend(xs: seq<string>, ys: seq<string>)
    ensures Concat(xs + ys) == Concat(xs) + Concat(ys)
    decreases |xs|
  {
    if |xs| == 0 {
      assert xs + ys == ys;
    } else {
      assert (xs + ys)[1..] == xs[1..] + ys;
      ConcatAppend(xs[1..], ys);
    }
  }

  lemma {:induction false} VisibleOfWord(w: string)
    requires forall i :: 0 <= i < |w| ==> !IsSpace(w[i])
    ensures Visible(w) == w
    decreases |w|
  {
    if |w| > 0 {
      VisibleOfWord(w[1..]);
    }
  }

  lemma {:induction false} VisibleAppend(a: string, b: string)
    ensures Visible(a + b) == Visible(a) + Visible(b)
    decreases |a|
  {
    if |a| == 0 {
      assert a + b == b;
    } else {
      assert (a + b)[1..] == a[1..] + b;
      VisibleAppend(a[1..], b);
    }
  }

  /** `split()` loses exactly the whitespace: its tokens, glued back
      together, are the input with every whitespace character removed. */
  lemma {:induction false} SplitKeepsVisible(s: string)
    ensures Concat(Split(s)) == Visible(s)
    decreases |s|
  {
    if |s| == 0 {
    } else if IsSpace(s[0]) {
      SplitKeepsVisible(s[1..]);
    } else {
      var n := WordLen(s);
      WordLenSpec(s);
      assert s == s[..n] + s[n..];
      VisibleAppend(s[..n], s[n..]);
      VisibleOfWord(s[..n]);
      ConcatAppend([s[..n]], Split(s[n..]));
      SplitKeepsVisible(s[n..]);
    }
  }
}
