/** The two Python string built-ins the span converter relies on:
    `str.split()` without arguments and `" ".join(...)`. */
module PyStr {

  /** The characters for which Python's `str.isspace()` holds: the ASCII
      controls TAB to CR and FS to US, SPACE, NEL, NO-BREAK SPACE, the
      remaining Unicode space separators (category Zs), LINE SEPARATOR and
      PARAGRAPH SEPARATOR. `str.split()` splits on runs of these. */
  predicate IsSpace(c: char) {
    ('\U{9}' <= c <= '\U{d}') || ('\U{1c}' <= c <= '\U{1f}') || c == ' '
    || c == '\U{85}' || c == '\U{a0}' || c == '\U{1680}'
    || ('\U{2000}' <= c <= '\U{200a}') || c == '\U{2028}' || c == '\U{2029}'
    || c == '\U{202f}' || c == '\U{205f}' || c == '\U{3000}'
  }

  /** A word as `str.split()` produces it: non-empty, with no whitespace. */
  predicate IsWord(w: string) {
    |w| > 0 && forall k :: 0 <= k < |w| ==> !IsSpace(w[k])
  }

  /** `s` with its leading whitespace removed. */
  function DropSpaces(s: string): (t: string)
    ensures |t| <= |s|
    ensures t == [] || !IsSpace(t[0])
  {
    if s != [] && IsSpace(s[0]) then DropSpaces(s[1..]) else s
  }

  /** What `DropSpaces` removes is whitespace, and it leaves a suffix of its input. */
  lemma {:induction false} DropSpacesSuffix(s: string)
    ensures forall k :: 0 <= k < |s| - |DropSpaces(s)| ==> IsSpace(s[k])
    ensures DropSpaces(s) == s[|s| - |DropSpaces(s)|..]
    decreases |s|
  {
    if s != [] && IsSpace(s[0]) {
      DropSpacesSuffix(s[1..]);
      assert forall k :: 1 <= k < |s| - |DropSpaces(s)| ==> s[k] == s[1..][k - 1];
    }
  }

  /** The length of the longest prefix of `s` that holds no whitespace. */
  function WordLength(s: string): (n: nat)
    ensures n <= |s|
    ensures forall k :: 0 <= k < n ==> !IsSpace(s[k])
    ensures n < |s| ==> IsSpace(s[n])
  {
    if s == [] || IsSpace(s[0]) then 0 else 1 + WordLength(s[1..])
  }

  /** Python's `s.split()`: the maximal runs of non-whitespace characters of
      `s`, in order; leading, trailing and repeated whitespace yields no word. */
  function Split(s: string): (ws: seq<string>)
    ensures forall k :: 0 <= k < |ws| ==> IsWord(ws[k])
    decreases |s|
  {
    var t := DropSpaces(s);
    if t == [] then []
    else
      var n := WordLength(t);
      [t[..n]] + Split(t[n..])
  }

  /** The sum of the lengths of the strings in `ws`. */
  function TotalLength(ws: seq<string>): nat {
    if ws == [] then 0 else TotalLength(ws[..|ws| - 1]) + |ws[|ws| - 1]|
  }

  /** Python's `" ".join(ws)`. Defined by the last element, as the converter's
      list of consumed words grows at its end. */
  function JoinWords(ws: seq<string>): (s: string)
    ensures |s| == if ws == [] then 0 else TotalLength(ws) + |ws| - 1
  {
    if ws == [] then ""
    else if |ws| == 1 then ws[0]
    else JoinWords(ws[..|ws| - 1]) + " " + ws[|ws| - 1]
  }

  /** The characters of `s` that are not whitespace, in order. */
  function NonSpace(s: string): (r: string)
    ensures |r| <= |s|
    ensures forall k :: 0 <= k < |r| ==> !IsSpace(r[k])
  {
    if s == [] then []
    else if IsSpace(s[0]) then NonSpace(s[1..])
    else [s[0]] + NonSpace(s[1..])
  }

  /** The strings of `ws` concatenated. */
  function Concat(ws: seq<string>): string {
    if ws == [] then [] else ws[0] + Concat(ws[1..])
  }

  lemma {:induction false} NonSpaceAppend(a: string, b: string)
    ensures NonSpace(a + b) == NonSpace(a) + NonSpace(b)
    decreases |a|
  {
    if a == [] {
      assert a + b == b;
    } else {
      assert (a + b)[0] == a[0];
      assert (a + b)[1..] == a[1..] + b;
      NonSpaceAppend(a[1..], b);
    }
  }

  lemma {:induction false} NonSpaceOfSpaces(s: string, m: nat)
    requires m <= |s|
    requires forall k :: 0 <= k < m ==> IsSpace(s[k])
    ensures NonSpace(s) == NonSpace(s[m..])
    decreases m
  {
    if m > 0 {
      NonSpaceOfSpaces(s[1..], m - 1);
      assert s[1..][m - 1..] == s[m..];
    }
  }

  lemma {:induction false} NonSpaceOfWord(w: string)
    requires forall k :: 0 <= k < |w| ==> !IsSpace(w[k])
    ensures NonSpace(w) == w
    decreases |w|
  {
    if w != [] {
      NonSpaceOfWord(w[1..]);
    }
  }

  /** `Split` loses nothing but whitespace: its words, concatenated, are
      exactly the non-whitespace characters of the text. */
  lemma {:induction false} SplitKeepsNonSpace(s: string)
    ensures Concat(Split(s)) == NonSpace(s)
    decreases |s|
  {
    var t := DropSpaces(s);
    DropSpacesSuffix(s);
    NonSpaceOfSpaces(s, |s| - |t|);
    if t != [] {
      var n := WordLength(t);
      assert t == t[..n] + t[n..];
      NonSpaceAppend(t[..n], t[n..]);
      NonSpaceOfWord(t[..n]);
      SplitKeepsNonSpace(t[n..]);
      assert Split(s) == [t[..n]] + Split(t[n..]);
      assert ([t[..n]] + Split(t[n..]))[1..] == Split(t[n..]);
    }
  }

  /** `" ".join` seen from its first word. */
  lemma {:induction false} JoinCons(w: string, rest: seq<string>)
    requires rest != []
    ensures JoinWords([w] + rest) == w + " " + JoinWords(rest)
    decreases |rest|
  {
    if |rest| > 1 {
      var init := rest[..|rest| - 1];
      assert ([w] + rest)[..|rest|] == [w] + init;
      JoinCons(w, init);
    }
  }

  /** Word `i >= 1` of `ws` stands in `" ".join(ws)` right after the space
      that follows the join of the words before it. */
  lemma {:induction false} JoinWordAt(ws: seq<string>, i: nat)
    requires 0 < i < |ws|
    ensures |JoinWords(ws[..i])| + 1 + |ws[i]| <= |JoinWords(ws)|
    ensures JoinWords(ws)[|JoinWords(ws[..i])| + 1..|JoinWords(ws[..i])| + 1 + |ws[i]|] == ws[i]
    decreases |ws|
  {
    var n := |ws|;
    var init := ws[..n - 1];
    var p := |JoinWords(ws[..i])| + 1;
    assert JoinWords(ws) == JoinWords(init) + " " + ws[n - 1];
    if i < n - 1 {
      JoinWordAt(init, i);
      assert init[..i] == ws[..i] && init[i] == ws[i];
      var j := JoinWords(init);
      assert (j + " " + ws[n - 1])[p..p + |ws[i]|] == j[p..p + |ws[i]|];
    } else {
      assert init == ws[..i];
      var j := JoinWords(init);
      assert (j + " " + ws[i])[p..p + |ws[i]|] == ws[i];
    }
  }

  /** A word alone splits to itself. */
  lemma SplitWord(w: string)
    requires IsWord(w)
    ensures Split(w) == [w]
  {
    assert DropSpaces(w) == w;
    assert WordLength(w) == |w|;
    assert w[..|w|] == w;
    assert Split(w[|w|..]) == [];
  }

  /** One step of `Split` on a text that starts with a non-space character. */
  lemma SplitStep(s: string)
    requires s != [] && !IsSpace(s[0])
    ensures Split(s) == [s[..WordLength(s)]] + Split(s[WordLength(s)..])
  {
  }

  /** A single leading space is skipped by `Split`. */
  lemma SplitSkipSpace(j: string)
    requires j != [] && !IsSpace(j[0])
    ensures Split(" " + j) == Split(j)
  {
  }

  /** A word followed by a space is read up to the space. */
  lemma WordLengthBeforeSpace(w: string, j: string)
    requires IsWord(w)
    ensures WordLength(w + " " + j) == |w|
  {
    assert (w + " " + j)[|w|] == ' ';
  }

  /** A word, one space, then a text that starts with a non-space character. */
  lemma SplitWordSpace(w: string, j: string)
    requires IsWord(w)
    requires j != [] && !IsSpace(j[0])
    ensures Split(w + " " + j) == [w] + Split(j)
  {
    var s := w + " " + j;
    var n := WordLength(s);
    assert n == |w| by {
      WordLengthBeforeSpace(w, j);
    }
    assert Split(s) == [s[..n]] + Split(s[n..]) by {
      assert s[0] == w[0];
      SplitStep(s);
    }
    assert s[..n] == w;
    assert s[n..] == " " + j;
    SplitSkipSpace(j);
  }

  /** `WordLength` is the only length with the three properties its
      contract states. */
  lemma WordLengthIs(s: string, m: nat)
    requires m <= |s|
    requires forall k :: 0 <= k < m ==> !IsSpace(s[k])
    requires m < |s| ==> IsSpace(s[m])
    ensures WordLength(s) == m
  {
  }

  /** A leading whitespace character yields no word. */
  lemma SplitLeadingSpace(s: string)
    requires s != [] && IsSpace(s[0])
    ensures Split(s) == Split(s[1..])
  {
  }

  /** How `a + [c] + b` cuts at a position `n` within `a`. */
  lemma AroundSlices(a: string, c: char, b: string, n: nat)
    requires n <= |a|
    ensures (a + [c] + b)[..n] == a[..n]
    ensures (a + [c] + b)[n..] == a[n..] + [c] + b
  {
  }

  /** The characters of `a + [c] + b` up to position `|a|`. */
  lemma AroundChars(a: string, c: char, b: string)
    ensures forall k :: 0 <= k < |a| ==> (a + [c] + b)[k] == a[k]
    ensures (a + [c] + b)[|a|] == c
  {
  }

  /** `SplitAround` for a text before the whitespace character that starts
      with whitespace, given `SplitAround` for the rest of that text. */
  lemma SplitAroundSpace(a: string, c: char, b: string)
    requires a != [] && IsSpace(a[0])
    requires Split(a[1..] + [c] + b) == Split(a[1..]) + Split(b)
    ensures Split(a + [c] + b) == Split(a) + Split(b)
  {
    AroundSlices(a, c, b, 1);
    AroundChars(a, c, b);
    SplitLeadingSpace(a + [c] + b);
    SplitLeadingSpace(a);
  }

  /** The first word of `a` ends within `a`, whatever follows a whitespace
      character after it. */
  lemma WordLengthAround(a: string, c: char, b: string)
    requires IsSpace(c)
    ensures WordLength(a + [c] + b) == WordLength(a)
  {
    AroundChars(a, c, b);
    WordLengthIs(a + [c] + b, WordLength(a));
  }

  /** `Split` takes the first word of `a` first from `a + [c] + b`. */
  lemma SplitAroundFirst(a: string, c: char, b: string)
    requires a != [] && !IsSpace(a[0]) && IsSpace(c)
    ensures Split(a + [c] + b) == [a[..WordLength(a)]] + Split(a[WordLength(a)..] + [c] + b)
  {
    WordLengthAround(a, c, b);
    AroundSlices(a, c, b, WordLength(a));
    SplitStep(a + [c] + b);
  }

  /** Putting a word in front of two lists of words, or in front of the first. */
  lemma ConsAssoc(w: string, x: seq<string>, y: seq<string>)
    ensures [w] + (x + y) == ([w] + x) + y
  {
  }

  /** `SplitAround` for a text before the whitespace character that starts
      with a word, given `SplitAround` for what follows that word. */
  lemma SplitAroundWord(a: string, c: char, b: string)
    requires a != [] && !IsSpace(a[0]) && IsSpace(c)
    requires Split(a[WordLength(a)..] + [c] + b) == Split(a[WordLength(a)..]) + Split(b)
    ensures Split(a + [c] + b) == Split(a) + Split(b)
  {
    var n := WordLength(a);
    var w, rest := a[..n], a[n..];
    SplitAroundFirst(a, c, b);
    SplitStep(a);
    ConsAssoc(w, Split(rest), Split(b));
  }

  /** `str.split()` cuts at every whitespace character: the words around a
      whitespace character are the words of the text before it followed by
      the words of the text after it. With `SplitWord` this determines
      `Split` on every text. */
  lemma {:induction false} SplitAround(a: string, c: char, b: string)
    requires IsSpace(c)
    ensures Split(a + [c] + b) == Split(a) + Split(b)
    decreases |a|
  {
    if a == [] {
      AroundSlices(a, c, b, 0);
      AroundChars(a, c, b);
      SplitLeadingSpace(a + [c] + b);
    } else if IsSpace(a[0]) {
      SplitAround(a[1..], c, b);
      SplitAroundSpace(a, c, b);
    } else {
      SplitAround(a[WordLength(a)..], c, b);
      SplitAroundWord(a, c, b);
    }
  }

  /** The join of words starts with the first character of the first word. */
  lemma {:induction false} JoinFirst(ws: seq<string>)
    requires ws != [] && ws[0] != []
    ensures JoinWords(ws) != [] && JoinWords(ws)[0] == ws[0][0]
  {
    if |ws| > 1 {
      assert ws == [ws[0]] + ws[1..];
      JoinCons(ws[0], ws[1..]);
    }
  }

  /** Splitting the single-space join of words gives those words back:
      `" ".join(ws).split() == ws`. */
  lemma {:induction false} SplitJoin(ws: seq<string>)
    requires forall k :: 0 <= k < |ws| ==> IsWord(ws[k])
    ensures Split(JoinWords(ws)) == ws
    decreases |ws|
  {
    if |ws| == 1 {
      SplitWord(ws[0]);
    } else if |ws| > 1 {
      var w, rest := ws[0], ws[1..];
      assert IsWord(w);
      assert forall k :: 0 <= k < |rest| ==> IsWord(rest[k]) by {
        forall k | 0 <= k < |rest| ensures IsWord(rest[k]) {
          assert rest[k] == ws[k + 1];
        }
      }
      var j := JoinWords(rest);
      assert JoinWords(ws) == w + " " + j by {
        assert ws == [w] + rest;
        JoinCons(w, rest);
      }
      assert j != [] && !IsSpace(j[0]) by {
        JoinFirst(rest);
        assert IsWord(rest[0]);
      }
      SplitWordSpace(w, j);
      SplitJoin(rest);
      assert ws == [w] + rest;
    }
  }
}
