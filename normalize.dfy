/** The name normaliser `norm` (app.py:82-83): `" ".join(s.strip().lower().split())`.
    Only ASCII is modelled: `lower` maps `A`-`Z` to `a`-`z`, and whitespace is the set of
    ASCII characters Python's `str.split()` and `str.strip()` treat as whitespace
    (code points 9-13 and 28-32). */
module Normalize {

  predicate IsSpace(c: char) {
    9 <= c as int <= 13 || 28 <= c as int <= 32
  }

  predicate IsUpper(c: char) {
    'A' <= c <= 'Z'
  }

  predicate NoUpper(s: string) {
    forall i :: 0 <= i < |s| ==> !IsUpper(s[i])
  }

  predicate AllSpace(s: string) {
    forall i :: 0 <= i < |s| ==> IsSpace(s[i])
  }

  function LowerChar(c: char): (d: char)
    ensures !IsUpper(d)
    ensures IsSpace(d) <==> IsSpace(c)
  {
    if IsUpper(c) then (c as int + 32) as char else c
  }

  /** `str.lower()` */
  function Lower(s: string): (r: string)
    ensures |r| == |s|
    ensures forall i :: 0 <= i < |s| ==> r[i] == LowerChar(s[i])
  {
    if s == [] then [] else [LowerChar(s[0])] + Lower(s[1..])
  }

  function StripLeft(s: string): string {
    if s != [] && IsSpace(s[0]) then StripLeft(s[1..]) else s
  }

  function StripRight(s: string): string {
    if s != [] && IsSpace(s[|s| - 1]) then StripRight(s[..|s| - 1]) else s
  }

  /** `str.strip()` */
  function Strip(s: string): string {
    StripRight(StripLeft(s))
  }

  /** Length of the run of non-whitespace characters that starts `s`. */
  function WordLen(s: string): (n: nat)
    ensures n <= |s|
    ensures forall i :: 0 <= i < n ==> !IsSpace(s[i])
    ensures n < |s| ==> IsSpace(s[n])
  {
    if s == [] || IsSpace(s[0]) then 0 else 1 + WordLen(s[1..])
  }

  /** `str.split()` with no separator: the maximal runs of non-whitespace characters. */
  function Words(s: string): seq<string>
    decreases |s|
  {
    if s == [] then []
    else if IsSpace(s[0]) then Words(s[1..])
    else
      var n := WordLen(s);
      [s[..n]] + Words(s[n..])
  }

  /** `" ".join(ws)` */
  function Join(ws: seq<string>): string {
    if |ws| == 0 then ""
    else if |ws| == 1 then ws[0]
    else ws[0] + " " + Join(ws[1..])
  }

  /** `norm(s)` */
  function Norm(s: string): string {
    Join(Words(Lower(Strip(s))))
  }

  /** A lower-case word: what `split()` yields from lower-cased text. */
  predicate IsWord(w: string) {
    w != [] && forall i :: 0 <= i < |w| ==> !IsSpace(w[i]) && !IsUpper(w[i])
  }

  /** The shape of a normalised name: no upper-case letter, no whitespace other than
      single spaces, and no space at either end. */
  predicate IsNormal(t: string) {
    && (forall i :: 0 <= i < |t| ==> !IsUpper(t[i]) && (IsSpace(t[i]) ==> t[i] == ' '))
    && (t != [] ==> t[0] != ' ' && t[|t| - 1] != ' ')
    && (forall i :: 0 <= i < |t| - 1 ==> t[i] == ' ' ==> t[i + 1] != ' ')
  }

  lemma {:induction false} WordsAreWords(s: string)
    requires NoUpper(s)
    ensures forall k :: 0 <= k < |Words(s)| ==> IsWord(Words(s)[k])
    decreases |s|
  {
    if s != [] {
      if IsSpace(s[0]) {
        WordsAreWords(s[1..]);
      } else {
        var n := WordLen(s);
        WordsAreWords(s[n..]);
      }
    }
  }

  lemma {:induction false} WordsEmpty(s: string)
    requires Words(s) == []
    ensures AllSpace(s)
    decreases |s|
  {
    if s != [] {
      WordsEmpty(s[1..]);
    }
  }

  lemma {:induction false} JoinNormal(ws: seq<string>)
    requires forall k :: 0 <= k < |ws| ==> IsWord(ws[k])
    ensures IsNormal(Join(ws))
    ensures ws != [] ==> Join(ws) != []
  {
    if |ws| >= 2 {
      JoinNormal(ws[1..]);
      var w, r := ws[0], Join(ws[1..]);
      var t := w + " " + r;
      assert Join(ws) == t;
      assert forall i :: 0 <= i < |w| ==> t[i] == w[i];
      assert t[|w|] == ' ';
      assert forall i :: |w| < i < |t| ==> t[i] == r[i - |w| - 1];
      assert t[0] == w[0] && t[|t| - 1] == r[|r| - 1];
    }
  }

  lemma {:induction false} StripNormal(t: string)
    requires IsNormal(t)
    ensures Strip(t) == t
  {
  }

  lemma {:induction false} LowerNoUpper(t: string)
    requires NoUpper(t)
    ensures Lower(t) == t
  {
  }

  lemma {:induction false} NormalAfterSpace(t: string, k: nat)
    requires IsNormal(t) && 0 < k < |t| && t[k - 1] == ' '
    ensures IsNormal(t[k..]) && t[k..] != []
  {
    var rest := t[k..];
    assert forall i :: 0 <= i < |rest| ==> rest[i] == t[k + i];
  }

  lemma {:induction false} WordsAfterWord(t: string)
    requires t != [] && !IsSpace(t[0]) && WordLen(t) < |t|
    ensures Words(t) == [t[..WordLen(t)]] + Words(t[WordLen(t) + 1..])
  {
    var n := WordLen(t);
    assert t[n..][1..] == t[n + 1..];
  }

  lemma {:induction false} JoinCons(w: string, ws: seq<string>)
    requires ws != []
    ensures Join([w] + ws) == w + " " + Join(ws)
  {
    assert ([w] + ws)[1..] == ws;
  }

  lemma {:induction false} WordsOneWord(t: string)
    requires t != [] && !IsSpace(t[0]) && WordLen(t) == |t|
    ensures Words(t) == [t]
  {
    assert t[|t|..] == [];
    assert t[..|t|] == t;
    assert Words(t) == [t[..|t|]] + Words(t[|t|..]);
  }

  lemma {:induction false} JoinWordsNormal(t: string)
    requires IsNormal(t)
    ensures Join(Words(t)) == t
    decreases |t|
  {
    if t != [] {
      var n := WordLen(t);
      assert !IsSpace(t[0]);
      if n == |t| {
        WordsOneWord(t);
      } else {
        var rest := t[n + 1..];
        NormalAfterSpace(t, n + 1);
        JoinWordsNormal(rest);
        WordsAfterWord(t);
        var ws := Words(rest);
        assert ws != [];
        JoinCons(t[..n], ws);
        assert t == t[..n] + [t[n]] + rest;
      }
    }
  }

  lemma {:induction false} StripLeftAllSpace(s: string)
    requires AllSpace(StripLeft(s))
    ensures AllSpace(s)
    decreases |s|
  {
    if s != [] && IsSpace(s[0]) {
      StripLeftAllSpace(s[1..]);
    }
  }

  lemma {:induction false} StripRightAllSpace(s: string)
    requires AllSpace(StripRight(s))
    ensures AllSpace(s)
    decreases |s|
  {
    if s != [] && IsSpace(s[|s| - 1]) {
      StripRightAllSpace(s[..|s| - 1]);
    }
  }

  /** `norm` only produces normalised names. */
  lemma NormIsNormal(s: string)
    ensures IsNormal(Norm(s))
  {
    WordsAreWords(Lower(Strip(s)));
    JoinNormal(Words(Lower(Strip(s))));
  }

  /** The normalised names are exactly the fixed points of `norm`. */
  lemma NormFixpoint(t: string)
    ensures Norm(t) == t <==> IsNormal(t)
  {
    NormIsNormal(t);
    if IsNormal(t) {
      StripNormal(t);
      LowerNoUpper(t);
      JoinWordsNormal(t);
    }
  }

  /** `norm` is idempotent. */
  lemma NormIdempotent(s: string)
    ensures Norm(Norm(s)) == Norm(s)
  {
    NormIsNormal(s);
    NormFixpoint(Norm(s));
  }

  /** `norm(s)` is empty exactly when `s` is empty or all whitespace: these are the names
      the index builder skips. */
  lemma NormEmpty(s: string)
    ensures Norm(s) == "" <==> AllSpace(s)
  {
    var l := Lower(Strip(s));
    WordsAreWords(l);
    JoinNormal(Words(l));
    if Norm(s) == "" {
      WordsEmpty(l);
      assert AllSpace(Strip(s));
      StripRightAllSpace(StripLeft(s));
      StripLeftAllSpace(s);
    }
    if AllSpace(s) {
      AllSpaceStrip(s);
    }
  }

  lemma {:induction false} AllSpaceStrip(s: string)
    requires AllSpace(s)
    ensures StripLeft(s) == []
    decreases |s|
  {
    if s != [] {
      AllSpaceStrip(s[1..]);
    }
  }

}
