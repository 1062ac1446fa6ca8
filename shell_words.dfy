/** How a command line handed to a shell falls apart into arguments when it
    holds no quotes or escapes: split at spaces, runs of spaces count as one
    separator, and leading or trailing spaces produce no argument. This is the
    meaning the command strings and space-joined option lists are checked
    against. */
module ShellWords {
  import opened Js

  /** One argument: non-empty and without a space. */
  predicate IsWord(w: string)
  {
    |w| > 0 && ' ' !in w
  }

  predicate AllWords(xs: seq<string>)
  {
    forall i :: 0 <= i < |xs| ==> IsWord(xs[i])
  }

  /** Length of the leading run of non-space characters. */
  function WordEnd(s: string): (r: nat)
    ensures r <= |s|
    ensures ' ' !in s[..r]
    ensures r < |s| ==> s[r] == ' '
  {
    if s == [] || s[0] == ' ' then 0
    else
      var r := WordEnd(s[1..]);
      assert s[..r + 1] == [s[0]] + s[1..][..r];
      r + 1
  }

  /** Any cut point that ends a run of non-spaces is the one `WordEnd`
      finds. */
  lemma WordEndUnique(s: string, r: nat)
    requires r <= |s|
    requires forall i :: 0 <= i < r ==> s[i] != ' '
    requires r < |s| ==> s[r] == ' '
    ensures WordEnd(s) == r
  {
    var e := WordEnd(s);
    assert forall i :: 0 <= i < e ==> s[i] == s[..e][i];
  }

  /** The arguments a shell sees in `s`. */
  function Words(s: string): (ws: seq<string>)
    ensures AllWords(ws)
    decreases |s|
  {
    if s == [] then []
    else if s[0] == ' ' then Words(s[1..])
    else
      var n := WordEnd(s);
      assert s[..n][0] == s[0];
      [s[..n]] + Words(s[n..])
  }

  /** The words of several strings, one after the other. */
  function FlatWords(xs: seq<string>): seq<string>
  {
    if xs == [] then [] else Words(xs[0]) + FlatWords(xs[1..])
  }

  /** A single word is one argument. */
  lemma WordsOfWord(w: string)
    requires IsWord(w)
    ensures Words(w) == [w]
  {
    WordEndUnique(w, |w|);
    assert w[..|w|] == w && w[|w|..] == [];
  }

  /** Joining two strings with a space concatenates their arguments. */
  lemma {:induction false} WordsAppend(a: string, b: string)
    ensures Words(a + " " + b) == Words(a) + Words(b)
    decreases |a|
  {
    var s := a + " " + b;
    if a == [] {
      assert s[1..] == b;
    } else if a[0] == ' ' {
      assert s[1..] == a[1..] + " " + b;
      WordsAppend(a[1..], b);
    } else {
      var n := WordEnd(a);
      forall i | 0 <= i < n
        ensures s[i] != ' '
      {
        assert s[i] == a[..n][i];
      }
      WordEndUnique(s, n);
      assert s[..n] == a[..n];
      assert s[n..] == a[n..] + " " + b;
      WordsAppend(a[n..], b);
    }
  }

  /** The arguments of a space-joined list are the arguments of its
      elements in order. */
  lemma {:induction false} WordsJoin(xs: seq<string>)
    ensures Words(Join(xs, " ")) == FlatWords(xs)
  {
    if |xs| == 0 {
    } else if |xs| == 1 {
      assert FlatWords(xs[1..]) == [];
    } else {
      WordsJoin(xs[1..]);
      WordsAppend(xs[0], Join(xs[1..], " "));
    }
  }

  /** A list of words is its own flattening. */
  lemma {:induction false} FlatWordsOfWords(xs: seq<string>)
    requires AllWords(xs)
    ensures FlatWords(xs) == xs
  {
    if xs != [] {
      WordsOfWord(xs[0]);
      FlatWordsOfWords(xs[1..]);
    }
  }

  /** So a list of words joined with spaces splits back into the list. */
  lemma SplitJoin(xs: seq<string>)
    requires AllWords(xs)
    ensures Words(Join(xs, " ")) == xs
  {
    WordsJoin(xs);
    FlatWordsOfWords(xs);
  }

  /** `a + " " + b`: two pieces of a command line, one space apart. */
  function Spaced(a: string, b: string): (r: string)
    ensures Words(r) == Words(a) + Words(b)
  {
    WordsAppend(a, b);
    a + " " + b
  }
}
