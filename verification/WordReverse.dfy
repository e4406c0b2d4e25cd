/** Reversing the order of the words of a sentence (Other/ErrCode/errCode.cpp, snippet 047): reverse the
    whole string, then every word of it in place.  Words are what lies between single spaces, so that a
    run of spaces holds empty words. */
module WordReverse {

  function Rev<T>(s: seq<T>): (r: seq<T>)
    ensures |r| == |s|
  {
    seq(|s|, i requires 0 <= i < |s| => s[|s| - 1 - i])
  }

  /** The first space, or the length. */
  function FirstSpace(s: string): (k: nat)
    ensures k <= |s| && (k < |s| ==> s[k] == ' ') && forall i :: 0 <= i < k ==> s[i] != ' '
  {
    if s == [] || s[0] == ' ' then 0 else
    var k := FirstSpace(s[1..]);
    assert forall i :: 1 <= i < k + 1 ==> s[i] == s[1..][i - 1];
    k + 1
  }

  /** The string with each word reversed where it stands: what the loop makes of it. */
  function FixWords(s: string): string {
    var k := FirstSpace(s);
    if k == |s| then Rev(s) else Rev(s[..k]) + [' '] + FixWords(s[k + 1..])
  }

  /** std::reverse of a range. */
  method ReverseRange(a: array<char>, lo: nat, hi: nat)
    requires lo <= hi <= a.Length
    modifies a
    ensures a[..] == old(a[..lo] + Rev(a[lo..hi]) + a[hi..])
  {
    var i, j := lo, hi;
    while i + 1 < j
      invariant lo <= i <= j <= hi && i - lo == hi - j
      invariant forall k :: 0 <= k < a.Length && (k < lo || i <= k < j || hi <= k) ==> a[k] == old(a[k])
      invariant forall k :: lo <= k < i ==> a[k] == old(a[lo + hi - 1 - k])
      invariant forall k :: j <= k < hi ==> a[k] == old(a[lo + hi - 1 - k])
    {
      j := j - 1;
      a[i], a[j] := a[j], a[i];
      i := i + 1;
    }
  }

  /** What the loop keeps: the string is a finished part and the rest of the reversed string, of which the
      first `look` characters are still to be fixed; finishing them will give `goal`, then `tail`. */
  ghost predicate Fixing(s: string, done: string, rest: string, look: nat, goal: string, tail: string) {
    && s == done + rest && look <= |rest|
    && done + FixWords(rest[..look]) == goal && rest[look..] == tail
  }

  /** The fixed form of a stretch whose first word ends at k. */
  lemma FixStretch(rest: string, look: nat, k: nat)
    requires k < look <= |rest| && ' ' !in rest[..k] && rest[k] == ' '
    ensures FixWords(rest[..look]) == Rev(rest[..k]) + [' '] + FixWords(rest[k + 1..][..look - k - 1])
  {
    var w := rest[..look];
    assert w[..k] == rest[..k] && w[k + 1..] == rest[k + 1..][..look - k - 1];
    forall i | 0 <= i < k
      ensures w[i] != ' '
    {
      assert w[i] == rest[..k][i];
    }
    FixNext(w, k);
  }

  /** A finished word and its space are taken off the rest. */
  lemma Glue(done: string, x: string, rest: string, k: nat, y: string)
    requires k < |rest| && rest[k] == ' '
    ensures done + x + rest[k..] == (done + x + [' ']) + rest[k + 1..]
    ensures done + (x + [' '] + y) == (done + x + [' ']) + y
  {
    assert rest[k..] == [' '] + rest[k + 1..];
  }

  /** Reversing the word in front of a space finishes it and the space. */
  lemma WordAndSpace(done: string, rest: string, look: nat, k: nat, goal: string, tail: string)
    requires Fixing(done + rest, done, rest, look, goal, tail)
    requires k < look && ' ' !in rest[..k] && rest[k] == ' '
    ensures Fixing(done + Rev(rest[..k]) + rest[k..], done + Rev(rest[..k]) + [' '], rest[k + 1..],
                   look - k - 1, goal, tail)
  {
    FixStretch(rest, look, k);
    Glue(done, Rev(rest[..k]), rest, k, FixWords(rest[k + 1..][..look - k - 1]));
    assert rest[k + 1..][look - k - 1..] == rest[look..];
  }

  /** Reversing the last word finishes the string. */
  lemma LastWord(done: string, rest: string, look: nat, goal: string, tail: string)
    requires Fixing(done + rest, done, rest, look, goal, tail) && ' ' !in rest[..look]
    ensures done + Rev(rest[..look]) + rest[look..] == goal + tail
  {
    FixNext(rest[..look], look);
    assert rest[..look][..look] == rest[..look];
  }

  /** The word from i to j, and the string with that word reversed, in terms of the finished part and the rest. */
  lemma CutAt(s: string, done: string, rest: string, i: nat, j: nat)
    requires s == done + rest && |done| == i <= j <= |s|
    ensures s[i..j] == rest[..j - i] && (j < |s| ==> s[j] == rest[j - i])
    ensures s[..i] + Rev(s[i..j]) + s[j..] == done + Rev(rest[..j - i]) + rest[j - i..]
  {
    assert s[..i] == done && s[j..] == rest[j - i..];
  }

  /** After the word from i to j is reversed, it and the space behind it are finished. */
  lemma WordTurned(s: string, i: nat, j: nat, n: nat, done: string, rest: string, goal: string, tail: string)
    requires i <= j < n <= |s| && |done| == i && Fixing(s, done, rest, n - i, goal, tail)
    requires ' ' !in s[i..j] && s[j] == ' '
    ensures Fixing(s[..i] + Rev(s[i..j]) + s[j..], done + Rev(rest[..j - i]) + [' '], rest[j - i + 1..],
                   n - j - 1, goal, tail)
  {
    CutAt(s, done, rest, i, j);
    var s', look, k := s[..i] + Rev(s[i..j]) + s[j..], n - i, j - i;
    assert s' == done + Rev(rest[..k]) + rest[k..];
    assert look - k - 1 == n - j - 1;
    assert Fixing(s', done + Rev(rest[..k]) + [' '], rest[k + 1..], look - k - 1, goal, tail) by {
      assert s == done + rest;
      WordAndSpace(done, rest, look, k, goal, tail);
    }
  }

  /** After the last word is reversed everything is finished. */
  lemma LastTurned(s: string, i: nat, n: nat, done: string, rest: string, goal: string, tail: string)
    requires i < n <= |s| && |done| == i && Fixing(s, done, rest, n - i, goal, tail) && ' ' !in s[i..n]
    ensures s[..i] + Rev(s[i..n]) + s[n..] == goal + tail
  {
    CutAt(s, done, rest, i, n);
    LastWord(done, rest, n - i, goal, tail);
  }

  /** The body of the loop: find the end of the word at i and reverse the word. */
  method ReverseWordAt(a: array<char>, i: nat, n: nat) returns (j: nat)
    requires i < n <= a.Length
    modifies a
    ensures i <= j <= n && ' ' !in old(a[i..j]) && (j < n ==> old(a[j]) == ' ')
    ensures a[..] == old(a[..i] + Rev(a[i..j]) + a[j..])
  {
    j := FindSpace(a, i, n);
    ReverseRange(a, i, j);
  }

  /** The string ended with a space: nothing is left to fix. */
  lemma StopFixing(s: string, done: string, rest: string, goal: string, tail: string)
    requires Fixing(s, done, rest, 0, goal, tail)
    ensures s == goal + tail
  {
    assert rest[..0] == [] && rest[0..] == rest;
    assert FixWords([]) == [];
    assert done + [] == done;
  }

  /** The loop over the first n characters. */
  method FixInPlace(a: array<char>, n: nat)
    requires n <= a.Length
    modifies a
    ensures a[..] == FixWords(old(a[..n])) + old(a[n..])
  {
    ghost var t := a[..];
    ghost var done, rest, goal, tail := "", t, FixWords(t[..n]), t[n..];
    assert a[..n] == t[..n] && a[n..] == t[n..];
    var i := 0;
    while i < n
      invariant i <= n ==> |done| == i && Fixing(a[..], done, rest, n - i, goal, tail)
      invariant i > n ==> a[..] == goal + tail
    {
      ghost var s := a[..];
      var j := ReverseWordAt(a, i, n);
      if j == n {
        LastTurned(s, i, n, done, rest, goal, tail);
      } else {
        WordTurned(s, i, j, n, done, rest, goal, tail);
        done, rest := done + Rev(rest[..j - i]) + [' '], rest[j - i + 1..];
      }
      i := j + 1;
    }
    if i == n {
      StopFixing(a[..], done, rest, goal, tail);
    }
  }

  /** reverseString(s, n).  The loop looks at the first n characters of the reversed string; the caller
      passes the length.  With n <= 0 it does not run. */
  method ReverseString(s: string, n: int) returns (r: string)
    requires n <= |s|
    ensures n >= 0 ==> r == FixWords(Rev(s)[..n]) + Rev(s)[n..]
    ensures n < 0 ==> r == Rev(s)
    ensures n == |s| ==> Words(r) == Rev(Words(s)) && r == Join(Rev(Words(s)))
  {
    var a := new char[|s|](i requires 0 <= i < |s| => s[i]);
    assert a[..] == s && a[0..|s|] == s;
    ReverseRange(a, 0, |s|);
    ghost var t := Rev(s);
    assert a[..] == t;
    if n >= 0 {
      assert a[..n] == t[..n] && a[n..] == t[n..];
      FixInPlace(a, n);
    }
    r := a[..];
    if n == |s| {
      WholeString(s, r);
    }
  }

  /** while (j < n && s[j] != ' ') j++; */
  method FindSpace(a: array<char>, i: nat, n: nat) returns (j: nat)
    requires i <= n <= a.Length
    ensures i <= j <= n && ' ' !in a[i..j] && (j < n ==> a[j] == ' ')
  {
    j := i;
    while j < n && a[j] != ' '
      invariant i <= j <= n && ' ' !in a[i..j]
    {
      j := j + 1;
    }
  }

  lemma FirstSpaceIs(s: string, k: nat)
    requires k <= |s| && (forall i :: 0 <= i < k ==> s[i] != ' ') && (k < |s| ==> s[k] == ' ')
    ensures FirstSpace(s) == k
  {
  }

  /** One word of the loop, ending at the first space or at the end. */
  lemma FixNext(s: string, k: nat)
    requires k <= |s| && (forall i :: 0 <= i < k ==> s[i] != ' ') && (k < |s| ==> s[k] == ' ')
    ensures FixWords(s) == if k == |s| then Rev(s[..k]) else Rev(s[..k]) + [' '] + FixWords(s[k + 1..])
  {
    FirstSpaceIs(s, k);
    assert s[..|s|] == s;
  }

  // ---------------------------------------------------------------- words

  /** The words of a string, with an empty one between two neighbouring spaces. */
  function Words(s: string): (ws: seq<string>)
    ensures |ws| > 0
  {
    var k := FirstSpace(s);
    if k == |s| then [s] else [s[..k]] + Words(s[k + 1..])
  }

  function Join(ws: seq<string>): string
    requires |ws| > 0
  {
    if |ws| == 1 then ws[0] else ws[0] + [' '] + Join(ws[1..])
  }

  ghost predicate AreWords(ws: seq<string>) {
    |ws| > 0 && forall i :: 0 <= i < |ws| ==> ' ' !in ws[i]
  }

  function RevEach(ws: seq<string>): (r: seq<string>)
    ensures |r| == |ws|
  {
    seq(|ws|, i requires 0 <= i < |ws| => Rev(ws[i]))
  }

  /** Splitting and joining are inverse to each other. */
  lemma {:induction false} JoinOfWords(s: string)
    ensures Join(Words(s)) == s && AreWords(Words(s))
  {
    var k := FirstSpace(s);
    if k < |s| {
      JoinOfWords(s[k + 1..]);
      var w, rest := s[..k], s[k + 1..];
      JoinCons(w, Words(rest));
      assert Words(s) == [w] + Words(rest);
      assert s == w + [' '] + rest;
    }
  }

  lemma JoinCons(w: string, ws: seq<string>)
    requires AreWords(ws) && ' ' !in w
    ensures Join([w] + ws) == w + [' '] + Join(ws) && AreWords([w] + ws)
  {
    assert ([w] + ws)[1..] == ws;
  }

  lemma {:induction false} WordsOfJoin(ws: seq<string>)
    requires AreWords(ws)
    ensures Words(Join(ws)) == ws
  {
    var s, k := Join(ws), |ws[0]|;
    assert s[..k] == ws[0];
    forall i | 0 <= i < k
      ensures s[i] != ' '
    {
      assert s[i] == ws[0][i];
    }
    FirstSpaceIs(s, k);
    if |ws| > 1 {
      WordsOfJoin(ws[1..]);
      assert s[..k] == ws[0] && s[k + 1..] == Join(ws[1..]);
    }
  }

  /** Reversing each word of a string where it stands. */
  lemma {:induction false} FixIsRevEach(s: string)
    ensures FixWords(s) == Join(RevEach(Words(s)))
  {
    var k := FirstSpace(s);
    if k < |s| {
      FixIsRevEach(s[k + 1..]);
      assert RevEach(Words(s))[1..] == RevEach(Words(s[k + 1..]));
    }
  }

  lemma {:induction false} JoinAppend(ws: seq<string>, w: string)
    requires |ws| > 0
    ensures Join(ws + [w]) == Join(ws) + [' '] + w
  {
    assert (ws + [w])[0] == ws[0];
    assert (ws + [w])[1..] == ws[1..] + [w];
    if |ws| > 1 {
      JoinAppend(ws[1..], w);
    } else {
      assert ws[1..] + [w] == [w];
    }
  }

  /** The reversed string has the reversed words in reverse order. */
  lemma {:induction false} RevOfJoin(ws: seq<string>)
    requires |ws| > 0
    ensures Rev(Join(ws)) == Join(Rev(RevEach(ws)))
  {
    if |ws| == 1 {
      assert Rev(RevEach(ws)) == [Rev(ws[0])];
    } else {
      RevOfJoin(ws[1..]);
      var rest := Rev(RevEach(ws[1..]));
      assert Rev(RevEach(ws)) == rest + [Rev(ws[0])];
      JoinAppend(rest, Rev(ws[0]));
      assert Rev(ws[0] + [' '] + Join(ws[1..])) == Rev(Join(ws[1..])) + [' '] + Rev(ws[0]);
    }
  }

  // ---------------------------------------------------------------- main results

  lemma RevTwice<T>(s: seq<T>)
    ensures Rev(Rev(s)) == s
  {
  }

  lemma RevEachTwice(ws: seq<string>)
    ensures RevEach(Rev(RevEach(ws))) == Rev(ws)
  {
    forall i | 0 <= i < |ws| ensures RevEach(Rev(RevEach(ws)))[i] == Rev(ws)[i] {
      RevTwice(ws[|ws| - 1 - i]);
    }
  }

  /** The reversed string consists of the reversed words in reverse order. */
  lemma WordsOfRev(s: string)
    ensures Words(Rev(s)) == Rev(RevEach(Words(s)))
  {
    var ws := Words(s);
    JoinOfWords(s);
    RevOfJoin(ws);
    WordsOfJoin(Rev(RevEach(ws)));
  }

  /** The whole function turns the words of a string around and leaves the separators, for any string and
      any runs of spaces. */
  lemma WordsTurnedAround(s: string)
    ensures FixWords(Rev(s)) == Join(Rev(Words(s)))
    ensures Words(FixWords(Rev(s))) == Rev(Words(s))
  {
    WordsOfRev(s);
    FixIsRevEach(Rev(s));
    RevEachTwice(Words(s));
    JoinOfWords(s);
    WordsOfJoin(Rev(Words(s)));
  }

  /** The whole function, when n is the length. */
  lemma WholeString(s: string, r: string)
    requires r == FixWords(Rev(s)[..|s|]) + Rev(s)[|s|..]
    ensures Words(r) == Rev(Words(s)) && r == Join(Rev(Words(s)))
  {
    assert Rev(s)[..|s|] == Rev(s) && Rev(s)[|s|..] == [];
    assert r == FixWords(Rev(s));
    WordsTurnedAround(s);
  }

  /** Applied twice the function gives back its input. */
  lemma TwiceIsIdentity(s: string)
    ensures FixWords(Rev(FixWords(Rev(s)))) == s
  {
    WordsTurnedAround(s);
    WordsTurnedAround(FixWords(Rev(s)));
    RevTwice(Words(s));
    JoinOfWords(s);
  }
}
