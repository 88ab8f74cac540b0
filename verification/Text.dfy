/** The few string operations the modelled code applies to caller-supplied text. */
module Text {

  /** The code points that Python counts as white space. */
  predicate IsSpace(c: char) {
    var n := c as int;
    || 9 <= n <= 13 || 28 <= n <= 32 || n == 0x85 || n == 0xA0 || n == 0x1680 || 0x2000 <= n <= 0x200A
    || n == 0x2028 || n == 0x2029 || n == 0x202F || n == 0x205F || n == 0x3000
  }

  /** Blank, tab and line ends are white space; nothing printable of ASCII is. */
  lemma SpaceMeaning(c: char)
    ensures c in " \t\n\r" ==> IsSpace(c)
    ensures '!' <= c <= '~' ==> !IsSpace(c)
  {
  }

  /** `str.strip()`. */
  function Strip(s: string): string {
    StripRight(StripLeft(s))
  }

  function StripLeft(s: string): string {
    if s != "" && IsSpace(s[0]) then StripLeft(s[1..]) else s
  }

  function StripRight(s: string): string {
    if s != "" && IsSpace(s[|s| - 1]) then StripRight(s[..|s| - 1]) else s
  }

  lemma {:induction false} StripRightKeepsHead(s: string)
    requires s != "" && !IsSpace(s[0])
    ensures StripRight(s) != "" && StripRight(s)[0] == s[0]
  {
    if IsSpace(s[|s| - 1]) {
      StripRightKeepsHead(s[..|s| - 1]);
    }
  }

  /** Stripping twice is stripping once, so a retry that passes the stripped text binds the same value. */
  lemma StripIdempotent(s: string)
    ensures Strip(Strip(s)) == Strip(s)
  {
    StripLeftDone(s);
    var l := StripLeft(s);
    StripRightDone(l);
    if l != "" {
      StripRightKeepsHead(l);
    }
  }

  lemma {:induction false} StripLeftDone(s: string)
    ensures StripLeft(s) == "" || !IsSpace(StripLeft(s)[0])
  {
    if s != "" && IsSpace(s[0]) {
      StripLeftDone(s[1..]);
    }
  }

  lemma {:induction false} StripRightDone(s: string)
    ensures StripRight(StripRight(s)) == StripRight(s)
  {
    if s != "" && IsSpace(s[|s| - 1]) {
      StripRightDone(s[..|s| - 1]);
    }
  }

  ghost predicate AllSpace(s: string) {
    forall i :: 0 <= i < |s| ==> IsSpace(s[i])
  }

  lemma {:induction false} StripLeftCuts(s: string)
    ensures exists l :: AllSpace(l) && s == l + StripLeft(s)
  {
    if s != "" && IsSpace(s[0]) {
      StripLeftCuts(s[1..]);
      var l :| AllSpace(l) && s[1..] == l + StripLeft(s[1..]);
      assert AllSpace([s[0]] + l) && s == ([s[0]] + l) + StripLeft(s);
    } else {
      assert AllSpace("") && s == "" + StripLeft(s);
    }
  }

  lemma {:induction false} StripRightCuts(s: string)
    ensures exists r :: AllSpace(r) && s == StripRight(s) + r
    ensures StripRight(s) == "" || !IsSpace(StripRight(s)[|StripRight(s)| - 1])
  {
    if s != "" && IsSpace(s[|s| - 1]) {
      var n := |s| - 1;
      StripRightCuts(s[..n]);
      var r :| AllSpace(r) && s[..n] == StripRight(s[..n]) + r;
      assert AllSpace(r + [s[n]]) && s == StripRight(s) + (r + [s[n]]);
    } else {
      assert AllSpace("") && s == StripRight(s) + "";
    }
  }

  /** Stripping takes away white space at both ends, all of it and nothing else. */
  lemma StripMeaning(s: string)
    ensures exists l, r :: AllSpace(l) && AllSpace(r) && s == l + Strip(s) + r
    ensures Strip(s) == "" || (!IsSpace(Strip(s)[0]) && !IsSpace(Strip(s)[|Strip(s)| - 1]))
  {
    StripLeftCuts(s);
    StripRightCuts(StripLeft(s));
    StripLeftDone(s);
    var l :| AllSpace(l) && s == l + StripLeft(s);
    var r :| AllSpace(r) && StripLeft(s) == Strip(s) + r;
    assert s == l + Strip(s) + r;
  }

  function LowerChar(c: char): char {
    if 'A' <= c <= 'Z' then c - 'A' + 'a' else c
  }

  function Lower(s: string): string {
    seq(|s|, i requires 0 <= i < |s| => LowerChar(s[i]))
  }

  /** Only the capitals A to Z change, each to its small letter. */
  lemma LowerMeaning(s: string, i: nat)
    requires i < |s|
    ensures |Lower(s)| == |s| && !('A' <= Lower(s)[i] <= 'Z')
    ensures 'A' <= s[i] <= 'Z' ==> Lower(s)[i] as int == s[i] as int + 32
    ensures !('A' <= s[i] <= 'Z') ==> Lower(s)[i] == s[i]
  {
  }

  /** Splitting at runs of white space, as `str.split()` does. */
  function Words(s: string): seq<string>
    decreases |s|
  {
    var t := StripLeft(s);
    StripLeftShorter(s);
    if t == "" then [] else
      var w := FirstWord(t);
      FirstWordLength(t);
      [w] + Words(t[|w|..])
  }

  function FirstWord(s: string): string {
    if s == "" || IsSpace(s[0]) then "" else [s[0]] + FirstWord(s[1..])
  }

  lemma {:induction false} StripLeftShorter(s: string)
    ensures |StripLeft(s)| <= |s|
    ensures StripLeft(s) == "" || !IsSpace(StripLeft(s)[0])
  {
    if s != "" && IsSpace(s[0]) {
      StripLeftShorter(s[1..]);
    }
  }

  lemma {:induction false} FirstWordLength(s: string)
    ensures |FirstWord(s)| <= |s|
    ensures s != "" && !IsSpace(s[0]) ==> FirstWord(s) != ""
  {
    if s != "" && !IsSpace(s[0]) {
      FirstWordLength(s[1..]);
    }
  }

  function Unwords(ws: seq<string>): string {
    if ws == [] then "" else if |ws| == 1 then ws[0] else ws[0] + " " + Unwords(ws[1..])
  }

  function Without(s: string, c: char): string {
    if s == "" then "" else (if s[0] == c then "" else [s[0]]) + Without(s[1..], c)
  }

  ghost predicate IsWord(w: string) {
    w != "" && forall i :: 0 <= i < |w| ==> !IsSpace(w[i])
  }

  lemma {:induction false} FirstWordIsWord(s: string)
    ensures forall i :: 0 <= i < |FirstWord(s)| ==> !IsSpace(FirstWord(s)[i])
  {
    if s != "" && !IsSpace(s[0]) {
      FirstWordIsWord(s[1..]);
    }
  }

  /** Splitting yields words: not empty and without white space. */
  lemma {:induction false} WordsAreWords(s: string)
    ensures forall w :: w in Words(s) ==> IsWord(w)
    decreases |s|
  {
    var t := StripLeft(s);
    StripLeftShorter(s);
    if t != "" {
      FirstWordLength(t);
      FirstWordIsWord(t);
      WordsAreWords(t[|FirstWord(t)|..]);
    }
  }

  /** A word and what follows it: the word comes off first. */
  lemma {:induction false} FirstWordOf(w: string, rest: string)
    requires (forall i :: 0 <= i < |w| ==> !IsSpace(w[i])) && (rest == "" || IsSpace(rest[0]))
    ensures FirstWord(w + rest) == w
  {
    if w != "" {
      assert (w + rest)[1..] == w[1..] + rest;
      FirstWordOf(w[1..], rest);
    } else {
      assert w + rest == rest;
    }
  }

  lemma WordFirst(w: string, rest: string)
    requires IsWord(w) && (rest == "" || IsSpace(rest[0]))
    ensures Words(w + rest) == [w] + Words(rest)
  {
    FirstWordOf(w, rest);
    assert StripLeft(w + rest) == w + rest;
    assert (w + rest)[|w|..] == rest;
  }

  lemma SpaceFirst(s: string)
    ensures Words(" " + s) == Words(s)
  {
    assert (" " + s)[1..] == s;
    assert StripLeft(" " + s) == StripLeft(s);
  }

  /** Joining words with single spaces and splitting again gives the words back. */
  lemma {:induction false} WordsRoundTrip(ws: seq<string>)
    requires forall w :: w in ws ==> IsWord(w)
    ensures Words(Unwords(ws)) == ws
  {
    if |ws| == 1 {
      assert IsWord(ws[0]);
      WordFirst(ws[0], "");
      assert ws[0] + "" == ws[0] && ws == [ws[0]];
    } else if |ws| > 1 {
      assert IsWord(ws[0]);
      var rest := Unwords(ws[1..]);
      WordsRoundTrip(ws[1..]);
      WordFirst(ws[0], " " + rest);
      SpaceFirst(rest);
      assert ws[0] + " " + rest == ws[0] + (" " + rest);
    }
  }

  /** Dropping a character goes part by part: it vanishes, and every other one stays. */
  lemma {:induction false} WithoutParts(a: string, b: string, c: char)
    ensures Without(a + b, c) == Without(a, c) + Without(b, c)
  {
    if a == "" {
      assert a + b == b;
    } else {
      assert (a + b)[1..] == a[1..] + b;
      WithoutParts(a[1..], b, c);
    }
  }

  lemma WithoutMeaning(x: char, c: char)
    ensures Without("", c) == "" && Without([x], c) == if x == c then "" else [x]
  {
    assert [x][1..] == "";
  }
}
