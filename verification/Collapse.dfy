/** The white-space collapsing that Chrome-extension and scraper fields go through. */
module Collapse {

  /** Code points that are dropped: the zero-width characters and the byte-order mark. */
  predicate ZeroWidth(c: char) {
    c == '\U{200b}' || c == '\U{200c}' || c == '\U{200d}' || c == '\U{feff}'
  }

  /** Code points that end a word. */
  predicate Break(c: char) {
    c == ' ' || c == '\t' || c == '\n' || c == '\r' || c == '\U{00a0}'
  }

  // ---- the specification: the list of words, joined by single spaces ----

  /** The words completed so far, and the word still being read. */
  datatype Scan = Scan(done: seq<string>, current: string) {
    function Words(): seq<string> {
      if current == "" then done else done + [current]
    }
  }

  function ScanWords(s: string): Scan {
    if s == "" then Scan([], "")
    else
      var before := ScanWords(s[..|s| - 1]);
      var c := s[|s| - 1];
      if ZeroWidth(c) then before
      else if Break(c) then Scan(before.Words(), "")
      else Scan(before.done, before.current + [c])
  }

  function Words(s: string): seq<string> {
    ScanWords(s).Words()
  }

  function Join(words: seq<string>): string {
    if words == [] then ""
    else if |words| == 1 then words[0]
    else Join(words[..|words| - 1]) + " " + words[|words| - 1]
  }

  function CollapseSpec(s: string): string {
    Join(Words(s))
  }

  // ---- what Words means: three equations that determine splitting ----

  predicate WordChar(c: char) {
    !ZeroWidth(c) && !Break(c)
  }

  predicate IsWord(w: string) {
    w != "" && forall i :: 0 <= i < |w| ==> WordChar(w[i])
  }

  lemma {:induction false} ScanSolid(w: string)
    requires forall i :: 0 <= i < |w| ==> WordChar(w[i])
    ensures ScanWords(w) == Scan([], w)
  {
    if w != "" {
      ScanSolid(w[..|w| - 1]);
      assert w == w[..|w| - 1] + [w[|w| - 1]];
    }
  }

  lemma {:induction false} ScanAfterBreak(a: string, c: char, b: string)
    requires Break(c)
    ensures var whole := ScanWords(a + [c] + b);
            var right := ScanWords(b);
            whole.done == Words(a) + right.done && whole.current == right.current
  {
    var s := a + [c] + b;
    if b == "" {
      assert s[..|s| - 1] == a && s[|s| - 1] == c;
    } else {
      assert s[..|s| - 1] == a + [c] + b[..|b| - 1];
      assert s[|s| - 1] == b[|b| - 1];
      ScanAfterBreak(a, c, b[..|b| - 1]);
    }
  }

  /** A break separates: the words of the whole are those of the left and then those of the right. */
  lemma WordsSplit(a: string, c: char, b: string)
    requires Break(c)
    ensures Words(a + [c] + b) == Words(a) + Words(b)
  {
    ScanAfterBreak(a, c, b);
  }

  lemma WordsOfWord(w: string)
    requires IsWord(w)
    ensures Words(w) == [w]
  {
    ScanSolid(w);
  }

  lemma {:induction false} ScanDropsZeroWidth(a: string, c: char, b: string)
    requires ZeroWidth(c)
    ensures ScanWords(a + [c] + b) == ScanWords(a + b)
  {
    var s := a + [c] + b;
    if b == "" {
      assert s[..|s| - 1] == a && s[|s| - 1] == c && a + b == a;
    } else {
      var t := a + b;
      assert s[..|s| - 1] == a + [c] + b[..|b| - 1];
      assert t[..|t| - 1] == a + b[..|b| - 1];
      assert s[|s| - 1] == b[|b| - 1] == t[|t| - 1];
      ScanDropsZeroWidth(a, c, b[..|b| - 1]);
    }
  }

  lemma {:induction false} ScanYieldsWords(s: string)
    ensures forall i :: 0 <= i < |ScanWords(s).done| ==> IsWord(ScanWords(s).done[i])
    ensures forall i :: 0 <= i < |ScanWords(s).current| ==> WordChar(ScanWords(s).current[i])
  {
    if s != "" {
      ScanYieldsWords(s[..|s| - 1]);
    }
  }

  lemma WordsAreWords(s: string)
    ensures forall i :: 0 <= i < |Words(s)| ==> IsWord(Words(s)[i])
  {
    ScanYieldsWords(s);
  }

  /** Splitting a joined list of words gives the list back. */
  lemma {:induction false} WordsOfJoin(words: seq<string>)
    requires forall i :: 0 <= i < |words| ==> IsWord(words[i])
    ensures Words(Join(words)) == words
  {
    if words == [] {
    } else if |words| == 1 {
      WordsOfWord(words[0]);
      assert words == [words[0]];
    } else {
      var front, last := words[..|words| - 1], words[|words| - 1];
      WordsOfJoin(front);
      WordsSplit(Join(front), ' ', last);
      WordsOfWord(last);
      assert words == front + [last];
    }
  }

  /** The characters that separate words, named: space, tab, newline, carriage return and the no-break space. */
  lemma SeparatorsNamed(a: string, c: char, b: string)
    requires c in [' ', '\U{0009}', '\U{000a}', '\U{000d}', '\U{00a0}']
    ensures Words(a + [c] + b) == Words(a) + Words(b)
  {
    WordsSplit(a, c, b);
  }

  /** The characters that vanish, named: the three zero-width code points and the byte-order mark. */
  lemma VanishingNamed(a: string, c: char, b: string)
    requires c in ['\U{200b}', '\U{200c}', '\U{200d}', '\U{feff}']
    ensures Words(a + [c] + b) == Words(a + b) && CollapseSpec(a + [c] + b) == CollapseSpec(a + b)
  {
    ScanDropsZeroWidth(a, c, b);
  }

  /** Every other character is kept, as part of a word. */
  lemma OthersKept(c: char)
    ensures Words([c]) ==
      if c in [' ', '\U{0009}', '\U{000a}', '\U{000d}', '\U{00a0}', '\U{200b}', '\U{200c}', '\U{200d}', '\U{feff}'] then [] else [[c]]
  {
    assert [c][..|[c]| - 1] == "";
    assert ScanWords([c]) == if ZeroWidth(c) || Break(c) then Scan([], "") else Scan([], [c]);
  }

  /** None of those characters but the plain space is left. */
  lemma NothingFoldableLeft(s: string)
    ensures forall i :: 0 <= i < |CollapseSpec(s)| ==>
      CollapseSpec(s)[i] !in ['\U{0009}', '\U{000a}', '\U{000d}', '\U{00a0}', '\U{200b}', '\U{200c}', '\U{200d}', '\U{feff}']
  {
    hide CollapseSpec;
    CollapseSpecNormal(s);
  }

  /** The normal form: only plain spaces as breaks, none leading, trailing or doubled, nothing zero-width. */
  predicate Collapsed(s: string) {
    && (forall i :: 0 <= i < |s| ==> s[i] == ' ' || WordChar(s[i]))
    && (s != "" ==> s[0] != ' ' && s[|s| - 1] != ' ')
    && (forall i :: 0 < i < |s| ==> !(s[i - 1] == ' ' && s[i] == ' '))
  }

  lemma {:induction false} JoinIsCollapsed(words: seq<string>)
    requires forall i :: 0 <= i < |words| ==> IsWord(words[i])
    ensures Collapsed(Join(words))
    ensures words != [] ==> Join(words) != ""
  {
    if |words| > 1 {
      var front, last := words[..|words| - 1], words[|words| - 1];
      JoinIsCollapsed(front);
      var j := Join(front);
      var s := j + " " + last;
      forall i | 0 <= i < |s|
        ensures s[i] == ' ' || WordChar(s[i])
      {
        if i > |j| {
          assert s[i] == last[i - |j| - 1];
        }
      }
      forall i | 0 < i < |s|
        ensures !(s[i - 1] == ' ' && s[i] == ' ')
      {
        if i > |j| {
          assert s[i] == last[i - |j| - 1];
        }
      }
      assert s[|s| - 1] == last[|last| - 1];
    }
  }

  lemma CollapseSpecNormal(s: string)
    ensures Collapsed(CollapseSpec(s))
    ensures Words(CollapseSpec(s)) == Words(s)
    ensures CollapseSpec(CollapseSpec(s)) == CollapseSpec(s)
  {
    WordsAreWords(s);
    JoinIsCollapsed(Words(s));
    WordsOfJoin(Words(s));
  }

  /** A string is its own collapse exactly when it is already in normal form. */
  lemma CollapseSpecFixes(s: string)
    ensures CollapseSpec(s) == s <==> Collapsed(s)
  {
    if Collapsed(s) {
      CollapsedIsFixed(s);
    }
    CollapseSpecNormal(s);
  }

  lemma {:induction false} CollapsedIsFixed(s: string)
    requires Collapsed(s)
    ensures CollapseSpec(s) == s
  {
    if exists i :: 0 <= i < |s| && s[i] == ' ' {
      var i := LastSpace(s);
      var front, last := s[..i], s[i + 1..];
      assert s == front + [' '] + last;
      assert i > 0 && front[i - 1] != ' ';
      assert front[0] == s[0];
      CollapsedIsFixed(front);
      WordsSplit(front, ' ', last);
      forall j | 0 <= j < |last|
        ensures WordChar(last[j])
      {
        assert last[j] == s[i + 1 + j];
      }
      WordsOfWord(last);
      var ws := Words(s);
      assert ws == Words(front) + [last];
      assert ws[..|ws| - 1] == Words(front);
    } else if s != "" {
      WordsOfWord(s);
    }
  }

  function LastSpace(s: string): (i: nat)
    requires exists i :: 0 <= i < |s| && s[i] == ' '
    ensures i < |s| && s[i] == ' '
    ensures forall j :: i < j < |s| ==> s[j] != ' '
  {
    if s[|s| - 1] == ' ' then |s| - 1
    else
      var front := s[..|s| - 1];
      assert forall i :: 0 <= i < |front| ==> front[i] == s[i];
      LastSpace(front)
  }

  // ---- the code: replacer, loop with prevSpace, final trim ----

  /** The string replacer applied first: NBSP becomes a plain space, zero-width characters vanish. */
  function ReplaceInvisible(s: string): string {
    if s == "" then ""
    else
      var c := s[|s| - 1];
      ReplaceInvisible(s[..|s| - 1]) +
      (if c == '\U{00a0}' then " " else if ZeroWidth(c) then "" else [c])
  }

  lemma {:induction false} ScanIgnoresReplacement(s: string)
    ensures ScanWords(ReplaceInvisible(s)) == ScanWords(s)
  {
    if s != "" {
      var front, c := s[..|s| - 1], s[|s| - 1];
      ScanIgnoresReplacement(front);
      var r := ReplaceInvisible(s);
      if ZeroWidth(c) {
        assert r == ReplaceInvisible(front);
      } else {
        assert r[..|r| - 1] == ReplaceInvisible(front);
      }
    }
  }

  lemma {:induction false} NothingInvisibleLeft(s: string)
    ensures forall i :: 0 <= i < |ReplaceInvisible(s)| ==>
      !ZeroWidth(ReplaceInvisible(s)[i]) && ReplaceInvisible(s)[i] != '\U{00a0}'
  {
    if s != "" {
      NothingInvisibleLeft(s[..|s| - 1]);
    }
  }

  function TrimRightPlain(s: string): string {
    if s != "" && s[|s| - 1] == ' ' then TrimRightPlain(s[..|s| - 1]) else s
  }

  /** What the builder holds once the scan stands at `scan`: the joined words, and one space after a break. */
  ghost predicate Built(b: string, scan: Scan, prevSpace: bool) {
    && (scan.current != "" ==> b == Join(scan.Words()) && !prevSpace)
    && (scan.current == "" ==> prevSpace && b == if scan.done == [] then "" else Join(scan.done) + " ")
  }

  lemma JoinExtends(done: seq<string>, w: string, c: char)
    requires w != ""
    ensures Join(done + [w + [c]]) == Join(done + [w]) + [c]
  {
    assert (done + [w + [c]])[..|done|] == done;
    assert (done + [w])[..|done|] == done;
  }

  lemma JoinStarts(done: seq<string>, c: char)
    ensures Join(done + [[c]]) == (if done == [] then "" else Join(done) + " ") + [c]
  {
    assert (done + [[c]])[..|done|] == done;
  }

  lemma BuiltSteps(b: string, scan: Scan, prevSpace: bool, c: char)
    requires Built(b, scan, prevSpace)
    ensures Built(if prevSpace then b else b + " ", Scan(scan.Words(), ""), true)
    ensures Built(b + [c], Scan(scan.done, scan.current + [c]), false)
  {
    if scan.current == "" {
      JoinStarts(scan.done, c);
    } else {
      JoinExtends(scan.done, scan.current, c);
    }
  }

  lemma TrimBuilt(b: string, scan: Scan, prevSpace: bool)
    requires Built(b, scan, prevSpace)
    requires Collapsed(Join(scan.Words()))
    ensures TrimRightPlain(b) == Join(scan.Words())
  {
    var joined := Join(scan.Words());
    if b != joined {
      assert b[..|b| - 1] == joined;
    }
  }

  method CollapseWhitespace(s: string) returns (r: string)
    ensures r == CollapseSpec(s)
  {
    var t := ReplaceInvisible(s);
    ScanIgnoresReplacement(s);
    NothingInvisibleLeft(s);
    var b := "";
    var prevSpace := true;
    for i := 0 to |t|
      invariant Built(b, ScanWords(t[..i]), prevSpace)
    {
      var c := t[i];
      BuiltSteps(b, ScanWords(t[..i]), prevSpace, c);
      assert t[..i + 1][..i] == t[..i];
      if c == ' ' || c == '\t' || c == '\n' || c == '\r' {
        if !prevSpace {
          b := b + " ";
          prevSpace := true;
        }
        continue;
      }
      b := b + [c];
      prevSpace := false;
    }
    assert t[..|t|] == t;
    WordsAreWords(s);
    JoinIsCollapsed(Words(s));
    TrimBuilt(b, ScanWords(t), prevSpace);
    r := TrimRightPlain(b);
  }
}
