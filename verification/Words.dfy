/** The words of a text, and the normal form that is digested for it.
    scripts/control-ui-i18n.ts, normalizeText. */
module Words {
  import opened Text

  /** How many characters other than white space `s` starts with. */
  function WordRun(s: string): (n: nat)
    ensures n <= |s| && forall i :: 0 <= i < n ==> !IsSpace(s[i])
    ensures n < |s| ==> IsSpace(s[n])
  {
    if s == "" || IsSpace(s[0]) then 0 else 1 + WordRun(s[1..])
  }

  /** The maximal runs of characters other than white space. */
  function WordsOf(s: string): seq<string> {
    if s == "" then []
    else if IsSpace(s[0]) then WordsOf(s[1..])
    else
      var n := WordRun(s);
      [s[..n]] + WordsOf(s[n..])
  }

  /** normalizeText: trimmed, and split at white space and rejoined with single blanks. */
  function CollapseSpaces(s: string): string
    decreases |s|
  {
    if s == "" then ""
    else if IsSpace(s[0]) then " " + CollapseSpaces(TrimStart(s[1..]))
    else [s[0]] + CollapseSpaces(s[1..])
  }

  function NormalizeText(text: string): string {
    CollapseSpaces(Trim(text))
  }

  function JoinWords(words: seq<string>): string {
    if words == [] then ""
    else if |words| == 1 then words[0]
    else words[0] + " " + JoinWords(words[1..])
  }

  predicate IsWord(w: string) {
    w != "" && forall i | 0 <= i < |w| :: !IsSpace(w[i])
  }

  predicate AllWords(words: seq<string>) {
    forall i | 0 <= i < |words| :: IsWord(words[i])
  }

  lemma {:induction false} RunOfWord(w: string, rest: string)
    requires (forall i :: 0 <= i < |w| ==> !IsSpace(w[i])) && (rest == "" || IsSpace(rest[0]))
    ensures WordRun(w + rest) == |w|
  {
    if w == "" {
      assert w + rest == rest;
    } else {
      assert (w + rest)[1..] == w[1..] + rest;
      RunOfWord(w[1..], rest);
    }
  }

  lemma WordFirst(w: string, rest: string)
    requires IsWord(w) && (rest == "" || IsSpace(rest[0]))
    ensures WordsOf(w + rest) == [w] + WordsOf(rest)
  {
    RunOfWord(w, rest);
    assert (w + rest)[..|w|] == w && (w + rest)[|w|..] == rest;
  }

  lemma {:induction false} WordsAreWords(s: string)
    ensures AllWords(WordsOf(s))
    decreases |s|
  {
    if s != "" {
      WordsAreWords(if IsSpace(s[0]) then s[1..] else s[WordRun(s)..]);
    }
  }

  lemma {:induction false} SpaceBefore(pre: string, s: string)
    requires AllSpace(pre)
    ensures WordsOf(pre + s) == WordsOf(s)
  {
    if pre == "" {
      assert pre + s == s;
    } else {
      assert (pre + s)[1..] == pre[1..] + s;
      SpaceBefore(pre[1..], s);
    }
  }

  lemma {:induction false} SpaceAfter(s: string, post: string)
    requires AllSpace(post)
    ensures WordsOf(s + post) == WordsOf(s)
    decreases |s|
  {
    if s == "" {
      SpaceBefore(post, "");
      assert s + post == post + "";
    } else if IsSpace(s[0]) {
      assert (s + post)[1..] == s[1..] + post;
      SpaceAfter(s[1..], post);
    } else {
      var n := WordRun(s);
      assert s == s[..n] + s[n..] && s + post == s[..n] + (s[n..] + post);
      WordFirst(s[..n], s[n..]);
      WordFirst(s[..n], s[n..] + post);
      SpaceAfter(s[n..], post);
    }
  }

  lemma TrimKeepsWords(s: string)
    ensures WordsOf(Trim(s)) == WordsOf(s)
  {
    hide Trim, WordsOf, AllSpace, IsSpace, Trimmed;
    var pre, post := TrimSplit(s);
    assert s == pre + (Trim(s) + post);
    SpaceBefore(pre, Trim(s) + post);
    SpaceAfter(Trim(s), post);
  }

  lemma {:induction false} CollapseWord(w: string, rest: string)
    requires forall i :: 0 <= i < |w| ==> !IsSpace(w[i])
    ensures CollapseSpaces(w + rest) == w + CollapseSpaces(rest)
  {
    if w == "" {
      assert w + rest == rest;
    } else {
      assert (w + rest)[1..] == w[1..] + rest;
      CollapseWord(w[1..], rest);
      assert [w[0]] + (w[1..] + CollapseSpaces(rest)) == w + CollapseSpaces(rest);
    }
  }

  lemma LastOfTail(s: string, n: nat, pre: string, next: string)
    requires n < |s| && IsSpace(s[n]) && AllSpace(pre) && s[n + 1..] == pre + next
    ensures next == "" ==> IsSpace(s[|s| - 1])
    ensures next != "" ==> next[|next| - 1] == s[|s| - 1]
  {
    var tail := s[n + 1..];
    if tail != "" {
      assert tail[|tail| - 1] == s[|s| - 1];
    }
  }

  /** What follows a word of a trimmed text: nothing, or white space and a trimmed text. */
  lemma AfterWord(s: string) returns (next: string)
    requires Trimmed(s)
    ensures var n := WordRun(s);
      && n > 0
      && (n < |s| ==>
            && Trimmed(next) && |next| < |s|
            && CollapseSpaces(s[n..]) == " " + CollapseSpaces(next)
            && WordsOf(s[n..]) == WordsOf(next))
  {
    hide IsSpace, AllSpace, TrimStart;
    var n := WordRun(s);
    next := "";
    if n < |s| {
      next := TrimStart(s[n + 1..]);
      var pre := TrimStartSplit(s[n + 1..]);
      assert s[n..][1..] == s[n + 1..];
      LastOfTail(s, n, pre, next);
      SpaceBefore(pre, next);
    }
  }

  lemma WordsNonEmpty(s: string)
    requires Trimmed(s)
    ensures WordsOf(s) != []
  {
  }

  lemma FirstWord(s: string)
    requires Trimmed(s)
    ensures s == s[..WordRun(s)] + s[WordRun(s)..]
    ensures WordsOf(s) == [s[..WordRun(s)]] + WordsOf(s[WordRun(s)..])
  {
    hide IsSpace;
  }

  lemma NothingLeft(w: string)
    ensures WordsOf("") == [] && CollapseSpaces("") == "" && JoinWords([w]) == w && w + "" == w
    ensures [w] + [] == [w] && JoinWords([]) == ""
  {
  }

  lemma JoinMore(w: string, words: seq<string>)
    requires words != []
    ensures JoinWords([w] + words) == w + " " + JoinWords(words)
  {
    assert ([w] + words)[1..] == words;
  }

  /** A trimmed text collapses to its words, joined by single blanks. */
  lemma {:induction false} CollapseJoins(s: string)
    requires s == "" || Trimmed(s)
    ensures CollapseSpaces(s) == JoinWords(WordsOf(s))
    decreases |s|
  {
    hide WordsOf, CollapseSpaces, Trimmed, IsSpace, JoinWords;
    NothingLeft(s);
    if s != "" {
      var next := AfterWord(s);
      var n := WordRun(s);
      var w, rest := s[..n], s[n..];
      FirstWord(s);
      CollapseWord(w, rest);
      if n == |s| {
        assert rest == "" && w == s;
      } else {
        WordsNonEmpty(next);
        CollapseJoins(next);
        JoinMore(w, WordsOf(next));
        assert w + (" " + CollapseSpaces(next)) == w + " " + CollapseSpaces(next);
      }
    }
  }

  lemma NormalFormJoins(text: string)
    ensures NormalizeText(text) == JoinWords(WordsOf(text))
  {
    var pre, post := TrimSplit(text);
    TrimKeepsWords(text);
    hide Trim, CollapseSpaces, WordsOf;
    CollapseJoins(Trim(text));
  }

  lemma {:induction false} JoinedWords(words: seq<string>)
    requires AllWords(words)
    ensures WordsOf(JoinWords(words)) == words
  {
    if words != [] {
      var w, rest := words[0], words[1..];
      if rest == [] {
        WordFirst(w, "");
        assert w + "" == w;
      } else {
        JoinedWords(rest);
        WordFirst(w, " " + JoinWords(rest));
        assert w + " " + JoinWords(rest) == w + (" " + JoinWords(rest));
        assert (" " + JoinWords(rest))[1..] == JoinWords(rest);
      }
    }
  }

  /** Two texts have the same normal form exactly when they have the same words. */
  lemma NormalFormIffWords(a: string, b: string)
    ensures NormalizeText(a) == NormalizeText(b) <==> WordsOf(a) == WordsOf(b)
  {
    NormalFormJoins(a);
    NormalFormJoins(b);
    WordsAreWords(a);
    WordsAreWords(b);
    hide NormalizeText, WordsOf, AllWords;
    JoinedWords(WordsOf(a));
    JoinedWords(WordsOf(b));
  }
}
