/** Strings as sequences of characters: the few operations of the source language
    that several components share (trimming, splitting, lower-casing, containment). */
module Text {

  datatype Option<+T> = None | Some(value: T)

  /** The white space and line terminators that `trim` removes. */
  predicate IsSpace(c: char) {
    || '\t' <= c <= '\r' || c == ' ' || c == '\U{00A0}' || c == '\U{1680}'
    || '\U{2000}' <= c <= '\U{200A}' || c == '\U{2028}' || c == '\U{2029}'
    || c == '\U{202F}' || c == '\U{205F}' || c == '\U{3000}' || c == '\U{FEFF}'
  }

  function TrimStart(s: string): (r: string)
    ensures r != "" ==> !IsSpace(r[0])
    ensures |r| <= |s| && r == s[|s| - |r|..]
  {
    if s != "" && IsSpace(s[0]) then TrimStart(s[1..]) else s
  }

  function TrimEnd(s: string): (r: string)
    ensures r != "" ==> !IsSpace(r[|r| - 1])
    ensures |r| <= |s| && r == s[..|r|]
  {
    if s != "" && IsSpace(s[|s| - 1]) then TrimEnd(s[..|s| - 1]) else s
  }

  function Trim(s: string): (r: string)
    ensures |r| <= |s|
    ensures r != "" ==> !IsSpace(r[0]) && !IsSpace(r[|r| - 1])
    ensures |r| == |s| ==> r == s
  {
    TrimEnd(TrimStart(s))
  }

  /** The code points that are trimmed: tab, line feed, vertical tab, form feed, carriage
      return, the space separators, the two Unicode line terminators and the byte order mark. */
  lemma SpaceMeaning(c: char)
    ensures IsSpace(c) <==> c as int in {0x9, 0xA, 0xB, 0xC, 0xD, 0x20, 0xA0, 0x1680,
      0x2000, 0x2001, 0x2002, 0x2003, 0x2004, 0x2005, 0x2006, 0x2007, 0x2008, 0x2009, 0x200A,
      0x2028, 0x2029, 0x202F, 0x205F, 0x3000, 0xFEFF}
  {
  }

  predicate AllSpace(s: string) {
    forall i | 0 <= i < |s| :: IsSpace(s[i])
  }

  /** Not empty, and with no white space at either end. */
  predicate Trimmed(s: string) {
    s != "" && !IsSpace(s[0]) && !IsSpace(s[|s| - 1])
  }

  lemma {:induction false} TrimStartOf(pre: string, s: string)
    requires AllSpace(pre) && (s == "" || !IsSpace(s[0]))
    ensures TrimStart(pre + s) == s
  {
    hide IsSpace;
    if pre == "" {
      assert pre + s == s;
    } else {
      assert (pre + s)[1..] == pre[1..] + s;
      TrimStartOf(pre[1..], s);
    }
  }

  lemma {:induction false} TrimEndOf(s: string, post: string)
    requires AllSpace(post) && (s == "" || !IsSpace(s[|s| - 1]))
    ensures TrimEnd(s + post) == s
    decreases |post|
  {
    hide IsSpace;
    if post == "" {
      assert s + post == s;
    } else {
      var n := |post| - 1;
      assert (s + post)[..|s + post| - 1] == s + post[..n];
      TrimEndOf(s, post[..n]);
    }
  }

  lemma SpaceTwice(a: string, b: string)
    requires AllSpace(a) && AllSpace(b)
    ensures AllSpace(a + b) && AllSpace("")
  {
    hide IsSpace;
  }

  /** Trimming removes the white space around a core, all of it and nothing else. */
  lemma TrimOf(pre: string, core: string, post: string)
    requires AllSpace(pre) && AllSpace(post) && (core == "" || Trimmed(core))
    ensures Trim(pre + core + post) == core
  {
    hide IsSpace, TrimStart, TrimEnd, AllSpace;
    if core == "" {
      SpaceTwice(pre, post);
      TrimStartOf(pre + post, "");
      TrimEndOf("", "");
      assert pre + core + post == (pre + post) + "" && "" + "" == "";
    } else {
      TrimStartOf(pre, core + post);
      assert pre + core + post == pre + (core + post);
      TrimEndOf(core, post);
    }
  }

  lemma {:induction false} TrimStartDrops(s: string, i: nat)
    requires i < |s| - |TrimStart(s)|
    ensures IsSpace(s[i])
  {
    hide IsSpace;
    if i > 0 {
      TrimStartDrops(s[1..], i - 1);
    }
  }

  lemma {:induction false} TrimEndDrops(s: string, i: nat)
    requires |TrimEnd(s)| <= i < |s|
    ensures IsSpace(s[i])
  {
    hide IsSpace;
    if i < |s| - 1 {
      TrimEndDrops(s[..|s| - 1], i);
    }
  }

  lemma TrimStartSplit(s: string) returns (pre: string)
    ensures AllSpace(pre) && s == pre + TrimStart(s)
  {
    pre := s[..|s| - |TrimStart(s)|];
    hide IsSpace, TrimStart;
    forall i | 0 <= i < |pre| ensures IsSpace(pre[i]) {
      TrimStartDrops(s, i);
    }
  }

  lemma TrimEndSplit(s: string) returns (post: string)
    ensures AllSpace(post) && s == TrimEnd(s) + post
  {
    var n := |TrimEnd(s)|;
    post := s[n..];
    hide IsSpace, TrimEnd;
    forall i | 0 <= i < |post| ensures IsSpace(post[i]) {
      TrimEndDrops(s, n + i);
    }
  }

  /** Every text is its trimmed core between white space. */
  lemma TrimSplit(s: string) returns (pre: string, post: string)
    ensures AllSpace(pre) && AllSpace(post) && s == pre + Trim(s) + post
    ensures Trim(s) == "" || Trimmed(Trim(s))
  {
    hide TrimStart, TrimEnd, AllSpace, IsSpace;
    pre := TrimStartSplit(s);
    post := TrimEndSplit(TrimStart(s));
    assert s == pre + (Trim(s) + post);
  }

  lemma BlankMeans(s: string)
    ensures Blank(s) <==> AllSpace(s)
  {
    var pre, post := TrimSplit(s);
    if AllSpace(s) {
      TrimOf(s, "", "");
      assert s + "" + "" == s;
    }
  }

  predicate Blank(s: string) {
    Trim(s) == ""
  }

  /** `s.split(sep)` for a one-character separator. */
  function Split(s: string, sep: char): (r: seq<string>)
    ensures |r| >= 1
  {
    if s == "" then [""]
    else
      var rest := Split(s[1..], sep);
      if s[0] == sep then [""] + rest else [[s[0]] + rest[0]] + rest[1..]
  }

  lemma SplitFree(s: string, sep: char)
    requires sep !in s
    ensures Split(s, sep) == [s]
  {
    if s != "" {
      SplitFree(s[1..], sep);
      assert [s[0]] + s[1..] == s;
    }
  }

  lemma {:induction false} SplitAt(a: string, sep: char, b: string)
    ensures Split(a + [sep] + b, sep) == Split(a, sep) + Split(b, sep)
  {
    var s := a + [sep] + b;
    if a == "" {
      assert s[1..] == b;
    } else {
      assert s[1..] == a[1..] + [sep] + b;
      SplitAt(a[1..], sep, b);
    }
  }

  predicate Contains(s: string, needle: string) {
    exists i | 0 <= i <= |s| :: needle <= s[i..]
  }

  /** Lower-casing as far as an ASCII needle can see it: the Kelvin sign is the one
      character outside ASCII whose lower-case form is a single ASCII letter. */
  function LowerChar(c: char): char {
    if 'A' <= c <= 'Z' then ((c as int) + 32) as char
    else if c == '\U{212A}' then 'k'
    else c
  }

  function Lower(s: string): string {
    seq(|s|, i requires 0 <= i < |s| => LowerChar(s[i]))
  }

  /** The character, or the other letter case of it, that lower-cases to `l`. */
  predicate InAnyCase(c: char, l: char) {
    || (c == l && !('A' <= c <= 'Z') && c != '\U{212A}')
    || ('A' <= c <= 'Z' && c as int + 32 == l as int)
    || (c == '\U{212A}' && l == 'k')
  }

  /** Whether the phrase, in any letter case, stands in `s` at `i`. */
  predicate StandsAt(s: string, phrase: string, i: nat) {
    i + |phrase| <= |s| && forall j | 0 <= j < |phrase| :: InAnyCase(s[i + j], phrase[j])
  }

  /** Searching a lower-cased text finds a phrase exactly where it stands in any letter case. */
  lemma ContainsInAnyCase(s: string, phrase: string)
    ensures Contains(Lower(s), phrase) <==> exists i :: 0 <= i <= |s| && StandsAt(s, phrase, i)
  {
    var t := Lower(s);
    forall i | 0 <= i <= |s| ensures phrase <= t[i..] <==> StandsAt(s, phrase, i) {
      if phrase <= t[i..] {
        assert forall j :: 0 <= j < |phrase| ==> t[i..][j] == phrase[j];
      }
      if StandsAt(s, phrase, i) {
        assert forall j :: 0 <= j < |phrase| ==> t[i..][j] == phrase[j];
      }
    }
  }

  function Concat<T>(parts: seq<seq<T>>): seq<T> {
    if parts == [] then [] else parts[0] + Concat(parts[1..])
  }

  lemma Regroup<T>(a: seq<T>, b: seq<T>, c: seq<T>)
    ensures a + (b + c) == a + b + c
  {
  }

  lemma ConcatSnoc<T>(parts: seq<seq<T>>, last: seq<T>)
    ensures Concat(parts + [last]) == Concat(parts) + last
  {
    if parts == [] {
      assert parts + [last] == [last];
    } else {
      assert (parts + [last])[1..] == parts[1..] + [last];
      ConcatSnoc(parts[1..], last);
    }
  }

  lemma {:induction false} ConcatAppend<T>(a: seq<seq<T>>, b: seq<seq<T>>)
    ensures Concat(a + b) == Concat(a) + Concat(b)
  {
    if a == [] {
      assert a + b == b;
    } else {
      assert (a + b)[0] == a[0] && (a + b)[1..] == a[1..] + b;
      ConcatAppend(a[1..], b);
      assert a[0] + (Concat(a[1..]) + Concat(b)) == a[0] + Concat(a[1..]) + Concat(b);
    }
  }

  function Min(a: nat, b: nat): nat {
    if a < b then a else b
  }

  /** `String(n)` for a natural number. */
  function Decimal(n: nat): (r: string)
    ensures r != ""
    ensures forall i :: 0 <= i < |r| ==> '0' <= r[i] <= '9'
  {
    var digit := ['0' + ((n % 10) as char)];
    if n < 10 then digit else Decimal(n / 10) + digit
  }
}
