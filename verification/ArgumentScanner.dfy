/** Finding the end of a call and splitting its arguments, aware of quotes and brackets.
    scripts/check-temp-path-guardrails.ts, findMatchingParen and splitTopLevelArguments. */
module ArgumentScanner {
  import opened Text

  // ---------- quotes ----------

  datatype Quote = Quote(mark: Option<char>, escaped: bool)

  const UNQUOTED := Quote(None, false)

  predicate IsQuoteMark(ch: char) {
    ch == '\'' || ch == '"' || ch == '`'
  }

  /** Whether `ch` is outside quotes and does not open one. */
  predicate Plain(q: Quote, ch: char) {
    q.mark.None? && !IsQuoteMark(ch)
  }

  function NextQuote(q: Quote, ch: char): Quote {
    if q.mark.None? then if IsQuoteMark(ch) then q.(mark := Some(ch)) else q
    else if q.escaped then q.(escaped := false)
    else if ch == '\\' then q.(escaped := true)
    else if ch == q.mark.value then q.(mark := None)
    else q
  }

  /** The mutable quote state that both scanners share. */
  class QuoteScanState {
    var mark: Option<char>
    var escaped: bool

    function Abstract(): Quote
      reads this
    {
      Quote(mark, escaped)
    }

    constructor ()
      ensures Abstract() == UNQUOTED
    {
      mark, escaped := None, false;
    }

    method BeginQuotedSection(ch: char) returns (begun: bool)
      modifies this
      ensures begun == IsQuoteMark(ch)
      ensures Abstract() == if begun then old(Abstract()).(mark := Some(ch)) else old(Abstract())
    {
      if ch != '\'' && ch != '"' && ch != '`' {
        return false;
      }
      mark := Some(ch);
      return true;
    }

    method ConsumeQuotedChar(ch: char) returns (consumed: bool)
      modifies this
      ensures consumed == old(mark).Some?
      ensures Abstract() == if consumed then NextQuote(old(Abstract()), ch) else old(Abstract())
    {
      if mark.None? {
        return false;
      }
      if escaped {
        escaped := false;
        return true;
      }
      if ch == '\\' {
        escaped := true;
        return true;
      }
      if Some(ch) == mark {
        mark := None;
      }
      return true;
    }
  }

  // ---------- the matching parenthesis ----------

  /** The offset in `s` of the parenthesis that brings `depth` to zero, or -1. */
  function FindClose(q: Quote, depth: nat, s: string): (r: int)
    requires depth >= 1
    ensures -1 <= r < |s|
    ensures r >= 0 ==> s[r] == ')'
    decreases |s|
  {
    if s == "" then -1
    else if Plain(q, s[0]) && s[0] == ')' && depth == 1 then 0
    else
      var depth' := if !Plain(q, s[0]) then depth
        else if s[0] == '(' then depth + 1
        else if s[0] == ')' then depth - 1
        else depth;
      var r := FindClose(NextQuote(q, s[0]), depth', s[1..]);
      if r < 0 then -1 else r + 1
  }

  /** findMatchingParen as a function. */
  function MatchingParen(source: string, openIndex: nat): int
    requires openIndex < |source|
  {
    var r := FindClose(UNQUOTED, 1, source[openIndex + 1..]);
    if r < 0 then -1 else openIndex + 1 + r
  }

  method FindMatchingParen(source: string, openIndex: nat) returns (r: int)
    requires openIndex < |source|
    ensures r == MatchingParen(source, openIndex)
  {
    var depth := 1;
    var quoteState := new QuoteScanState();
    var i := openIndex + 1;
    while i < |source|
      invariant openIndex + 1 <= i <= |source| && depth >= 1
      invariant MatchingParen(source, openIndex)
        == var off := FindClose(quoteState.Abstract(), depth, source[i..]); if off < 0 then -1 else i + off
    {
      var ch := source[i];
      ghost var q := quoteState.Abstract();
      assert source[i..][0] == ch && source[i..][1..] == source[i + 1..];
      i := i + 1;
      var consumed := quoteState.ConsumeQuotedChar(ch);
      if consumed {
        continue;
      }
      var begun := quoteState.BeginQuotedSection(ch);
      if begun {
        continue;
      }
      assert Plain(q, ch) && quoteState.Abstract() == NextQuote(q, ch);
      if ch == '(' {
        depth := depth + 1;
        continue;
      }
      if ch == ')' {
        if depth == 1 {
          return i - 1;
        }
        depth := depth - 1;
      }
    }
    r := -1;
  }

  // ---------- the top-level arguments ----------

  datatype Scan = Scan(q: Quote, paren: nat, bracket: nat, brace: nat)

  const CLEAN := Scan(UNQUOTED, 0, 0, 0)

  function Up(depth: nat, ch: char, open: char, close: char): nat {
    if ch == open then depth + 1
    else if ch == close && depth > 0 then depth - 1
    else depth
  }

  function Advance(st: Scan, ch: char): Scan {
    if !Plain(st.q, ch) then st.(q := NextQuote(st.q, ch))
    else Scan(st.q, Up(st.paren, ch, '(', ')'), Up(st.bracket, ch, '[', ']'), Up(st.brace, ch, '{', '}'))
  }

  predicate IsTopComma(st: Scan, ch: char) {
    st.q.mark.None? && ch == ',' && st.paren == 0 && st.bracket == 0 && st.brace == 0
  }

  /** The text between top-level commas, untrimmed, the last piece included. */
  function Pieces(st: Scan, s: string): (r: seq<string>)
    ensures |r| >= 1
    decreases |s|
  {
    if s == "" then [""]
    else
      var rest := Pieces(Advance(st, s[0]), s[1..]);
      if IsTopComma(st, s[0]) then [""] + rest else [[s[0]] + rest[0]] + rest[1..]
  }

  function TrimAll(pieces: seq<string>): (r: seq<string>)
    ensures |r| == |pieces|
  {
    seq(|pieces|, i requires 0 <= i < |pieces| => Trim(pieces[i]))
  }

  /** splitTopLevelArguments as a function: a blank last piece is dropped. */
  function SplitArguments(source: string): seq<string> {
    var pieces := Pieces(CLEAN, source);
    var n := |pieces| - 1;
    if Blank(pieces[n]) then TrimAll(pieces[..n]) else TrimAll(pieces)
  }

  /** What is closed, what is open and what remains make up the pieces of the source. */
  ghost predicate Splitting(source: string, closed: seq<string>, current: string, st: Scan, rest: string) {
    Pieces(CLEAN, source) == closed + Onto(current, Pieces(st, rest))
  }

  lemma SplittingStarts(source: string)
    ensures Splitting(source, [], "", CLEAN, source)
  {
    OntoNothing(Pieces(CLEAN, source));
  }

  lemma SplittingStep(source: string, closed: seq<string>, current: string, st: Scan, rest: string)
    requires rest != "" && Splitting(source, closed, current, st, rest)
    ensures if IsTopComma(st, rest[0])
      then Splitting(source, closed + [current], "", Advance(st, rest[0]), rest[1..])
      else Splitting(source, closed, current + [rest[0]], Advance(st, rest[0]), rest[1..])
  {
    OntoStep(current, st, rest);
    hide Pieces, Onto, Advance, IsTopComma;
    var next := Pieces(Advance(st, rest[0]), rest[1..]);
    assert closed + ([current] + Onto("", next)) == closed + [current] + Onto("", next);
  }

  lemma SplittingEnds(source: string, closed: seq<string>, current: string, st: Scan)
    requires Splitting(source, closed, current, st, "")
    ensures SplitArguments(source) == TrimAll(closed) + if Blank(current) then [] else [Trim(current)]
  {
    assert current + "" == current;
    assert Pieces(CLEAN, source) == closed + [current];
    TrimAllAppend(closed, current);
  }

  lemma TrimAllAppend(closed: seq<string>, current: string)
    ensures TrimAll(closed + [current]) == TrimAll(closed) + [Trim(current)]
  {
  }

  /** The chain of bracket tests in the splitting loop. */
  method UpdateDepths(ch: char, paren: nat, bracket: nat, brace: nat)
      returns (parenDepth: nat, bracketDepth: nat, braceDepth: nat)
    ensures parenDepth == Up(paren, ch, '(', ')')
    ensures bracketDepth == Up(bracket, ch, '[', ']')
    ensures braceDepth == Up(brace, ch, '{', '}')
  {
    parenDepth, bracketDepth, braceDepth := paren, bracket, brace;
    if ch == '(' {
      parenDepth := parenDepth + 1;
    } else if ch == ')' {
      if parenDepth > 0 {
        parenDepth := parenDepth - 1;
      }
    } else if ch == '[' {
      bracketDepth := bracketDepth + 1;
    } else if ch == ']' {
      if bracketDepth > 0 {
        bracketDepth := bracketDepth - 1;
      }
    } else if ch == '{' {
      braceDepth := braceDepth + 1;
    } else if ch == '}' {
      if braceDepth > 0 {
        braceDepth := braceDepth - 1;
      }
    }
  }

  method SplitTopLevelArguments(source: string) returns (out: seq<string>)
    ensures out == SplitArguments(source)
    ensures exists pieces :: IsSplit(source, pieces, out)
  {
    out := [];
    var current := "";
    var parenDepth, bracketDepth, braceDepth := 0, 0, 0;
    var quoteState := new QuoteScanState();
    ghost var closed: seq<string> := [];
    var i := 0;
    assert TrimAll([]) == [];
    hide Splitting, TrimAll, Trim, SplitArguments;
    SplittingStarts(source);
    assert source[0..] == source;
    while i < |source|
      invariant 0 <= i <= |source|
      invariant parenDepth >= 0 && bracketDepth >= 0 && braceDepth >= 0
      invariant out == TrimAll(closed)
      invariant Splitting(source, closed, current,
        Scan(quoteState.Abstract(), parenDepth, bracketDepth, braceDepth), source[i..])
    {
      var ch := source[i];
      ghost var st := Scan(quoteState.Abstract(), parenDepth, bracketDepth, braceDepth);
      assert source[i..][0] == ch && source[i..][1..] == source[i + 1..];
      SplittingStep(source, closed, current, st, source[i..]);
      TrimAllAppend(closed, current);
      i := i + 1;
      if quoteState.mark.Some? {
        current := current + [ch];
        var consumed := quoteState.ConsumeQuotedChar(ch);
        assert !IsTopComma(st, ch) && Advance(st, ch) == st.(q := quoteState.Abstract());
        continue;
      }
      var begun := quoteState.BeginQuotedSection(ch);
      if begun {
        current := current + [ch];
        assert !IsTopComma(st, ch) && Advance(st, ch) == st.(q := quoteState.Abstract());
        continue;
      }
      assert Plain(st.q, ch) && quoteState.Abstract() == st.q;
      if ch == ',' && parenDepth == 0 && bracketDepth == 0 && braceDepth == 0 {
        assert IsTopComma(st, ch) && Advance(st, ch) == st;
        out := out + [Trim(current)];
        closed := closed + [current];
        current := "";
        continue;
      }
      parenDepth, bracketDepth, braceDepth := UpdateDepths(ch, parenDepth, bracketDepth, braceDepth);
      assert !IsTopComma(st, ch) && Advance(st, ch) == Scan(st.q, parenDepth, bracketDepth, braceDepth);
      current := current + [ch];
    }
    assert source[i..] == "";
    SplittingEnds(source, closed, current, Scan(quoteState.Abstract(), parenDepth, bracketDepth, braceDepth));
    if !Blank(current) {
      out := out + [Trim(current)];
    }
    ghost var pieces := SplitMeaning(source);
  }

  /** `current` in front of the first of `pieces`. */
  function Onto(current: string, pieces: seq<string>): seq<string>
    requires pieces != []
  {
    [current + pieces[0]] + pieces[1..]
  }

  lemma OntoStep(current: string, st: Scan, s: string)
    requires s != ""
    ensures IsTopComma(st, s[0]) ==>
      Onto(current, Pieces(st, s)) == [current] + Onto("", Pieces(Advance(st, s[0]), s[1..]))
    ensures !IsTopComma(st, s[0]) ==>
      Onto(current, Pieces(st, s)) == Onto(current + [s[0]], Pieces(Advance(st, s[0]), s[1..]))
  {
    var rest := Pieces(Advance(st, s[0]), s[1..]);
    assert current + ([s[0]] + rest[0]) == current + [s[0]] + rest[0];
    assert current + "" == current && "" + rest[0] == rest[0];
    assert [rest[0]] + rest[1..] == rest;
  }

  lemma OntoNothing(pieces: seq<string>)
    requires pieces != []
    ensures Onto("", pieces) == pieces
  {
    assert "" + pieces[0] == pieces[0];
  }

  // ---------- printing a call and reading it back ----------

  function JoinComma(parts: seq<string>): string {
    if parts == [] then ""
    else if |parts| == 1 then parts[0]
    else parts[0] + "," + JoinComma(parts[1..])
  }

  function End(st: Scan, s: string): Scan
    decreases |s|
  {
    if s == "" then st else End(Advance(st, s[0]), s[1..])
  }

  /** No comma of `s`, scanned from `st`, separates arguments. */
  predicate NoTopComma(st: Scan, s: string)
    decreases |s|
  {
    s == "" || (!IsTopComma(st, s[0]) && NoTopComma(Advance(st, s[0]), s[1..]))
  }

  /** No closing parenthesis of `s`, scanned from `st`, lacks its opening one. */
  predicate ParensOpenFirst(st: Scan, s: string)
    decreases |s|
  {
    s == "" ||
    (!(Plain(st.q, s[0]) && s[0] == ')' && st.paren == 0) && ParensOpenFirst(Advance(st, s[0]), s[1..]))
  }

  /** One argument as it may stand between commas: quotes closed, every bracket kind
      balanced, parentheses opened before they are closed, no top-level comma. */
  predicate WellFormedPiece(s: string) {
    End(CLEAN, s) == CLEAN && NoTopComma(CLEAN, s) && ParensOpenFirst(CLEAN, s)
  }

  lemma {:induction false} EndAppend(st: Scan, a: string, b: string)
    ensures End(st, a + b) == End(End(st, a), b)
    decreases |a|
  {
    if a == "" {
      assert a + b == b;
    } else {
      assert (a + b)[1..] == a[1..] + b;
      EndAppend(Advance(st, a[0]), a[1..], b);
    }
  }

  lemma {:induction false} ParensAppend(st: Scan, a: string, b: string)
    ensures ParensOpenFirst(st, a + b) <==> ParensOpenFirst(st, a) && ParensOpenFirst(End(st, a), b)
    decreases |a|
  {
    if a == "" {
      assert a + b == b;
    } else {
      assert (a + b)[1..] == a[1..] + b;
      ParensAppend(Advance(st, a[0]), a[1..], b);
    }
  }

  lemma {:induction false} TopAppend(st: Scan, a: string, b: string)
    ensures NoTopComma(st, a + b) <==> NoTopComma(st, a) && NoTopComma(End(st, a), b)
    decreases |a|
  {
    if a == "" {
      assert a + b == b;
    } else {
      assert (a + b)[1..] == a[1..] + b;
      TopAppend(Advance(st, a[0]), a[1..], b);
    }
  }

  lemma {:induction false} PiecesOfArgument(st: Scan, a: string, rest: string)
    requires NoTopComma(st, a)
    ensures Pieces(st, a + rest) == Onto(a, Pieces(End(st, a), rest))
    decreases |a|
  {
    if a == "" {
      assert a + rest == rest;
      OntoNothing(Pieces(st, rest));
    } else {
      assert (a + rest)[1..] == a[1..] + rest;
      PiecesOfArgument(Advance(st, a[0]), a[1..], rest);
      var tail := Pieces(End(st, a), rest);
      assert [a[0]] + (a[1..] + tail[0]) == a + tail[0];
    }
  }

  /** Splitting what joining printed gives the pieces back; the last one may stay open. */
  lemma {:induction false} PiecesOfJoin(parts: seq<string>)
    requires parts != []
    requires forall i :: 0 <= i < |parts| ==> NoTopComma(CLEAN, parts[i])
    requires forall i :: 0 <= i < |parts| - 1 ==> End(CLEAN, parts[i]) == CLEAN
    ensures Pieces(CLEAN, JoinComma(parts)) == parts
    decreases |parts|
  {
    var first := parts[0];
    if |parts| == 1 {
      assert first + "" == first;
      PiecesOfArgument(CLEAN, first, "");
    } else {
      var rest := JoinComma(parts[1..]);
      assert JoinComma(parts) == first + ("," + rest);
      PiecesOfArgument(CLEAN, first, "," + rest);
      PiecesOfJoin(parts[1..]);
      assert ("," + rest)[1..] == rest;
      assert Advance(CLEAN, ',') == CLEAN;
      assert first + "" == first;
    }
  }

  /** The scan for the closing parenthesis passes over text whose parentheses open first. */
  lemma {:induction false} FindPasses(st: Scan, a: string, rest: string)
    requires ParensOpenFirst(st, a)
    ensures FindClose(st.q, st.paren + 1, a + rest)
      == var r := FindClose(End(st, a).q, End(st, a).paren + 1, rest); if r < 0 then -1 else |a| + r
    decreases |a|
  {
    if a == "" {
      assert a + rest == rest;
    } else {
      assert (a + rest)[1..] == a[1..] + rest;
      FindPasses(Advance(st, a[0]), a[1..], rest);
    }
  }

  /** If the scan stops right after `a`, then `a` opens its parentheses first and leaves
      neither a parenthesis nor a quote open. */
  lemma {:induction false} FindStops(st: Scan, a: string, rest: string)
    requires FindClose(st.q, st.paren + 1, a + rest) == |a|
    ensures ParensOpenFirst(st, a) && End(st, a).paren == 0 && End(st, a).q.mark.None?
    decreases |a|
  {
    if a == "" {
      assert a + rest == rest;
    } else {
      assert (a + rest)[1..] == a[1..] + rest;
      FindStops(Advance(st, a[0]), a[1..], rest);
    }
  }

  lemma {:induction false} JoinIsClean(parts: seq<string>)
    requires forall i :: 0 <= i < |parts| ==> WellFormedPiece(parts[i])
    ensures ParensOpenFirst(CLEAN, JoinComma(parts)) && End(CLEAN, JoinComma(parts)) == CLEAN
    decreases |parts|
  {
    if |parts| > 1 {
      var first, rest := parts[0], JoinComma(parts[1..]);
      JoinIsClean(parts[1..]);
      assert JoinComma(parts) == first + ("," + rest);
      EndAppend(CLEAN, first, "," + rest);
      ParensAppend(CLEAN, first, "," + rest);
      assert ("," + rest)[1..] == rest && Advance(CLEAN, ',') == CLEAN;
    }
  }

  function PrintCall(parts: seq<string>, prefix: string, suffix: string): string {
    prefix + "(" + JoinComma(parts) + ")" + suffix
  }

  /** The two scanners as they are used: the close of the call at `openIndex`, and the
      arguments between. */
  function ReadCall(source: string, openIndex: nat): Option<(nat, seq<string>)>
    requires openIndex < |source|
  {
    var close := MatchingParen(source, openIndex);
    if close < 0 then None else Some((close, SplitArguments(source[openIndex + 1..close])))
  }

  lemma CloseAfter(body: string, suffix: string)
    requires ParensOpenFirst(CLEAN, body) && End(CLEAN, body).paren == 0 && End(CLEAN, body).q == UNQUOTED
    ensures FindClose(UNQUOTED, 1, body + (")" + suffix)) == |body|
  {
    var tail := ")" + suffix;
    assert FindClose(UNQUOTED, 1, tail) == 0;
    hide FindClose, End, ParensOpenFirst;
    FindPasses(CLEAN, body, tail);
  }

  lemma BodyOf(body: string, prefix: string, suffix: string)
    ensures var source := prefix + "(" + body + ")" + suffix;
      && source[|prefix| + 1..] == body + (")" + suffix)
      && source[|prefix| + 1..|prefix| + 1 + |body|] == body
  {
    assert prefix + "(" + body + ")" + suffix == (prefix + "(") + (body + (")" + suffix));
  }

  lemma ClosePrinted(body: string, prefix: string, suffix: string)
    requires ParensOpenFirst(CLEAN, body) && End(CLEAN, body).paren == 0 && End(CLEAN, body).q == UNQUOTED
    ensures var source := prefix + "(" + body + ")" + suffix;
      && MatchingParen(source, |prefix|) == |prefix| + 1 + |body|
      && source[|prefix| + 1..|prefix| + 1 + |body|] == body
  {
    BodyOf(body, prefix, suffix);
    CloseAfter(body, suffix);
    hide FindClose, End, ParensOpenFirst;
  }

  lemma SplitJoined(parts: seq<string>)
    requires forall i :: 0 <= i < |parts| ==> WellFormedPiece(parts[i]) && !Blank(parts[i])
    ensures SplitArguments(JoinComma(parts)) == TrimAll(parts)
  {
    hide Trim;
    if parts == [] {
      assert Pieces(CLEAN, "") == [""];
      assert Blank("") by { assert TrimStart("") == ""; }
    } else {
      PiecesOfJoin(parts);
    }
  }

  lemma ReadFrom(source: string, openIndex: nat, close: nat, body: string)
    requires openIndex < close < |source| && MatchingParen(source, openIndex) == close
    requires source[openIndex + 1..close] == body
    ensures ReadCall(source, openIndex) == Some((close, SplitArguments(body)))
  {
    hide MatchingParen, SplitArguments;
  }

  lemma ReadPrinted(body: string, prefix: string, suffix: string)
    requires ParensOpenFirst(CLEAN, body) && End(CLEAN, body) == CLEAN
    ensures var source := prefix + "(" + body + ")" + suffix;
      ReadCall(source, |prefix|) == Some((|prefix| + 1 + |body|, SplitArguments(body)))
  {
    hide FindClose, MatchingParen, SplitArguments, ReadCall, End, ParensOpenFirst;
    ClosePrinted(body, prefix, suffix);
    ReadFrom(prefix + "(" + body + ")" + suffix, |prefix|, |prefix| + 1 + |body|, body);
  }

  lemma ReadTrims(parts: seq<string>, prefix: string, suffix: string)
    requires forall i :: 0 <= i < |parts| ==> WellFormedPiece(parts[i]) && !Blank(parts[i])
    ensures |prefix| < |PrintCall(parts, prefix, suffix)|
    ensures ReadCall(PrintCall(parts, prefix, suffix), |prefix|)
      == Some((|prefix| + 1 + |JoinComma(parts)|, TrimAll(parts)))
  {
    hide *;
    JoinIsClean(parts);
    SplitJoined(parts);
    ReadPrinted(JoinComma(parts), prefix, suffix);
    PrintedIs(parts, prefix, suffix);
  }

  /** An argument and the white space around it. */
  datatype Padded = Padded(before: string, core: string, after: string)

  predicate WellPadded(a: Padded) {
    AllSpace(a.before) && AllSpace(a.after) && Trimmed(a.core) && WellFormedPiece(a.core)
  }

  function Texts(arguments: seq<Padded>): (r: seq<string>)
    ensures |r| == |arguments|
  {
    seq(|arguments|, i requires 0 <= i < |arguments| =>
      arguments[i].before + arguments[i].core + arguments[i].after)
  }

  function Cores(arguments: seq<Padded>): (r: seq<string>)
    ensures |r| == |arguments|
  {
    seq(|arguments|, i requires 0 <= i < |arguments| => arguments[i].core)
  }

  lemma {:induction false} SpaceIsPiece(s: string)
    requires AllSpace(s)
    ensures WellFormedPiece(s)
  {
    if s != "" {
      assert IsSpace(s[0]) && Advance(CLEAN, s[0]) == CLEAN;
      SpaceIsPiece(s[1..]);
    }
  }

  lemma PieceAppend(a: string, b: string)
    requires WellFormedPiece(a) && WellFormedPiece(b)
    ensures WellFormedPiece(a + b)
  {
    EndAppend(CLEAN, a, b);
    ParensAppend(CLEAN, a, b);
    TopAppend(CLEAN, a, b);
    hide End, NoTopComma, ParensOpenFirst;
  }

  lemma PaddedPiece(a: Padded)
    requires WellPadded(a)
    ensures WellFormedPiece(a.before + a.core + a.after)
    ensures Trim(a.before + a.core + a.after) == a.core && !Blank(a.before + a.core + a.after)
  {
    hide WellFormedPiece, AllSpace, Trim, Trimmed;
    SpaceIsPiece(a.before);
    SpaceIsPiece(a.after);
    PieceAppend(a.before, a.core);
    PieceAppend(a.before + a.core, a.after);
    TrimOf(a.before, a.core, a.after);
    TrimmedNotEmpty(a.core);
  }

  lemma TrimmedNotEmpty(s: string)
    requires Trimmed(s)
    ensures s != ""
  {
  }

  /** Reading inverts printing, whatever stands before and after the call and whatever
      white space pads the arguments: the arguments read are their cores. */
  lemma ReadInvertsPrint(arguments: seq<Padded>, prefix: string, suffix: string)
    requires forall i :: 0 <= i < |arguments| ==> WellPadded(arguments[i])
    ensures |prefix| < |PrintCall(Texts(arguments), prefix, suffix)|
    ensures ReadCall(PrintCall(Texts(arguments), prefix, suffix), |prefix|)
      == Some((|prefix| + 1 + |JoinComma(Texts(arguments))|, Cores(arguments)))
  {
    hide *;
    PaddedParts(arguments);
    ReadTrims(Texts(arguments), prefix, suffix);
  }

  lemma PaddedParts(arguments: seq<Padded>)
    requires forall i :: 0 <= i < |arguments| ==> WellPadded(arguments[i])
    ensures var parts := Texts(arguments);
      && (forall i :: 0 <= i < |parts| ==> WellFormedPiece(parts[i]) && !Blank(parts[i]))
      && TrimAll(parts) == Cores(arguments)
  {
    hide WellPadded, WellFormedPiece, Blank, Trim;
    forall i | 0 <= i < |arguments|
      ensures WellFormedPiece(Texts(arguments)[i]) && !Blank(Texts(arguments)[i])
      ensures Trim(Texts(arguments)[i]) == arguments[i].core {
      PaddedPiece(arguments[i]);
    }
  }

  // ---------- what splitting means for any text ----------

  /** `core` is `piece` without the white space around it. */
  ghost predicate IsCore(piece: string, core: string) {
    && (core == "" || Trimmed(core))
    && exists before, after :: AllSpace(before) && AllSpace(after) && piece == before + core + after
  }

  /** The pieces make up the source, are cut exactly at top-level commas, and `out` holds
      their cores; a last piece of nothing but white space is left out. */
  ghost predicate IsSplit(source: string, pieces: seq<string>, out: seq<string>) {
    && pieces != [] && JoinComma(pieces) == source
    && (forall i :: 0 <= i < |pieces| ==> NoTopComma(CLEAN, pieces[i]))
    && (forall i :: 0 <= i < |pieces| - 1 ==> End(CLEAN, pieces[i]) == CLEAN)
    && |out| == (if AllSpace(pieces[|pieces| - 1]) then |pieces| - 1 else |pieces|)
    && (forall i :: 0 <= i < |out| ==> IsCore(pieces[i], out[i]))
  }

  lemma CoreOf(piece: string)
    ensures IsCore(piece, Trim(piece))
  {
    hide Trim, AllSpace, Trimmed;
    var before, after := TrimSplit(piece);
  }

  /** Splitting any text. */
  lemma SplitMeaning(source: string) returns (pieces: seq<string>)
    ensures IsSplit(source, pieces, SplitArguments(source))
  {
    hide Pieces, JoinComma, NoTopComma, End, Trim, IsCore, Blank, AllSpace;
    pieces := Pieces(CLEAN, source);
    PiecesRejoin(CLEAN, source);
    PiecesSound(CLEAN, source);
    BlankMeans(pieces[|pieces| - 1]);
    forall i | 0 <= i < |pieces| ensures IsCore(pieces[i], Trim(pieces[i])) {
      CoreOf(pieces[i]);
    }
  }

  lemma PrintedIs(parts: seq<string>, prefix: string, suffix: string)
    ensures PrintCall(parts, prefix, suffix) == prefix + "(" + JoinComma(parts) + ")" + suffix
  {
    hide JoinComma;
  }

  // ---------- exactly which calls are read back ----------

  function TotalLength(parts: seq<string>): nat {
    if parts == [] then 0 else |parts[0]| + TotalLength(parts[1..])
  }

  lemma {:induction false} JoinLength(parts: seq<string>)
    requires parts != []
    ensures |JoinComma(parts)| == TotalLength(parts) + |parts| - 1
  {
    if |parts| > 1 {
      JoinLength(parts[1..]);
    }
  }

  lemma {:induction false} TrimAllShorter(pieces: seq<string>)
    ensures TotalLength(TrimAll(pieces)) <= TotalLength(pieces)
    ensures TotalLength(TrimAll(pieces)) == TotalLength(pieces) ==> TrimAll(pieces) == pieces
  {
    hide Trim;
    if pieces != [] {
      assert TrimAll(pieces)[1..] == TrimAll(pieces[1..]);
      TrimAllShorter(pieces[1..]);
      assert pieces == [pieces[0]] + pieces[1..];
    }
  }

  lemma {:induction false} TotalLengthSnoc(parts: seq<string>, last: string)
    ensures TotalLength(parts + [last]) == TotalLength(parts) + |last|
  {
    if parts != [] {
      assert (parts + [last])[1..] == parts[1..] + [last];
      TotalLengthSnoc(parts[1..], last);
    }
  }

  ghost predicate Unescaped(st: Scan) {
    st.q.mark.None? ==> !st.q.escaped
  }

  lemma {:induction false} EndUnescaped(st: Scan, s: string)
    requires Unescaped(st)
    ensures Unescaped(End(st, s))
    decreases |s|
  {
    if s != "" {
      EndUnescaped(Advance(st, s[0]), s[1..]);
    }
  }

  /** Splitting loses nothing: the pieces, rejoined, are the source. */
  lemma {:induction false} PiecesRejoin(st: Scan, s: string)
    ensures JoinComma(Pieces(st, s)) == s
    decreases |s|
  {
    if s != "" {
      var rest := Pieces(Advance(st, s[0]), s[1..]);
      PiecesRejoin(Advance(st, s[0]), s[1..]);
      assert [s[0]] + s[1..] == s;
      if IsTopComma(st, s[0]) {
        assert ([""] + rest)[1..] == rest;
      } else {
        assert ([[s[0]] + rest[0]] + rest[1..])[1..] == rest[1..];
        if |rest| == 1 {
          assert [s[0]] + rest[0] == s;
        } else {
          assert [s[0]] + rest[0] + "," + JoinComma(rest[1..]) == [s[0]] + (rest[0] + "," + JoinComma(rest[1..]));
        }
      }
    }
  }

  /** The cuts are at top level: every piece is free of separating commas and all but the
      last end with nothing open. */
  lemma {:induction false} PiecesSound(st: Scan, s: string)
    requires Unescaped(st)
    ensures var p := Pieces(st, s);
      && NoTopComma(st, p[0])
      && (|p| > 1 ==> End(st, p[0]) == CLEAN)
      && (forall i :: 1 <= i < |p| ==> NoTopComma(CLEAN, p[i]))
      && (forall i :: 1 <= i < |p| - 1 ==> End(CLEAN, p[i]) == CLEAN)
    decreases |s|
  {
    if s != "" {
      PiecesSound(Advance(st, s[0]), s[1..]);
      var rest := Pieces(Advance(st, s[0]), s[1..]);
      if !IsTopComma(st, s[0]) {
        assert ([s[0]] + rest[0])[1..] == rest[0];
      }
    }
  }

  /** The state in which a call must leave its arguments for the scanners to find them. */
  predicate Separable(args: seq<string>)
    requires args != []
  {
    var last := End(CLEAN, args[|args| - 1]);
    && (forall i :: 0 <= i < |args| ==> NoTopComma(CLEAN, args[i]) && ParensOpenFirst(CLEAN, args[i]))
    && (forall i :: 0 <= i < |args| - 1 ==> End(CLEAN, args[i]) == CLEAN)
    && last.paren == 0 && last.q.mark.None?
  }

  ghost predicate AllParensOpenFirst(parts: seq<string>) {
    forall i :: 0 <= i < |parts| ==> ParensOpenFirst(CLEAN, parts[i])
  }

  lemma ParensOfAll(parts: seq<string>)
    requires parts != []
    ensures AllParensOpenFirst(parts) <==> ParensOpenFirst(CLEAN, parts[0]) && AllParensOpenFirst(parts[1..])
  {
    hide ParensOpenFirst;
    if AllParensOpenFirst(parts[1..]) {
      assert forall i :: 1 <= i < |parts| ==> parts[i] == parts[1..][i - 1];
    }
  }

  lemma CommaBetween(first: string, joined: string)
    requires End(CLEAN, first) == CLEAN
    ensures ParensOpenFirst(CLEAN, first + ("," + joined)) <==>
      ParensOpenFirst(CLEAN, first) && ParensOpenFirst(CLEAN, joined)
    ensures End(CLEAN, first + ("," + joined)) == End(CLEAN, joined)
  {
    EndAppend(CLEAN, first, "," + joined);
    ParensAppend(CLEAN, first, "," + joined);
    assert ("," + joined)[1..] == joined && Advance(CLEAN, ',') == CLEAN;
  }

  lemma {:induction false} ParensOfJoin(parts: seq<string>)
    requires parts != []
    requires forall i :: 0 <= i < |parts| - 1 ==> End(CLEAN, parts[i]) == CLEAN
    ensures ParensOpenFirst(CLEAN, JoinComma(parts)) <==> AllParensOpenFirst(parts)
    ensures End(CLEAN, JoinComma(parts)) == End(CLEAN, parts[|parts| - 1])
    decreases |parts|
  {
    if |parts| > 1 {
      assert JoinComma(parts) == parts[0] + ("," + JoinComma(parts[1..]));
      hide JoinComma, ParensOpenFirst, End, AllParensOpenFirst;
      ParensOfJoin(parts[1..]);
      CommaBetween(parts[0], JoinComma(parts[1..]));
      ParensOfAll(parts);
    }
  }

  /** If splitting the joined arguments gives them back, they are its pieces. */
  lemma SplitBackMeansPieces(args: seq<string>)
    requires args != [] && SplitArguments(JoinComma(args)) == args
    ensures Pieces(CLEAN, JoinComma(args)) == args
  {
    hide Trim, JoinComma;
    var body := JoinComma(args);
    var pieces := Pieces(CLEAN, body);
    var n := |pieces| - 1;
    PiecesRejoin(CLEAN, body);
    JoinLength(pieces);
    JoinLength(args);
    TrimAllShorter(pieces);
    TrimAllShorter(pieces[..n]);
    TotalLengthSnoc(pieces[..n], pieces[n]);
    assert pieces[..n] + [pieces[n]] == pieces;
  }

  lemma SeparableReadsBack(args: seq<string>, prefix: string, suffix: string)
    requires args != [] && Separable(args) && TrimAll(args) == args && !Blank(args[|args| - 1])
    ensures var source := prefix + "(" + JoinComma(args) + ")" + suffix;
      ReadCall(source, |prefix|) == Some((|prefix| + 1 + |JoinComma(args)|, args))
  {
    hide Trim, TrimAll, JoinComma, Blank, MatchingParen, FindClose, Pieces;
    var body := JoinComma(args);
    ParensOfJoin(args);
    EndUnescaped(CLEAN, body);
    PiecesOfJoin(args);
    hide End, ParensOpenFirst, NoTopComma;
    ClosePrinted(body, prefix, suffix);
    ReadFrom(prefix + "(" + body + ")" + suffix, |prefix|, |prefix| + 1 + |body|, body);
  }

  lemma ReadBackSeparates(args: seq<string>, prefix: string, suffix: string)
    requires args != [] && ReadCall(prefix + "(" + JoinComma(args) + ")" + suffix, |prefix|)
      == Some((|prefix| + 1 + |JoinComma(args)|, args))
    ensures Separable(args)
  {
    hide Trim, TrimAll, JoinComma, Blank, MatchingParen, FindClose, Pieces, SplitArguments;
    var body := JoinComma(args);
    BodyOf(body, prefix, suffix);
    assert SplitArguments(body) == args;
    SplitBackMeansPieces(args);
    PiecesSound(CLEAN, body);
    CloseIsAfterBody(body, prefix, suffix);
    ParensOfJoin(args);
  }

  lemma TrimmedAreNotBlank(args: seq<string>)
    requires forall i :: 0 <= i < |args| ==> args[i] != "" && Trim(args[i]) == args[i]
    ensures TrimAll(args) == args && forall i :: 0 <= i < |args| ==> !Blank(args[i])
  {
    hide Trim;
  }

  /** A printed call of trimmed, non-empty arguments is read back as those arguments, with
      the close at its own parenthesis, if and only if the arguments are separable. */
  lemma ReadBackIff(args: seq<string>, prefix: string, suffix: string)
    requires args != []
    requires forall i :: 0 <= i < |args| ==> args[i] != "" && Trim(args[i]) == args[i]
    ensures |prefix| < |PrintCall(args, prefix, suffix)|
    ensures ReadCall(PrintCall(args, prefix, suffix), |prefix|)
        == Some((|prefix| + 1 + |JoinComma(args)|, args))
      <==> Separable(args)
  {
    hide *;
    TrimmedAreNotBlank(args);
    PrintedIs(args, prefix, suffix);
    if Separable(args) {
      SeparableReadsBack(args, prefix, suffix);
    }
    if ReadCall(PrintCall(args, prefix, suffix), |prefix|) == Some((|prefix| + 1 + |JoinComma(args)|, args)) {
      ReadBackSeparates(args, prefix, suffix);
    }
  }

  lemma CloseIsAfterBody(body: string, prefix: string, suffix: string)
    requires MatchingParen(prefix + "(" + body + ")" + suffix, |prefix|) == |prefix| + 1 + |body|
    ensures ParensOpenFirst(CLEAN, body) && End(CLEAN, body).paren == 0 && End(CLEAN, body).q.mark.None?
  {
    BodyOf(body, prefix, suffix);
    hide *;
    CloseOffset(prefix + "(" + body + ")" + suffix, |prefix|, body, ")" + suffix);
  }

  lemma CloseOffset(source: string, openIndex: nat, body: string, rest: string)
    requires openIndex < |source| && source[openIndex + 1..] == body + rest
    requires MatchingParen(source, openIndex) == openIndex + 1 + |body|
    ensures ParensOpenFirst(CLEAN, body) && End(CLEAN, body).paren == 0 && End(CLEAN, body).q.mark.None?
  {
    hide FindClose, End, ParensOpenFirst;
    FindStops(CLEAN, body, rest);
  }
}
