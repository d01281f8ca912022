/** Calls as an independent grammar: arguments made of plain characters, quoted strings and
    bracketed groups, printed as text and found again by the scanners.
    scripts/check-temp-path-guardrails.ts, findMatchingParen and splitTopLevelArguments. */
module CallGrammar {
  import opened Text
  import opened ArgumentScanner

  datatype Brackets = Round | Square | Curly

  /** A piece of an argument. A group may hold commas; so may a quoted text, which may also
      hold brackets, quote marks and backslashes. */
  datatype Term = Single(c: char) | Quoted(mark: char, text: string) | Group(brackets: Brackets, inner: Terms)
  datatype Terms = Nothing | More(head: Term, tail: Terms)

  function Open(b: Brackets): char {
    match b
    case Round => '('
    case Square => '['
    case Curly => '{'
  }

  function Close(b: Brackets): char {
    match b
    case Round => ')'
    case Square => ']'
    case Curly => '}'
  }

  predicate IsBracket(c: char) {
    c in "()[]{}"
  }

  /** Plain characters are neither brackets nor quote marks; quotes use a quote mark. */
  predicate WellFormed(terms: Terms) {
    match terms
    case Nothing => true
    case More(head, tail) =>
      && WellFormed(tail)
      && match head
         case Single(c) => !IsBracket(c) && !IsQuoteMark(c)
         case Quoted(mark, _) => IsQuoteMark(mark)
         case Group(_, inner) => WellFormed(inner)
  }

  /** No comma outside all groups and quotes. */
  predicate OneArgument(terms: Terms) {
    terms.More? ==> terms.head != Single(',') && OneArgument(terms.tail)
  }

  /** The text between quote marks, with a backslash before each mark and each backslash. */
  function EscapeText(mark: char, text: string): string {
    if text == "" then ""
    else (if text[0] == mark || text[0] == '\\' then ['\\', text[0]] else [text[0]]) + EscapeText(mark, text[1..])
  }

  function Print(terms: Terms): string {
    match terms
    case Nothing => ""
    case More(head, tail) => PrintTerm(head) + Print(tail)
  }

  function PrintTerm(term: Term): string {
    match term
    case Single(c) => [c]
    case Quoted(mark, text) => [mark] + EscapeText(mark, text) + [mark]
    case Group(b, inner) => [Open(b)] + Print(inner) + [Close(b)]
  }

  // ---------- what scanning a printed text does ----------

  /** Scanning `s` from `st` returns to `st` and meets neither an unmatched closing
      parenthesis nor a separating comma. */
  ghost predicate Neutral(st: Scan, s: string) {
    End(st, s) == st && ParensOpenFirst(st, s) && NoTopComma(st, s)
  }

  lemma NeutralAppend(st: Scan, a: string, b: string)
    requires Neutral(st, a) && Neutral(st, b)
    ensures Neutral(st, a + b)
  {
    EndAppend(st, a, b);
    ParensAppend(st, a, b);
    TopAppend(st, a, b);
  }

  /** Inside a quote nothing but its mark, unescaped, matters. */
  lemma {:induction false} ScanQuoted(st: Scan, mark: char, text: string)
    requires st.q == Quote(Some(mark), false) && IsQuoteMark(mark)
    ensures Neutral(st, EscapeText(mark, text))
    decreases |text|
  {
    if text != "" {
      var c, rest := text[0], EscapeText(mark, text[1..]);
      ScanQuoted(st, mark, text[1..]);
      if c == mark || c == '\\' {
        var escaped := st.(q := Quote(Some(mark), true));
        assert EscapeText(mark, text) == ['\\', c] + rest;
        assert EscapeText(mark, text)[1..] == [c] + rest && EscapeText(mark, text)[1..][1..] == rest;
        assert Advance(st, '\\') == escaped && Advance(escaped, c) == st;
      } else {
        assert EscapeText(mark, text) == [c] + rest && EscapeText(mark, text)[1..] == rest;
        assert Advance(st, c) == st;
      }
    }
  }

  lemma ScanOne(st: Scan, c: char)
    ensures End(st, [c]) == Advance(st, c)
    ensures ParensOpenFirst(st, [c]) <==> !(Plain(st.q, c) && c == ')' && st.paren == 0)
    ensures NoTopComma(st, [c]) <==> !IsTopComma(st, c)
  {
    assert [c][1..] == "";
  }

  /** A text between two characters that undo each other. */
  lemma NeutralBetween(st: Scan, open: char, s: string, close: char)
    requires Plain(st.q, open) ==> open != ')'
    requires !IsTopComma(st, open)
    requires Neutral(Advance(st, open), s)
    requires Advance(Advance(st, open), close) == st && !IsTopComma(Advance(st, open), close)
    requires !(Plain(Advance(st, open).q, close) && close == ')' && Advance(st, open).paren == 0)
    ensures Neutral(st, [open] + s + [close])
  {
    var inside := Advance(st, open);
    ScanOne(st, open);
    ScanOne(inside, close);
    EndAppend(st, [open], s);
    ParensAppend(st, [open], s);
    TopAppend(st, [open], s);
    EndAppend(st, [open] + s, [close]);
    ParensAppend(st, [open] + s, [close]);
    TopAppend(st, [open] + s, [close]);
  }

  predicate InGroup(st: Scan) {
    st.paren > 0 || st.bracket > 0 || st.brace > 0
  }

  lemma NoTopInGroup(st: Scan, b: Brackets)
    requires st.q == UNQUOTED
    ensures var inside := Advance(st, Open(b));
      && inside.q == UNQUOTED && InGroup(inside)
      && Advance(inside, Close(b)) == st
      && (b.Round? ==> inside.paren > 0)
  {
  }

  lemma {:induction false} ScanTerm(st: Scan, term: Term)
    requires st.q == UNQUOTED && WellFormed(More(term, Nothing)) && (InGroup(st) || term != Single(','))
    ensures Neutral(st, PrintTerm(term))
    decreases term
  {
    match term
    case Single(c) => ScanOne(st, c);
    case Quoted(mark, text) =>
      ScanQuoted(Advance(st, mark), mark, text);
      NeutralBetween(st, mark, EscapeText(mark, text), mark);
    case Group(b, inner) =>
      NoTopInGroup(st, b);
      ScanTerms(Advance(st, Open(b)), inner);
      NeutralBetween(st, Open(b), Print(inner), Close(b));
  }

  /** A printed text is neutral wherever it is scanned from: inside a group whatever it
      holds, outside all groups if it is one argument. */
  lemma {:induction false} ScanTerms(st: Scan, terms: Terms)
    requires st.q == UNQUOTED && WellFormed(terms) && (InGroup(st) || OneArgument(terms))
    ensures Neutral(st, Print(terms))
    decreases terms
  {
    if terms.More? {
      ScanTerm(st, terms.head);
      ScanTerms(st, terms.tail);
      NeutralAppend(st, PrintTerm(terms.head), Print(terms.tail));
    }
  }

  /** An argument of the grammar with the white space around it. */
  datatype Argument = Argument(before: string, terms: Terms, after: string)

  predicate IsArgument(a: Argument) {
    && AllSpace(a.before) && AllSpace(a.after)
    && WellFormed(a.terms) && OneArgument(a.terms) && Trimmed(Print(a.terms))
  }

  function PaddedAll(arguments: seq<Argument>): (r: seq<Padded>)
    ensures |r| == |arguments|
  {
    seq(|arguments|, i requires 0 <= i < |arguments| =>
      Padded(arguments[i].before, Print(arguments[i].terms), arguments[i].after))
  }

  /** Every call of arguments of the grammar is read back: whatever stands in its quotes and
      groups, whatever white space pads its arguments and whatever surrounds it, the scanners
      find its closing parenthesis and its arguments without the padding. */
  lemma GrammarReadsBack(arguments: seq<Argument>, prefix: string, suffix: string)
    requires forall i :: 0 <= i < |arguments| ==> IsArgument(arguments[i])
    ensures var texts := Texts(PaddedAll(arguments));
      && |prefix| < |PrintCall(texts, prefix, suffix)|
      && ReadCall(PrintCall(texts, prefix, suffix), |prefix|)
           == Some((|prefix| + 1 + |JoinComma(texts)|, Cores(PaddedAll(arguments))))
  {
    hide *;
    ArgumentsPadded(arguments);
    ReadInvertsPrint(PaddedAll(arguments), prefix, suffix);
  }

  lemma ArgumentIsPadded(a: Argument)
    requires IsArgument(a)
    ensures WellPadded(Padded(a.before, Print(a.terms), a.after))
  {
    ScanTerms(CLEAN, a.terms);
    hide Print, WellFormed, OneArgument, Trimmed, AllSpace;
  }

  lemma ArgumentsPadded(arguments: seq<Argument>)
    requires forall i :: 0 <= i < |arguments| ==> IsArgument(arguments[i])
    ensures forall i :: 0 <= i < |PaddedAll(arguments)| ==> WellPadded(PaddedAll(arguments)[i])
  {
    hide IsArgument, WellPadded;
    forall i | 0 <= i < |arguments| ensures WellPadded(PaddedAll(arguments)[i]) {
      ArgumentIsPadded(arguments[i]);
    }
  }
}
