/** Reassembling lines from the chunks of a stream.
    scripts/bench-gateway-restart.ts, collectOutputLines and its use in onChunk. */
module LineBuffer {
  import opened Text

  /** Splitting at line breaks: a line feed, together with a carriage return right before it. */
  function SplitLines(s: string): (r: seq<string>)
    ensures |r| >= 1
  {
    if s == "" then [""]
    else if s[0] == '\n' then [""] + SplitLines(s[1..])
    else if s[0] == '\r' && |s| > 1 && s[1] == '\n' then [""] + SplitLines(s[2..])
    else
      var rest := SplitLines(s[1..]);
      [[s[0]] + rest[0]] + rest[1..]
  }

  datatype Parsed = Parsed(carry: string, lines: seq<string>)

  function CollectOutputLines(carry: string, chunk: string): Parsed {
    var parts := SplitLines(carry + chunk);
    var n := |parts| - 1;
    Parsed(parts[n], parts[..n])
  }

  /** One output stream of the child: its partial last line and the lines handed on. */
  class OutputBuffer {
    var carry: string
    var lines: seq<string>
    ghost var stream: string

    /** The buffer says of the stream what splitting it at once would. */
    ghost predicate Valid()
      reads this
    {
      lines + [carry] == SplitLines(stream)
    }

    constructor ()
      ensures Valid() && stream == ""
    {
      carry, lines, stream := "", [], "";
    }

    method OnChunk(chunk: string)
      requires Valid()
      modifies this
      ensures Valid() && stream == old(stream) + chunk
      ensures old(lines) <= lines
    {
      Resume(stream, chunk);
      var parsed := CollectOutputLines(carry, chunk);
      assert lines == SplitLines(stream)[..|lines|] && carry == SplitLines(stream)[|lines|];
      carry := parsed.carry;
      lines := lines + parsed.lines;
      stream := stream + chunk;
    }
  }

  /** A character that does not begin a line break goes in front of the first line. */
  lemma PlainStep(c: char, s: string)
    requires c != '\n' && !(c == '\r' && s != "" && s[0] == '\n')
    ensures SplitLines([c] + s) == [[c] + SplitLines(s)[0]] + SplitLines(s)[1..]
  {
    assert ([c] + s)[1..] == s;
    assert s != "" ==> ([c] + s)[1] == s[0];
  }

  lemma BreakStep(s: string)
    ensures SplitLines("\n" + s) == [""] + SplitLines(s)
    ensures SplitLines("\r\n" + s) == [""] + SplitLines(s)
  {
    assert ("\n" + s)[1..] == s && ("\r\n" + s)[2..] == s && ("\r\n" + s)[1] == '\n';
  }

  /** Splitting can resume from the last partial line, wherever the stream was cut, even
      between a carriage return and its line feed. */
  lemma {:induction false} Resume(a: string, b: string)
    ensures var parts := SplitLines(a);
      SplitLines(a + b) == parts[..|parts| - 1] + SplitLines(parts[|parts| - 1] + b)
    decreases |a|, 0
  {
    hide SplitLines;
    if a == "" {
      OneLineSplit("");
      assert a + b == b && "" + b == b;
    } else if a[0] == '\n' {
      ResumeAfter("\n", a[1..], b);
      assert a == "\n" + a[1..];
    } else if a[0] == '\r' && |a| > 1 && a[1] == '\n' {
      ResumeAfter("\r\n", a[2..], b);
      assert a == "\r\n" + a[2..];
    } else if |a| == 1 {
      OneLineSplit(a);
    } else {
      var c, rest := a[0], a[1..];
      assert a == [c] + rest && a + b == [c] + (rest + b) && (rest + b)[0] == rest[0];
      PlainStep(c, rest);
      PlainStep(c, rest + b);
      Resume(rest, b);
      PutInFront(c, SplitLines(rest), SplitLines(rest + b), rest, b);
    }
  }

  lemma ResumeAfter(lineBreak: string, a: string, b: string)
    requires lineBreak == "\n" || lineBreak == "\r\n"
    ensures var parts := SplitLines(lineBreak + a);
      SplitLines(lineBreak + a + b) == parts[..|parts| - 1] + SplitLines(parts[|parts| - 1] + b)
    decreases |a|, 1
  {
    hide SplitLines;
    BreakStep(a);
    BreakStep(a + b);
    assert lineBreak + a + b == lineBreak + (a + b);
    Resume(a, b);
  }

  lemma PutInFront(c: char, lines: seq<string>, all: seq<string>, rest: string, b: string)
    requires lines == SplitLines(rest) && all == SplitLines(rest + b)
    requires all == lines[..|lines| - 1] + SplitLines(lines[|lines| - 1] + b)
    requires SplitLines([c] + rest) == [[c] + lines[0]] + lines[1..]
    requires SplitLines([c] + (rest + b)) == [[c] + all[0]] + all[1..]
    ensures var parts := SplitLines([c] + rest);
      SplitLines([c] + (rest + b)) == parts[..|parts| - 1] + SplitLines(parts[|parts| - 1] + b)
  {
    var n := |lines| - 1;
    hide SplitLines;
    if n == 0 {
      OneLine(rest);
      assert [c] + rest + b == [c] + (rest + b);
    } else {
      assert all[0] == lines[0];
    }
  }

  lemma OneLineSplit(s: string)
    requires |s| == 0 || (|s| == 1 && s[0] != '\n')
    ensures SplitLines(s) == [s]
  {
    if s != "" {
      assert s == [s[0]] + "" && SplitLines("") == [""];
      PlainStep(s[0], "");
    }
  }

  lemma {:induction false} OneLine(s: string)
    requires |SplitLines(s)| == 1
    ensures SplitLines(s) == [s]
  {
    if s != "" {
      OneLine(s[1..]);
      assert [s[0]] + s[1..] == s;
    }
  }

  function Feed(chunks: seq<string>): Parsed {
    if chunks == [] then Parsed("", [])
    else
      var before := Feed(chunks[..|chunks| - 1]);
      var parsed := CollectOutputLines(before.carry, chunks[|chunks| - 1]);
      Parsed(parsed.carry, before.lines + parsed.lines)
  }

  function Whole(chunks: seq<string>): string {
    if chunks == [] then "" else Whole(chunks[..|chunks| - 1]) + chunks[|chunks| - 1]
  }

  /** Line reassembly does not depend on chunking: the lines emitted, followed by the final
      carry, are the lines of the whole stream. */
  lemma {:induction false} ChunkingIsIrrelevant(chunks: seq<string>)
    ensures Feed(chunks).lines + [Feed(chunks).carry] == SplitLines(Whole(chunks))
  {
    if chunks != [] {
      var init, last := chunks[..|chunks| - 1], chunks[|chunks| - 1];
      ChunkingIsIrrelevant(init);
      Resume(Whole(init), last);
      var before := Feed(init);
      assert SplitLines(Whole(init))[..|before.lines|] == before.lines;
    }
  }

  lemma SameStreamSameLines(a: seq<string>, b: seq<string>)
    requires Whole(a) == Whole(b)
    ensures Feed(a) == Feed(b)
  {
    ChunkingIsIrrelevant(a);
    ChunkingIsIrrelevant(b);
    var x, y := Feed(a), Feed(b);
    assert (x.lines + [x.carry])[..|x.lines|] == x.lines && (y.lines + [y.carry])[..|y.lines|] == y.lines;
    assert (x.lines + [x.carry])[|x.lines|] == x.carry && (y.lines + [y.carry])[|y.lines|] == y.carry;
  }

  // ---------- an independent reading of the line breaks ----------

  function DropReturn(line: string): string {
    if line != "" && line[|line| - 1] == '\r' then line[..|line| - 1] else line
  }

  /** Every line but the last loses the carriage return at its end. */
  function DropReturns(lines: seq<string>): (r: seq<string>)
    requires lines != []
    ensures |r| == |lines|
  {
    if |lines| == 1 then lines else [DropReturn(lines[0])] + DropReturns(lines[1..])
  }

  lemma DropReturnPrefixed(c: char, line: string)
    requires !(c == '\r' && line == "")
    ensures DropReturn([c] + line) == [c] + DropReturn(line)
  {
    if line != "" && line[|line| - 1] == '\r' {
      assert ([c] + line)[..|line|] == [c] + line[..|line| - 1];
    }
  }

  /** Splitting at line breaks is splitting at line feeds and then dropping one carriage
      return before each. */
  lemma {:induction false} SplitLinesMeaning(s: string)
    ensures SplitLines(s) == DropReturns(Split(s, '\n'))
    decreases |s|
  {
    if s != "" {
      var lines := Split(s[1..], '\n');
      SplitLinesMeaning(s[1..]);
      if s[0] == '\n' {
        assert Split(s, '\n') == [""] + lines;
        assert DropReturns([""] + lines) == [DropReturn("")] + DropReturns(lines);
      } else {
        var all := Split(s, '\n');
        assert all == [[s[0]] + lines[0]] + lines[1..];
        assert |lines| > 1 ==> all[1..] == lines[1..];
        FirstLineEmpty(s[1..]);
        if s[0] == '\r' && |s| > 1 && s[1] == '\n' {
          SplitLinesMeaning(s[2..]);
          assert s[1..][1..] == s[2..];
          assert lines == [""] + Split(s[2..], '\n');
          assert all[0] == "\r" && all[1..] == Split(s[2..], '\n');
          assert DropReturn("\r") == "";
        } else if |lines| > 1 {
          DropReturnPrefixed(s[0], lines[0]);
        }
      }
    }
  }

  lemma FirstLineEmpty(s: string)
    ensures |Split(s, '\n')| > 1 && Split(s, '\n')[0] == "" ==> s != "" && s[0] == '\n'
  {
  }
}
