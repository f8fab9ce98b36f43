/** Splitting decoded text into lines on the newline delimiter, with the
    semantics of JavaScript's `String.prototype.split` for a one-character
    separator: there is always at least one piece, no piece holds the
    delimiter, and joining the pieces with the delimiter gives the text back. */
module LineSplit {

  /** The one line delimiter. A carriage return is not special: it stays in the line. */
  const Delimiter: char := '\n'

  /** No piece contains the delimiter. */
  predicate Undelimited(pieces: seq<string>) {
    forall i :: 0 <= i < |pieces| ==> Delimiter !in pieces[i]
  }

  /** `s.split('\n')`. */
  function Split(s: string): (pieces: seq<string>)
    ensures |pieces| >= 1
    ensures Undelimited(pieces)
    decreases |s|
  {
    if s == [] then [[]]
    else
      var rest := Split(s[1..]);
      if s[0] == Delimiter then [[]] + rest
      else [[s[0]] + rest[0]] + rest[1..]
  }

  /** `pieces.join('\n')`. */
  function Join(pieces: seq<string>): string
    requires |pieces| >= 1
    decreases |pieces|
  {
    if |pieces| == 1 then pieces[0] else pieces[0] + [Delimiter] + Join(pieces[1..])
  }

  /** The text of complete lines: each line followed by its delimiter. */
  function Terminated(lines: seq<string>): string
    decreases |lines|
  {
    if lines == [] then [] else lines[0] + [Delimiter] + Terminated(lines[1..])
  }

  /** The concatenation of chunks in arrival order. */
  function Concat(chunks: seq<string>): string
    decreases |chunks|
  {
    if chunks == [] then [] else Concat(chunks[..|chunks| - 1]) + chunks[|chunks| - 1]
  }

  /** Joining the pieces of a split gives back the text. */
  lemma {:induction false} JoinSplit(s: string)
    ensures Join(Split(s)) == s
    decreases |s|
  {
    if s != [] {
      var rest := Split(s[1..]);
      JoinSplit(s[1..]);
      assert s == [s[0]] + s[1..];
      if s[0] == Delimiter {
        var pieces := [[]] + rest;
        assert pieces[1..] == rest;
        assert Join(pieces) == [] + [Delimiter] + Join(rest);
      } else if |rest| == 1 {
        assert Split(s) == [[s[0]] + rest[0]];
      } else {
        var pieces := [[s[0]] + rest[0]] + rest[1..];
        assert pieces[1..] == rest[1..];
        assert Join(rest) == rest[0] + [Delimiter] + Join(rest[1..]);
        assert Join(pieces) == [s[0]] + rest[0] + [Delimiter] + Join(rest[1..]);
      }
    }
  }

  /** Text without the delimiter is a single piece. */
  lemma {:induction false} SplitUndelimited(p: string)
    requires Delimiter !in p
    ensures Split(p) == [p]
    decreases |p|
  {
    if p != [] {
      assert Delimiter !in p[1..] by {
        forall k | 0 <= k < |p[1..]| ensures p[1..][k] != Delimiter {
          assert p[1..][k] == p[k + 1];
        }
      }
      SplitUndelimited(p[1..]);
      assert [p[0]] + p[1..] == p;
    }
  }

  /** A piece without the delimiter followed by the delimiter splits off as the first piece. */
  lemma {:induction false} SplitPrefix(p: string, t: string)
    requires Delimiter !in p
    ensures Split(p + [Delimiter] + t) == [p] + Split(t)
    decreases |p|
  {
    var s := p + [Delimiter] + t;
    if p == [] {
      assert s[1..] == t;
    } else {
      assert s[1..] == p[1..] + [Delimiter] + t;
      assert Delimiter !in p[1..] by {
        forall k | 0 <= k < |p[1..]| ensures p[1..][k] != Delimiter {
          assert p[1..][k] == p[k + 1];
        }
      }
      SplitPrefix(p[1..], t);
      assert [p[0]] + p[1..] == p;
    }
  }

  /** Splitting complete lines followed by a carry text recovers exactly those pieces. */
  lemma {:induction false} SplitTerminated(lines: seq<string>, last: string)
    requires Undelimited(lines)
    requires Delimiter !in last
    ensures Split(Terminated(lines) + last) == lines + [last]
    decreases |lines|
  {
    if lines == [] {
      assert Terminated(lines) + last == last;
      SplitUndelimited(last);
    } else {
      assert Undelimited(lines[1..]) by {
        forall k | 0 <= k < |lines[1..]| ensures Delimiter !in lines[1..][k] {
          assert lines[1..][k] == lines[k + 1];
        }
      }
      SplitTerminated(lines[1..], last);
      assert Terminated(lines) + last == lines[0] + [Delimiter] + (Terminated(lines[1..]) + last);
      SplitPrefix(lines[0], Terminated(lines[1..]) + last);
      assert [lines[0]] + (lines[1..] + [last]) == lines + [last];
    }
  }

  /** Joining pieces is writing all but the last as complete lines, then the last. */
  lemma {:induction false} JoinTerminated(pieces: seq<string>)
    requires |pieces| >= 1
    ensures Join(pieces) == Terminated(pieces[..|pieces| - 1]) + pieces[|pieces| - 1]
    decreases |pieces|
  {
    if |pieces| > 1 {
      JoinTerminated(pieces[1..]);
      var init := pieces[..|pieces| - 1];
      assert init[0] == pieces[0];
      assert init[1..] == pieces[1..][..|pieces[1..]| - 1];
    }
  }

  /** Split and Join are inverse: pieces free of the delimiter come back from their join. */
  lemma {:induction false} SplitJoin(pieces: seq<string>)
    requires |pieces| >= 1
    requires Undelimited(pieces)
    ensures Split(Join(pieces)) == pieces
  {
    var init, last := pieces[..|pieces| - 1], pieces[|pieces| - 1];
    assert Undelimited(init) by {
      forall k | 0 <= k < |init| ensures Delimiter !in init[k] {
        assert init[k] == pieces[k];
      }
    }
    calc {
      Split(Join(pieces));
      { JoinTerminated(pieces); }
      Split(Terminated(init) + last);
      { SplitTerminated(init, last); }
      init + [last];
      pieces;
    }
  }

  /** Complete-line text is additive over sequences of lines. */
  lemma {:induction false} TerminatedAppend(a: seq<string>, b: seq<string>)
    ensures Terminated(a + b) == Terminated(a) + Terminated(b)
    decreases |a|
  {
    if a == [] {
      assert a + b == b;
    } else {
      assert (a + b)[1..] == a[1..] + b;
      TerminatedAppend(a[1..], b);
    }
  }

  /** The text invariant of the carry buffer survives one more chunk: complete
      lines, then the carry, then the chunk, is the same text as the complete
      lines extended by the chunk's newly completed lines, then the new carry. */
  lemma {:induction false} CarryStep(lines: seq<string>, carry: string, chunk: string)
    requires Undelimited(lines)
    ensures var pieces := Split(carry + chunk);
            && Undelimited(lines + pieces[..|pieces| - 1])
            && Terminated(lines) + carry + chunk
               == Terminated(lines + pieces[..|pieces| - 1]) + pieces[|pieces| - 1]
  {
    var pieces := Split(carry + chunk);
    var complete, last := pieces[..|pieces| - 1], pieces[|pieces| - 1];
    calc {
      Terminated(lines) + carry + chunk;
      Terminated(lines) + (carry + chunk);
      { JoinSplit(carry + chunk); }
      Terminated(lines) + Join(pieces);
      { JoinTerminated(pieces); }
      Terminated(lines) + (Terminated(complete) + last);
      Terminated(lines) + Terminated(complete) + last;
      { TerminatedAppend(lines, complete); }
      Terminated(lines + complete) + last;
    }
    assert Undelimited(lines + complete) by {
      forall k | 0 <= k < |lines + complete| ensures Delimiter !in (lines + complete)[k] {
        if k >= |lines| { assert (lines + complete)[k] == pieces[k - |lines|]; }
      }
    }
  }

  /** There is one more piece than there are delimiters in the text. */
  lemma {:induction false} SplitCount(s: string)
    ensures |Split(s)| == multiset(s)[Delimiter] + 1
    decreases |s|
  {
    if s != [] {
      SplitCount(s[1..]);
      assert s == [s[0]] + s[1..];
      assert multiset(s) == multiset{s[0]} + multiset(s[1..]);
    }
  }

  /** The lines a whole stream hands to the parser, in order: every piece of
      the split but the last, then the last piece if it is non-empty. */
  function StreamLines(text: string): (lines: seq<string>)
    ensures Undelimited(lines)
  {
    var pieces := Split(text);
    var init, last := pieces[..|pieces| - 1], pieces[|pieces| - 1];
    assert Undelimited(init) by {
      forall k | 0 <= k < |init| ensures Delimiter !in init[k] {
        assert init[k] == pieces[k];
      }
    }
    if last == [] then init
    else
      assert forall k :: 0 <= k < |init + [last]| ==> Delimiter !in (init + [last])[k] by {
        forall k | 0 <= k < |init + [last]| ensures Delimiter !in (init + [last])[k] {
          if k < |init| { assert (init + [last])[k] == init[k]; }
        }
      }
      init + [last]
  }

  /** No text is lost on its way to the parser: when the text is empty or
      ends in a delimiter, the stream's lines, each followed by a delimiter,
      are exactly the text; otherwise the last line is the text's unterminated
      tail, handed over without a delimiter after it. */
  lemma {:induction false} StreamLinesText(text: string)
    ensures var lines := StreamLines(text);
            if text == [] || text[|text| - 1] == Delimiter then text == Terminated(lines)
            else lines != [] && text == Terminated(lines[..|lines| - 1]) + lines[|lines| - 1]
  {
    var pieces := Split(text);
    var init, last := pieces[..|pieces| - 1], pieces[|pieces| - 1];
    JoinSplit(text);
    JoinTerminated(pieces);
    if last == [] {
      assert text == Terminated(init) + [];
      if init != [] {
        var k := |init| - 1;
        assert init == init[..k] + [init[k]];
        TerminatedAppend(init[..k], [init[k]]);
        assert Terminated([init[k]]) == init[k] + [Delimiter] + Terminated([init[k]][1..]);
        assert [init[k]][1..] == [];
        assert text == Terminated(init[..k]) + (init[k] + [Delimiter]);
      }
    } else {
      assert Delimiter !in last;
      assert text[|text| - 1] == last[|last| - 1];
      assert (init + [last])[..|init|] == init;
    }
  }

  /** Complete lines followed by a carry text reach the parser as exactly
      those lines, then the carry text if it is non-empty. */
  lemma {:induction false} StreamLinesTerminated(lines: seq<string>, last: string)
    requires Undelimited(lines)
    requires Delimiter !in last
    ensures StreamLines(Terminated(lines) + last) == lines + (if last == [] then [] else [last])
  {
    SplitTerminated(lines, last);
    var pieces := lines + [last];
    assert pieces[..|pieces| - 1] == lines;
    assert lines + [] == lines;
  }

  /** Chunks that are all empty concatenate to empty text. */
  lemma {:induction false} ConcatEmpty(chunks: seq<string>)
    requires forall i :: 0 <= i < |chunks| ==> chunks[i] == []
    ensures Concat(chunks) == []
    decreases |chunks|
  {
    if chunks != [] {
      ConcatEmpty(chunks[..|chunks| - 1]);
    }
  }
}
