/** What the transform does with each complete line, and what a whole stream
    of decoded text yields: truthy parse results are enqueued in line order,
    falsy ones are dropped without a trace, and a line on which the parser
    throws is handed (with its error) to the optional `onError` callback. */
module ParsePolicy {
  import opened LineSplit

  /** What the pluggable parser does with one line: return a value or throw. */
  datatype Outcome<V, E> = Parsed(value: V) | Threw(error: E)

  /** One call of `onError(error, line)`. */
  datatype Failure<E> = Failure(error: E, line: string)

  /** What a run produces: the values enqueued on the stream controller and
      the calls made to `onError`, each in order. */
  datatype Output<V, E> = Output(records: seq<V>, failures: seq<Failure<E>>) {
    /** This output followed by `next`. */
    function Then(next: Output<V, E>): Output<V, E> {
      Output(records + next.records, failures + next.failures)
    }
  }

  /** Appending nothing leaves an output unchanged. */
  lemma {:induction false} ThenNothing<V, E>(a: Output<V, E>)
    ensures a.Then(Output([], [])) == a
  {
  }

  /** Appending outputs is associative. */
  lemma {:induction false} ThenAssociative<V, E>(a: Output<V, E>, b: Output<V, E>, c: Output<V, E>)
    ensures a.Then(b).Then(c) == a.Then(b.Then(c))
  {
  }

  /** The transform's fixed configuration: the parser it resolved, JavaScript
      truthiness of parsed values, and whether an `onError` callback was given. */
  datatype Config<!V, E> = Config(parse: string -> Outcome<V, E>, truthy: V -> bool, reportsErrors: bool)

  /** The output of handing one line to the parser: a record exactly when the
      parser returns a truthy value, which is that value; a failure exactly
      when the parser throws and a callback exists, which pairs the error with
      the line; never both. */
  function LineOutput<V, E>(cfg: Config<V, E>, line: string): (out: Output<V, E>)
    ensures |out.records| + |out.failures| <= 1
    ensures out.records != [] <==> cfg.parse(line).Parsed? && cfg.truthy(cfg.parse(line).value)
    ensures forall v :: v in out.records ==> cfg.parse(line) == Parsed(v)
    ensures out.failures != [] <==> cfg.parse(line).Threw? && cfg.reportsErrors
    ensures forall f :: f in out.failures ==> f.line == line && cfg.parse(line) == Threw(f.error)
  {
    match cfg.parse(line)
    case Parsed(v) => Output(if cfg.truthy(v) then [v] else [], [])
    case Threw(e) => Output([], if cfg.reportsErrors then [Failure(e, line)] else [])
  }

  /** The output of `flush` with the given carry text: nothing when it is
      empty, otherwise what the carry text yields as one more line. */
  function FlushOutput<V, E>(cfg: Config<V, E>, partial: string): (out: Output<V, E>)
    ensures out == ParseLines(cfg, if partial == [] then [] else [partial])
  {
    if partial == [] then Output([], [])
    else
      assert [partial][..0] == [];
      LineOutput(cfg, partial)
  }

  /** The output of handing the lines to the parser one after another. Each
      line yields at most one record or one failure, and without a callback
      nothing is reported. */
  function ParseLines<V, E>(cfg: Config<V, E>, lines: seq<string>): (out: Output<V, E>)
    ensures |out.records| + |out.failures| <= |lines|
    ensures !cfg.reportsErrors ==> out.failures == []
    decreases |lines|
  {
    if lines == [] then Output([], [])
    else ParseLines(cfg, lines[..|lines| - 1]).Then(LineOutput(cfg, lines[|lines| - 1]))
  }

  /** The output for a whole stream of decoded text: every piece but the last
      of its split is a complete line; the last is what `flush` sees. */
  function ParseStream<V, E>(cfg: Config<V, E>, text: string): (out: Output<V, E>)
    ensures |out.records| + |out.failures| <= multiset(text)[Delimiter] + 1
    ensures !cfg.reportsErrors ==> out.failures == []
    ensures text == [] ==> out == Output([], [])
  {
    var pieces := Split(text);
    SplitCount(text);
    assert text == [] ==> pieces == [[]];
    ParseLines(cfg, pieces[..|pieces| - 1]).Then(FlushOutput(cfg, pieces[|pieces| - 1]))
  }

  /** The whole-stream output is the output of handing the stream's lines,
      `StreamLines`, to the parser one after another: what a run yields is
      fixed by the sequence of parser calls. */
  lemma {:induction false} ParseStreamLines<V, E>(cfg: Config<V, E>, text: string)
    ensures ParseStream(cfg, text) == ParseLines(cfg, StreamLines(text))
  {
    var pieces := Split(text);
    var init, last := pieces[..|pieces| - 1], pieces[|pieces| - 1];
    ParseLinesAppend(cfg, init, if last == [] then [] else [last]);
  }

  /** One more line appends that line's output. */
  lemma {:induction false} ParseLinesSnoc<V, E>(cfg: Config<V, E>, lines: seq<string>, line: string)
    ensures ParseLines(cfg, lines + [line]) == ParseLines(cfg, lines).Then(LineOutput(cfg, line))
  {
  }

  /** Parsing is compositional: the lines of `a` are handled, then those of `b`. */
  lemma {:induction false} ParseLinesAppend<V, E>(cfg: Config<V, E>, a: seq<string>, b: seq<string>)
    ensures ParseLines(cfg, a + b) == ParseLines(cfg, a).Then(ParseLines(cfg, b))
    decreases |b|
  {
    if b == [] {
      assert a + b == a;
      var out := ParseLines(cfg, a);
      assert out.records + [] == out.records && out.failures + [] == out.failures;
    } else {
      var init, last := b[..|b| - 1], b[|b| - 1];
      assert b == init + [last];
      assert a + b == (a + init) + [last];
      ParseLinesSnoc(cfg, a + init, last);
      ParseLinesSnoc(cfg, init, last);
      ParseLinesAppend(cfg, a, init);
      ThenAssociative(ParseLines(cfg, a), ParseLines(cfg, init), LineOutput(cfg, last));
    }
  }

  /** Line `i` yields its own output exactly once, after everything the
      earlier lines yield and before everything the later lines yield. */
  lemma {:induction false} LineOutputInPlace<V, E>(cfg: Config<V, E>, lines: seq<string>, i: nat)
    requires i < |lines|
    ensures ParseLines(cfg, lines)
         == ParseLines(cfg, lines[..i]).Then(LineOutput(cfg, lines[i])).Then(ParseLines(cfg, lines[i + 1..]))
  {
    assert lines == lines[..i] + [lines[i]] + lines[i + 1..];
    ParseLinesAppend(cfg, lines[..i] + [lines[i]], lines[i + 1..]);
    ParseLinesAppend(cfg, lines[..i], [lines[i]]);
    assert [lines[i]][..0] == [];
  }

  /** A line whose parse result is truthy is enqueued, in its place, and reported nowhere. */
  lemma {:induction false} TruthyLineEnqueued<V, E>(cfg: Config<V, E>, before: seq<string>, line: string, after: seq<string>, v: V)
    requires cfg.parse(line) == Parsed(v) && cfg.truthy(v)
    ensures ParseLines(cfg, before + [line] + after)
         == ParseLines(cfg, before).Then(Output([v], [])).Then(ParseLines(cfg, after))
  {
    var lines := before + [line] + after;
    assert lines[..|before|] == before && lines[|before|] == line && lines[|before| + 1..] == after;
    LineOutputInPlace(cfg, lines, |before|);
  }

  /** A line whose parse result is falsy is neither enqueued nor reported:
      the output is as if the line were absent. */
  lemma {:induction false} FalsyLineSilent<V, E>(cfg: Config<V, E>, before: seq<string>, line: string, after: seq<string>, v: V)
    requires cfg.parse(line) == Parsed(v) && !cfg.truthy(v)
    ensures ParseLines(cfg, before + [line] + after) == ParseLines(cfg, before + after)
  {
    var lines := before + [line] + after;
    assert lines[..|before|] == before && lines[|before|] == line && lines[|before| + 1..] == after;
    LineOutputInPlace(cfg, lines, |before|);
    var prev := ParseLines(cfg, before);
    assert LineOutput(cfg, line) == Output([], []);
    assert prev.Then(Output([], [])) == prev by {
      assert prev.records + [] == prev.records;
      assert prev.failures + [] == prev.failures;
    }
    ParseLinesAppend(cfg, before, after);
  }

  /** A line on which the parser throws is not enqueued; `onError`, when
      given, receives that error and exactly that line once; later lines are
      still handled. */
  lemma {:induction false} FailedLineReported<V, E>(cfg: Config<V, E>, before: seq<string>, line: string, after: seq<string>, e: E)
    requires cfg.parse(line) == Threw(e)
    ensures ParseLines(cfg, before + [line] + after)
         == ParseLines(cfg, before)
              .Then(Output([], if cfg.reportsErrors then [Failure(e, line)] else []))
              .Then(ParseLines(cfg, after))
  {
    var lines := before + [line] + after;
    assert lines[..|before|] == before && lines[|before|] == line && lines[|before| + 1..] == after;
    LineOutputInPlace(cfg, lines, |before|);
  }

  /** Every record is the truthy result of parsing one of the lines, and
      every failure is a thrown error paired with the line that raised it. */
  lemma {:induction false} ParseLinesSound<V, E>(cfg: Config<V, E>, lines: seq<string>)
    ensures forall k :: 0 <= k < |ParseLines(cfg, lines).records| ==>
              var v := ParseLines(cfg, lines).records[k];
              cfg.truthy(v) && exists i :: 0 <= i < |lines| && cfg.parse(lines[i]) == Parsed(v)
    ensures forall k :: 0 <= k < |ParseLines(cfg, lines).failures| ==>
              var f := ParseLines(cfg, lines).failures[k];
              cfg.reportsErrors && exists i :: 0 <= i < |lines| && lines[i] == f.line && cfg.parse(lines[i]) == Threw(f.error)
    decreases |lines|
  {
    if lines != [] {
      var init := lines[..|lines| - 1];
      var last := lines[|lines| - 1];
      ParseLinesSound(cfg, init);
      var out := ParseLines(cfg, lines);
      var prev := ParseLines(cfg, init);
      assert out == prev.Then(LineOutput(cfg, last));
      forall k | 0 <= k < |out.records|
        ensures cfg.truthy(out.records[k])
        ensures exists i :: 0 <= i < |lines| && cfg.parse(lines[i]) == Parsed(out.records[k])
      {
        if k < |prev.records| {
          assert out.records[k] == prev.records[k];
          var i :| 0 <= i < |init| && cfg.parse(init[i]) == Parsed(prev.records[k]);
          assert lines[i] == init[i];
        } else {
          assert cfg.parse(last).Parsed?;
          assert out.records[k] == cfg.parse(last).value;
          assert lines[|lines| - 1] == last;
        }
      }
      forall k | 0 <= k < |out.failures|
        ensures cfg.reportsErrors
        ensures exists i :: 0 <= i < |lines| && lines[i] == out.failures[k].line && cfg.parse(lines[i]) == Threw(out.failures[k].error)
      {
        if k < |prev.failures| {
          assert out.failures[k] == prev.failures[k];
          var i :| 0 <= i < |init| && init[i] == prev.failures[k].line && cfg.parse(init[i]) == Threw(prev.failures[k].error);
          assert lines[i] == init[i];
        } else {
          assert cfg.parse(last).Threw? && cfg.reportsErrors;
          assert out.failures[k] == Failure(cfg.parse(last).error, last);
          assert lines[|lines| - 1] == last;
        }
      }
      assert forall k :: 0 <= k < |ParseLines(cfg, lines).failures| ==>
              var f := ParseLines(cfg, lines).failures[k];
              cfg.reportsErrors && exists i :: 0 <= i < |lines| && lines[i] == f.line && cfg.parse(lines[i]) == Threw(f.error);
    } else {
      assert ParseLines(cfg, lines) == Output([], []);
    }
  }

  /** The output of a stream whose text is complete lines followed by a carry
      text: the lines in order, then whatever `flush` makes of the carry. */
  lemma {:induction false} StreamOfLines<V, E>(cfg: Config<V, E>, lines: seq<string>, last: string)
    requires Undelimited(lines)
    requires Delimiter !in last
    ensures ParseStream(cfg, Terminated(lines) + last) == ParseLines(cfg, lines).Then(FlushOutput(cfg, last))
  {
    SplitTerminated(lines, last);
    var pieces := lines + [last];
    assert pieces[..|pieces| - 1] == lines;
  }

  /** A final line without a trailing delimiter yields the same output as the
      same line with one. */
  lemma {:induction false} FinalLineWithoutDelimiter<V, E>(cfg: Config<V, E>, lines: seq<string>, last: string)
    requires Undelimited(lines)
    requires Delimiter !in last && last != []
    ensures ParseStream(cfg, Terminated(lines) + last) == ParseStream(cfg, Terminated(lines + [last]))
  {
    var all := lines + [last];
    assert Undelimited(all) by {
      forall k | 0 <= k < |all| ensures Delimiter !in all[k] {
        if k < |lines| { assert all[k] == lines[k]; }
      }
    }
    StreamOfLines(cfg, lines, last);
    StreamOfLines(cfg, all, []);
    assert Terminated(all) + [] == Terminated(all);
    assert all[..|all| - 1] == lines;
    var prev := ParseLines(cfg, all);
    assert FlushOutput(cfg, last) == LineOutput(cfg, last);
    assert prev.Then(FlushOutput(cfg, [])) == prev by {
      assert prev.records + [] == prev.records;
      assert prev.failures + [] == prev.failures;
    }
  }

  /** Input made only of empty chunks (or no chunks) yields no record and no failure. */
  lemma {:induction false} EmptyInput<V, E>(cfg: Config<V, E>, chunks: seq<string>)
    requires forall i :: 0 <= i < |chunks| ==> chunks[i] == []
    ensures ParseStream(cfg, Concat(chunks)) == Output([], [])
  {
    ConcatEmpty(chunks);
    StreamOfLines(cfg, [], []);
  }

  /** One record broken into three fragments by raw newlines, between two
      good records, the whole text ending in a newline: the good records are
      enqueued in order and each fragment is reported once, with its own text. */
  lemma {:induction false} BrokenRecordReportedPerFragment<V, E>(
    cfg: Config<V, E>, first: string, frag1: string, frag2: string, frag3: string, third: string,
    v1: V, v3: V, e1: E, e2: E, e3: E)
    requires cfg.reportsErrors
    requires Delimiter !in first && Delimiter !in frag1 && Delimiter !in frag2
    requires Delimiter !in frag3 && Delimiter !in third
    requires cfg.parse(first) == Parsed(v1) && cfg.truthy(v1)
    requires cfg.parse(third) == Parsed(v3) && cfg.truthy(v3)
    requires cfg.parse(frag1) == Threw(e1) && cfg.parse(frag2) == Threw(e2) && cfg.parse(frag3) == Threw(e3)
    ensures ParseStream(cfg, Terminated([first, frag1, frag2, frag3, third]))
         == Output([v1, v3], [Failure(e1, frag1), Failure(e2, frag2), Failure(e3, frag3)])
  {
    var lines := [first, frag1, frag2, frag3, third];
    var expected := Output([v1, v3], [Failure(e1, frag1), Failure(e2, frag2), Failure(e3, frag3)]);
    assert ParseLines(cfg, lines) == expected by {
      var l1 := [first];
      assert ParseLines(cfg, l1) == Output([v1], []) by {
        assert l1[..0] == [];
      }
      assert LineOutput(cfg, frag1) == Output([], [Failure(e1, frag1)]);
      assert LineOutput(cfg, frag2) == Output([], [Failure(e2, frag2)]);
      assert LineOutput(cfg, frag3) == Output([], [Failure(e3, frag3)]);
      assert LineOutput(cfg, third) == Output([v3], []);
      ParseLinesSnoc(cfg, l1, frag1);
      ParseLinesSnoc(cfg, l1 + [frag1], frag2);
      ParseLinesSnoc(cfg, l1 + [frag1] + [frag2], frag3);
      ParseLinesSnoc(cfg, l1 + [frag1] + [frag2] + [frag3], third);
      assert l1 + [frag1] + [frag2] + [frag3] + [third] == lines;
      var out := ParseLines(cfg, lines);
      assert out.records == [v1] + [] + [] + [] + [v3];
      assert out.failures == [] + [Failure(e1, frag1)] + [Failure(e2, frag2)] + [Failure(e3, frag3)] + [];
    }
    assert Undelimited(lines);
    assert Terminated(lines) + [] == Terminated(lines);
    StreamOfLines(cfg, lines, []);
    assert expected.Then(FlushOutput(cfg, [])) == expected by {
      assert expected.records + [] == expected.records;
      assert expected.failures + [] == expected.failures;
    }
  }
}
