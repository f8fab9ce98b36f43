/** The stateful transform built by `createLineStreamTransformer`: a carry
    buffer `partialLine`, a `transform` step per decoded chunk and a `flush`
    step at end of input. Values enqueued on the stream controller and calls
    made to `onError` are recorded, in order, in two fields. */
module LineStream {
  import opened LineSplit
  import opened ParsePolicy

  datatype Option<+T> = None | Some(value: T)

  /** The recognised options: a parser to use instead of the default, and
      whether an `onError` callback was supplied. */
  datatype ParserOptions<V, E> = ParserOptions(parser: Option<string -> Outcome<V, E>>, hasOnError: bool)

  /** `options.parser ?? parseJson`, together with the rest of the configuration:
      a supplied parser wins over the default, and errors are reported exactly
      when a callback was supplied. */
  function ResolveConfig<V, E>(options: ParserOptions<V, E>, parseJson: string -> Outcome<V, E>, truthy: V -> bool): (cfg: Config<V, E>)
    ensures options.parser.Some? ==> cfg.parse == options.parser.value
    ensures options.parser.None? ==> cfg.parse == parseJson
    ensures cfg.truthy == truthy && cfg.reportsErrors == options.hasOnError
  {
    Config(if options.parser.Some? then options.parser.value else parseJson, truthy, options.hasOnError)
  }

  class LineStreamTransformer<V, E> {
    const parser: string -> Outcome<V, E>
    const truthy: V -> bool
    const hasOnError: bool

    /** The carry buffer: decoded text not yet terminated by a delimiter. */
    var partialLine: string
    /** Values passed to `controller.enqueue`, in order. */
    var enqueued: seq<V>
    /** Calls made to `onError`, in order. */
    var reported: seq<Failure<E>>

    /** All decoded text received by `transform` so far. */
    ghost var consumed: string
    /** The complete lines `transform` has handed to the parser, in order. */
    ghost var handed: seq<string>
    /** Every argument the parser has been called with, by `transform` and `flush`, in order. */
    ghost var calls: seq<string>

    function Cfg(): Config<V, E> {
      Config(parser, truthy, hasOnError)
    }

    function Out(): Output<V, E>
      reads this
    {
      Output(enqueued, reported)
    }

    /** The carry buffer holds no delimiter, and the text consumed is the
        complete lines, each followed by its delimiter, then the carry buffer. */
    ghost predicate Valid()
      reads this
    {
      && Delimiter !in partialLine
      && Undelimited(handed)
      && consumed == Terminated(handed) + partialLine
    }

    constructor (options: ParserOptions<V, E>, parseJson: string -> Outcome<V, E>, truthy: V -> bool)
      ensures Valid()
      ensures Cfg() == ResolveConfig(options, parseJson, truthy)
      ensures partialLine == [] && enqueued == [] && reported == []
      ensures consumed == [] && handed == [] && calls == []
    {
      match options.parser {
        case Some(p) => parser := p;
        case None => parser := parseJson;
      }
      this.truthy := truthy;
      hasOnError := options.hasOnError;
      partialLine := [];
      enqueued := [];
      reported := [];
      consumed := [];
      handed := [];
      calls := [];
    }

    /** The try/catch around one call of the parser: a truthy result is
        enqueued, a falsy one dropped, a thrown error passed with the line to
        `onError` if there is one. */
    method ParseAndEmit(line: string)
      modifies this`enqueued, this`reported, this`calls
      ensures Out() == old(Out()).Then(LineOutput(Cfg(), line))
      ensures calls == old(calls) + [line]
    {
      calls := calls + [line];
      match parser(line)
      case Parsed(v) =>
        if truthy(v) {
          enqueued := enqueued + [v];
        }
      case Threw(e) =>
        if hasOnError {
          reported := reported + [Failure(e, line)];
        }
    }

    /** `lines.forEach(...)`: each line in turn goes through `ParseAndEmit`. */
    method ParseEach(lines: seq<string>)
      modifies this`enqueued, this`reported, this`calls
      ensures Out() == old(Out()).Then(ParseLines(Cfg(), lines))
      ensures calls == old(calls) + lines
    {
      var i := 0;
      while i < |lines|
        invariant 0 <= i <= |lines|
        invariant Out() == old(Out()).Then(ParseLines(Cfg(), lines[..i]))
        invariant calls == old(calls) + lines[..i]
      {
        ghost var done := ParseLines(Cfg(), lines[..i]);
        ParseAndEmit(lines[i]);
        assert lines[..i + 1] == lines[..i] + [lines[i]];
        ParseLinesSnoc(Cfg(), lines[..i], lines[i]);
        ThenAssociative(old(Out()), done, LineOutput(Cfg(), lines[i]));
        i := i + 1;
      }
      assert lines[..i] == lines;
    }

    /** `transform(chunk)`: split the carry buffer followed by the chunk on
        the delimiter, keep the last piece as the new carry buffer and hand
        every other piece, in order, to the parser. */
    method Transform(chunk: string)
      requires Valid()
      modifies this
      ensures Valid()
      ensures var pieces := Split(old(partialLine) + chunk);
              && partialLine == pieces[|pieces| - 1]
              && handed == old(handed) + pieces[..|pieces| - 1]
              && Out() == old(Out()).Then(ParseLines(Cfg(), pieces[..|pieces| - 1]))
              && calls == old(calls) + pieces[..|pieces| - 1]
      ensures consumed == old(consumed) + chunk
      ensures Delimiter !in chunk ==>
                && partialLine == old(partialLine) + chunk && Out() == old(Out())
                && calls == old(calls) && handed == old(handed)
    {
      var lines := Split(partialLine + chunk);
      CarryStep(handed, partialLine, chunk);
      if Delimiter !in chunk {
        assert Delimiter !in partialLine + chunk;
        SplitUndelimited(partialLine + chunk);
        ThenNothing(Out());
      }
      handed := handed + lines[..|lines| - 1];
      consumed := consumed + chunk;
      partialLine := lines[|lines| - 1];
      ParseEach(lines[..|lines| - 1]);
    }

    /** `flush()`: nothing when the carry buffer is empty, otherwise the carry
        buffer is handled as one last line. The carry buffer is left as it is. */
    method Flush()
      requires Valid()
      modifies this`enqueued, this`reported, this`calls
      ensures Valid()
      ensures Out() == old(Out()).Then(FlushOutput(Cfg(), partialLine))
      ensures calls == old(calls) + (if partialLine == [] then [] else [partialLine])
    {
      if partialLine == [] {
        ThenNothing(Out());
        assert calls + [] == calls;
        return;
      }
      ParseAndEmit(partialLine);
    }
  }

  /** The stream protocol run to its end on a new transform: every chunk in
      arrival order goes to `transform`, then `flush` is called. What is
      enqueued and reported depends only on the concatenated text, not on
      where the chunk boundaries fall; neither does the sequence of parser
      calls, `calls`, which is `StreamLines` of the concatenated text. */
  method RunTransform<V, E>(options: ParserOptions<V, E>, parseJson: string -> Outcome<V, E>, truthy: V -> bool, chunks: seq<string>)
    returns (records: seq<V>, failures: seq<Failure<E>>, ghost calls: seq<string>)
    ensures Output(records, failures) == ParseStream(ResolveConfig(options, parseJson, truthy), Concat(chunks))
    ensures calls == StreamLines(Concat(chunks))
  {
    var t := new LineStreamTransformer(options, parseJson, truthy);
    var i := 0;
    while i < |chunks|
      invariant 0 <= i <= |chunks|
      invariant t.Valid() && t.Cfg() == ResolveConfig(options, parseJson, truthy)
      invariant t.consumed == Concat(chunks[..i])
      invariant t.Out() == ParseLines(t.Cfg(), t.handed)
      invariant t.calls == t.handed
    {
      ghost var before := t.handed;
      t.Transform(chunks[i]);
      ParseLinesAppend(t.Cfg(), before, t.handed[|before|..]);
      assert before + t.handed[|before|..] == t.handed;
      assert chunks[..i + 1][..i] == chunks[..i];
      i := i + 1;
    }
    assert chunks[..i] == chunks;
    t.Flush();
    StreamOfLines(t.Cfg(), t.handed, t.partialLine);
    StreamLinesTerminated(t.handed, t.partialLine);
    records, failures, calls := t.enqueued, t.reported, t.calls;
  }

  /** Feeding the chunks one by one and feeding their concatenation as a
      single chunk give the same records and the same `onError` calls, and
      call the parser on the same lines in the same order. */
  method CompareChunkings<V, E>(options: ParserOptions<V, E>, parseJson: string -> Outcome<V, E>, truthy: V -> bool, chunks: seq<string>)
    returns (chunked: Output<V, E>, whole: Output<V, E>, ghost chunkedCalls: seq<string>, ghost wholeCalls: seq<string>)
    ensures chunked == whole
    ensures chunkedCalls == wholeCalls
  {
    var r1, f1, c1 := RunTransform(options, parseJson, truthy, chunks);
    var r2, f2, c2 := RunTransform(options, parseJson, truthy, [Concat(chunks)]);
    assert [Concat(chunks)][..0] == [];
    assert Concat([Concat(chunks)]) == [] + Concat(chunks) == Concat(chunks);
    chunked, whole, chunkedCalls, wholeCalls := Output(r1, f1), Output(r2, f2), c1, c2;
  }
}
