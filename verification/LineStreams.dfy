/** What the monitor does over whole streams: it does not matter how the stream is cut
    into chunks, no byte is lost under timer flushes, and a flush inside a line does
    not change which addresses are looked up. */
module LineStreams {
  import opened Options
  import opened AddressScan
  import opened AddressCuts
  import opened LineMonitor

  // ----- splitting a stream in two -----

  lemma ConsOfJoin(c: char, x: seq<string>, y: seq<string>)
    requires x != []
    ensures Cons(c, x + y) == Cons(c, x) + y
  {
  }

  // Lines and tail of a text with one more character in front.
  lemma ConsLines(a: string)
    requires a != ""
    ensures a[0] == NL ==> Lines(a) == [""] + Lines(a[1..]) && Tail(a) == Tail(a[1..])
    ensures a[0] != NL && Lines(a[1..]) != [] ==>
              Lines(a) == Cons(a[0], Lines(a[1..])) && Tail(a) == Tail(a[1..])
    ensures a[0] != NL && Lines(a[1..]) == [] ==> Lines(a) == [] && Tail(a) == [a[0]] + Tail(a[1..])
  {
  }

  lemma {:induction false} SplitOfJoin(a: string, b: string)
    ensures Split(a + b) == Lines(a) + Split(Tail(a) + b)
    decreases |a|
  {
    if a == "" {
      assert a + b == b && Tail(a) + b == b;
    } else {
      assert (a + b)[1..] == a[1..] + b;
      SplitOfJoin(a[1..], b);
      ConsLines(a);
      var ls, y := Lines(a[1..]), Split(Tail(a[1..]) + b);
      if ls != [] {
        ConsOfJoin(a[0], ls, y);
      } else if a[0] != NL {
        assert ls + y == y;
        assert (Tail(a) + b)[1..] == Tail(a[1..]) + b;
      }
    }
  }

  lemma LinesOfJoin(a: string, b: string)
    ensures Lines(a + b) == Lines(a) + Lines(Tail(a) + b)
    ensures Tail(a + b) == Tail(Tail(a) + b)
  {
    SplitOfJoin(a, b);
  }

  // ----- chunking invariance -----

  function PrintedLines(matches: string -> bool, ls: seq<string>): string {
    if ls == [] then ""
    else (if ls[0] != "" && matches(ls[0]) then ls[0] + [NL] else "") + PrintedLines(matches, ls[1..])
  }

  function LookedUp(matches: string -> bool, ls: seq<string>): seq<string> {
    if ls == [] then []
    else (if ls[0] != "" && matches(ls[0]) then Addresses(ls[0]) else []) + LookedUp(matches, ls[1..])
  }

  // The monitor after a stream, stated on the stream alone.
  function Whole(matches: string -> bool, s: string): Mon {
    Mon(Tail(s), false, "", PrintedLines(matches, Lines(s)), LookedUp(matches, Lines(s)), NonEmpty(Lines(s)))
  }

  lemma Associate(a: string, b: string, c: string)
    ensures a + (b + c) == a + b + c
  {
  }

  lemma {:induction false} PrintedJoin(matches: string -> bool, a: seq<string>, b: seq<string>)
    ensures PrintedLines(matches, a + b) == PrintedLines(matches, a) + PrintedLines(matches, b)
    decreases |a|
  {
    if a == [] {
      assert a + b == b;
    } else {
      assert (a + b)[1..] == a[1..] + b;
      PrintedJoin(matches, a[1..], b);
      var h := if a[0] != "" && matches(a[0]) then a[0] + [NL] else "";
      Associate(h, PrintedLines(matches, a[1..]), PrintedLines(matches, b));
    }
  }

  lemma {:induction false} LookedUpJoin(matches: string -> bool, a: seq<string>, b: seq<string>)
    ensures LookedUp(matches, a + b) == LookedUp(matches, a) + LookedUp(matches, b)
    decreases |a|
  {
    if a == [] {
      assert a + b == b;
    } else {
      assert (a + b)[1..] == a[1..] + b;
      LookedUpJoin(matches, a[1..], b);
      var h := if a[0] != "" && matches(a[0]) then Addresses(a[0]) else [];
      Reassociate(h, LookedUp(matches, a[1..]), LookedUp(matches, b));
    }
  }

  lemma {:induction false} NonEmptyJoin(a: seq<string>, b: seq<string>)
    ensures NonEmpty(a + b) == NonEmpty(a) + NonEmpty(b)
    decreases |a|
  {
    if a == [] {
      assert a + b == b;
    } else {
      assert (a + b)[1..] == a[1..] + b;
      NonEmptyJoin(a[1..], b);
    }
  }

  // The effect of going through complete lines when nothing is forced or carried.
  function After(matches: string -> bool, m: Mon, ls: seq<string>): Mon {
    m.(printed := m.printed + PrintedLines(matches, ls), lookups := m.lookups + LookedUp(matches, ls),
       handled := m.handled + NonEmpty(ls))
  }

  lemma FirstLineEffect(matches: string -> bool, m: Mon, line: string)
    requires !m.forcePrint && m.carry == ""
    ensures HandleLine(matches, m, line) == After(matches, m, [line])
  {
    assert m.carry + line == line;
    assert [line][1..] == [];
    assert m.printed + "" == m.printed && m.lookups + [] == m.lookups && m.handled + [] == m.handled;
    assert NonEmpty([line]) == if line == "" then [] else [line];
    if line != "" && matches(line) {
      assert PrintedLines(matches, [line]) == line + [NL];
      assert LookedUp(matches, [line]) == Addresses(line);
    } else {
      assert PrintedLines(matches, [line]) == "";
      assert LookedUp(matches, [line]) == [];
    }
  }

  lemma AfterJoin(matches: string -> bool, m: Mon, a: seq<string>, b: seq<string>)
    ensures After(matches, After(matches, m, a), b) == After(matches, m, a + b)
  {
    PrintedJoin(matches, a, b);
    LookedUpJoin(matches, a, b);
    NonEmptyJoin(a, b);
    Reassociate(m.lookups, LookedUp(matches, a), LookedUp(matches, b));
    Reassociate(m.handled, NonEmpty(a), NonEmpty(b));
    Associate(m.printed, PrintedLines(matches, a), PrintedLines(matches, b));
  }

  lemma {:induction false} LinesFromRest(matches: string -> bool, m: Mon, ls: seq<string>)
    requires !m.forcePrint && m.carry == ""
    ensures HandleLines(matches, m, ls) == After(matches, m, ls)
    decreases |ls|
  {
    if ls == [] {
      assert m.printed + "" == m.printed && m.lookups + [] == m.lookups && m.handled + [] == m.handled;
    } else {
      FirstLineEffect(matches, m, ls[0]);
      LinesFromRest(matches, HandleLine(matches, m, ls[0]), ls[1..]);
      assert ls == [ls[0]] + ls[1..];
      AfterJoin(matches, m, [ls[0]], ls[1..]);
    }
  }

  lemma WholeIsAfter(matches: string -> bool, s: string, part: string)
    ensures Whole(matches, s).(lastPart := part) == After(matches, Mon(part, false, "", "", [], []), Lines(s))
  {
  }

  // One more chunk takes the monitor from one stream to the longer one.
  lemma ChunkExtendsStream(matches: string -> bool, s: string, data: string)
    ensures Handle(matches, Whole(matches, s), data, false) == Whole(matches, s + data)
  {
    var all := Tail(s) + data;
    LinesOfJoin(s, data);
    var bare := Mon(Tail(all), false, "", "", [], []);
    AfterJoin(matches, bare, Lines(s), Lines(all));
    WholeIsAfter(matches, s, Tail(all));
    WholeIsAfter(matches, s + data, Tail(all));
    LinesFromRest(matches, Whole(matches, s).(lastPart := Tail(all)), Lines(all));
  }

  function RunChunks(matches: string -> bool, m: Mon, chunks: seq<string>): Mon
    decreases |chunks|
  {
    if chunks == [] then m else RunChunks(matches, Handle(matches, m, chunks[0], false), chunks[1..])
  }

  lemma {:induction false} ChunksFrom(matches: string -> bool, s: string, chunks: seq<string>)
    ensures RunChunks(matches, Whole(matches, s), chunks) == Whole(matches, s + Flat(chunks))
    decreases |chunks|
  {
    if chunks == [] {
      assert s + "" == s;
    } else {
      ChunkExtendsStream(matches, s, chunks[0]);
      ChunksFrom(matches, s + chunks[0], chunks[1..]);
      Associate(s, chunks[0], Flat(chunks[1..]));
    }
  }

  // However the stream is cut into chunks, the lines handled, the output, the lookups
  // and the pending part are those of the whole stream.
  lemma ChunkingDoesNotMatter(matches: string -> bool, chunks: seq<string>)
    ensures RunChunks(matches, INIT, chunks) == Whole(matches, Flat(chunks))
  {
    assert INIT == Whole(matches, "");
    assert "" + Flat(chunks) == Flat(chunks);
    ChunksFrom(matches, "", chunks);
  }

  // ----- conservation under timer flushes -----

  datatype Input = Chunk(data: string) | Flush

  // A chunk from the port, or the timer that finalizes the pending line.
  function Process(matches: string -> bool, m: Mon, e: Input): Mon {
    match e
    case Chunk(data) => Handle(matches, m, data, false)
    case Flush => Handle(matches, m, "", true)
  }

  function Run(matches: string -> bool, m: Mon, es: seq<Input>): Mon
    decreases |es|
  {
    if es == [] then m else Run(matches, Process(matches, m, es[0]), es[1..])
  }

  function Stream(es: seq<Input>): string {
    if es == [] then "" else (if es[0].Chunk? then es[0].data else "") + Stream(es[1..])
  }

  ghost predicate MatchesAll(matches: string -> bool) {
    forall s :: matches(s)
  }

  // The default filter lets every line through, whatever header it starts with.
  lemma DefaultFilterMatchesAll(parse: string -> Option<Header>)
    ensures MatchesAll(s => Match(DEFAULT_FILTER, parse(s)))
  {
    assert "*" in DEFAULT_FILTER && DEFAULT_FILTER["*"] == LEVEL_V;
    assert forall tag :: tag in DEFAULT_FILTER ==> tag == "*";
    forall s ensures Match(DEFAULT_FILTER, parse(s)) {
      var header := parse(s);
    }
  }

  lemma {:induction false} StripJoin(a: string, b: string)
    ensures Strip(a + b) == Strip(a) + Strip(b)
    decreases |a|
  {
    if a == "" {
      assert a + b == b;
    } else {
      assert (a + b)[1..] == a[1..] + b;
      StripJoin(a[1..], b);
    }
  }

  lemma {:induction false} StripOneLine(a: string)
    requires OneLine(a)
    ensures Strip(a) == a
  {
    if a != "" {
      StripOneLine(a[1..]);
    }
  }

  // Gluing the pieces of a split together leaves out exactly the newlines.
  lemma {:induction false} FlatOfSplit(s: string)
    ensures Flat(Split(s)) == Strip(s)
  {
    if s != "" {
      FlatOfSplit(s[1..]);
      var r := Split(s[1..]);
      assert s[0] != NL ==> Cons(s[0], r)[1..] == r[1..];
      Associate([s[0]], r[0], Flat(r[1..]));
      assert ([""] + r)[1..] == r && "" + Flat(r) == Flat(r);
    }
  }

  lemma {:induction false} FlatJoin(a: seq<string>, b: seq<string>)
    ensures Flat(a + b) == Flat(a) + Flat(b)
    decreases |a|
  {
    if a == [] {
      assert a + b == b;
    } else {
      assert (a + b)[1..] == a[1..] + b;
      FlatJoin(a[1..], b);
      Associate(a[0], Flat(a[1..]), Flat(b));
    }
  }

  lemma LinesAndTail(s: string)
    ensures Flat(Lines(s)) + Tail(s) == Strip(s)
  {
    FlatOfSplit(s);
    assert Split(s) == Lines(s) + [Tail(s)];
    FlatJoin(Lines(s), [Tail(s)]);
    assert [Tail(s)][1..] == [] && Tail(s) + "" == Tail(s);
  }

  predicate AllOneLine(ls: seq<string>) {
    forall k :: 0 <= k < |ls| ==> OneLine(ls[k])
  }

  lemma {:induction false} LinesPrintAll(matches: string -> bool, m: Mon, ls: seq<string>)
    requires MatchesAll(matches) && AllOneLine(ls)
    ensures Strip(HandleLines(matches, m, ls).printed) == Strip(m.printed) + Flat(ls)
    decreases |ls|
  {
    if ls != [] {
      LinesPrintAll(matches, HandleLine(matches, m, ls[0]), ls[1..]);
      LinePrints(matches, m, ls[0]);
      Associate(Strip(m.printed), ls[0], Flat(ls[1..]));
    }
  }

  lemma LinePrints(matches: string -> bool, m: Mon, line: string)
    requires MatchesAll(matches) && OneLine(line)
    ensures Strip(HandleLine(matches, m, line).printed) == Strip(m.printed) + line
  {
    if line != "" {
      StripJoin(m.printed, line + [NL]);
      StripJoin(line, [NL]);
      StripOneLine(line);
      assert Strip([NL]) == "" by {
        assert [NL][1..] == "";
      }
    }
  }

  // What has been printed and what is pending make up what came in, newlines aside.
  ghost predicate Conserved(m: Mon, input: string) {
    OneLine(m.lastPart) && Strip(m.printed) + m.lastPart == Strip(input)
  }

  lemma PartPrints(matches: string -> bool, m: Mon, finalize: bool, input: string)
    requires Conserved(m, input)
    ensures Conserved(HandlePart(matches, m, finalize), input)
  {
    StripJoin(m.printed, m.lastPart);
    StripOneLine(m.lastPart);
  }

  lemma HandleConserves(matches: string -> bool, m: Mon, data: string, finalize: bool, input: string)
    requires MatchesAll(matches) && Conserved(m, input)
    ensures Conserved(Handle(matches, m, data, finalize), input + data)
  {
    var all := m.lastPart + data;
    var n := m.(lastPart := Tail(all));
    SplitPiecesAreOneLine(all);
    assert AllOneLine(Lines(all)) && OneLine(Tail(all));
    LinesPrintAll(matches, n, Lines(all));
    LinesKeepPart(matches, n, Lines(all));
    LinesAndTail(all);
    StripJoin(m.lastPart, data);
    StripOneLine(m.lastPart);
    StripJoin(input, data);
    Associate(Strip(m.printed), Flat(Lines(all)), Tail(all));
    Associate(Strip(m.printed), m.lastPart, Strip(data));
    PartPrints(matches, HandleLines(matches, n, Lines(all)), finalize, input + data);
  }

  lemma {:induction false} RunConserves(matches: string -> bool, m: Mon, es: seq<Input>, input: string)
    requires MatchesAll(matches) && Conserved(m, input)
    ensures Conserved(Run(matches, m, es), input + Stream(es))
    decreases |es|
  {
    if es == [] {
      assert input + "" == input;
    } else {
      var data := if es[0].Chunk? then es[0].data else "";
      HandleConserves(matches, m, data, es[0].Flush?, input);
      RunConserves(matches, Process(matches, m, es[0]), es[1..], input + data);
      Associate(input, data, Stream(es[1..]));
    }
  }

  // Any mix of chunks and flushes prints every byte that is not a newline exactly once,
  // in order, up to the pending part.
  lemma NothingIsLost(matches: string -> bool, es: seq<Input>)
    requires MatchesAll(matches)
    ensures Strip(Run(matches, INIT, es).printed) + Run(matches, INIT, es).lastPart == Strip(Stream(es))
  {
    assert "" + Stream(es) == Stream(es);
    RunConserves(matches, INIT, es, "");
  }

  // ----- a flush inside a line -----

  lemma {:induction false} SplitOneLine(a: string)
    requires OneLine(a)
    ensures Split(a) == [a] && Lines(a) == [] && Tail(a) == a
  {
    if a != "" {
      SplitOneLine(a[1..]);
      assert a == [a[0]] + a[1..] && [a[1..]][1..] == [];
    }
  }

  lemma SplitTerminated(a: string)
    requires OneLine(a)
    ensures Lines(a + [NL]) == [a] && Tail(a + [NL]) == ""
  {
    SplitBehindPrefix(a, [NL]);
    assert [NL][1..] == "" && Split("") == [""];
    assert Split([NL]) == ["", ""];
    assert a + "" == a;
  }

  // A fragment that arrives while printing is forced is handled at once.
  lemma FragmentStep(matches: string -> bool, m: Mon, f: string)
    requires m.lastPart == "" && m.forcePrint && f != "" && OneLine(f)
    ensures Process(matches, m, Chunk(f)) ==
            m.(printed := m.printed + f, lookups := m.lookups + Addresses(m.carry + f), carry := Carry(f))
  {
    assert "" + f == f;
    SplitOneLine(f);
  }

  // The fragment that ends the line.
  lemma LastFragmentStep(matches: string -> bool, m: Mon, f: string)
    requires OneLine(m.lastPart) && OneLine(f) && m.lastPart + f != ""
    requires m.forcePrint || matches(m.lastPart + f)
    ensures var line := m.lastPart + f;
            Process(matches, m, Chunk(f + [NL])) ==
            Mon("", false, "", m.printed + (line + [NL]), m.lookups + Addresses(m.carry + line), m.handled + [line])
  {
    var line := m.lastPart + f;
    Associate(m.lastPart, f, [NL]);
    SplitTerminated(line);
    var n := m.(lastPart := "");
    assert HandleLines(matches, n, [line]) == HandleLine(matches, n, line) by {
      assert [line][1..] == [];
    }
    assert Handle(matches, m, f + [NL], false) == HandlePart(matches, HandleLine(matches, n, line), false);
  }

  lemma FlushStep(matches: string -> bool, m: Mon)
    requires m.lastPart != "" && OneLine(m.lastPart) && matches(m.lastPart)
    ensures Process(matches, m, Flush) ==
            m.(forcePrint := true, printed := m.printed + m.lastPart, lastPart := "",
               lookups := m.lookups + Addresses(m.carry + m.lastPart), carry := Carry(m.lastPart))
  {
    assert m.lastPart + "" == m.lastPart;
    SplitOneLine(m.lastPart);
  }

  lemma CancelLookups(a: seq<string>, b: seq<string>, c: seq<string>)
    ensures a + b == a + c <==> b == c
  {
    assert (a + b)[|a|..] == b && (a + c)[|a|..] == c;
  }

  // A part the filter refuses is left alone by a flush.
  lemma RefusedFlush(matches: string -> bool, m: Mon)
    requires OneLine(m.lastPart) && !m.forcePrint && !matches(m.lastPart)
    ensures Process(matches, m, Flush) == m
  {
    assert m.lastPart + "" == m.lastPart;
    SplitOneLine(m.lastPart);
  }

  lemma RefusedLineStep(matches: string -> bool, m: Mon, f: string)
    requires OneLine(m.lastPart) && OneLine(f) && m.lastPart + f != ""
    requires !m.forcePrint && !matches(m.lastPart + f)
    ensures Process(matches, m, Chunk(f + [NL])) == m.(lastPart := "", handled := m.handled + [m.lastPart + f])
  {
    var line := m.lastPart + f;
    Associate(m.lastPart, f, [NL]);
    SplitTerminated(line);
    var n := m.(lastPart := "");
    assert HandleLines(matches, n, [line]) == HandleLine(matches, n, line) by {
      assert [line][1..] == [];
    }
    assert Handle(matches, m, f + [NL], false) == HandlePart(matches, HandleLine(matches, n, line), false);
  }

  // A line is complete after a flush of `m.lastPart` and the chunk that ends it.
  lemma CutLineStep(matches: string -> bool, m: Mon, b: string)
    requires m.lastPart != "" && OneLine(m.lastPart) && b != "" && OneLine(b) && m.carry == ""
    requires matches(m.lastPart)
    ensures var cut := Process(matches, Process(matches, m, Flush), Chunk(b + [NL]));
            && cut.printed == m.printed + (m.lastPart + b + [NL])
            && cut.lookups == m.lookups + (Addresses(m.lastPart) + Addresses(Carry(m.lastPart) + b))
            && cut.carry == "" && cut.lastPart == "" && !cut.forcePrint
  {
    var a := m.lastPart;
    FlushStep(matches, m);
    assert "" + b == b && m.carry + a == a;
    LastFragmentStep(matches, Process(matches, m, Flush), b);
    Reassociate(m.lookups, Addresses(a), Addresses(Carry(a) + b));
    Associate(m.printed, a, b + [NL]);
    Associate(a, b, [NL]);
  }

  // A line cut by one flush into two non-empty parts is printed exactly as the uncut line
  // if and only if the filter does not let the first part of a refused line through; it
  // then looks up the same addresses in the same order exactly when the cut keeps them.
  lemma FlushKeepsLookups(matches: string -> bool, m: Mon, b: string)
    requires m.lastPart != "" && OneLine(m.lastPart) && b != "" && OneLine(b)
    requires !m.forcePrint && m.carry == ""
    ensures var a, rest := m.lastPart, Chunk(b + [NL]);
            var cut, uncut := Process(matches, Process(matches, m, Flush), rest), Process(matches, m, rest);
            && (cut.printed == uncut.printed <==> (matches(a) ==> matches(a + b)))
            && (matches(a) && !matches(a + b) ==>
                  cut.printed == m.printed + (a + b + [NL]) && uncut.printed == m.printed)
            && (!matches(a) ==> cut == uncut)
            && (matches(a) && matches(a + b) ==> (cut.lookups == uncut.lookups <==> CutKeeps(a, b)))
            && (matches(a + b) ==> uncut.lookups == m.lookups + Addresses(a + b))
            && cut.carry == uncut.carry == "" && cut.lastPart == uncut.lastPart == "" && !cut.forcePrint
  {
    var a := m.lastPart;
    if matches(a + b) {
      LastFragmentStep(matches, m, b);
      assert m.carry + (a + b) == a + b;
    } else {
      RefusedLineStep(matches, m, b);
    }
    if matches(a) {
      CutLineStep(matches, m, b);
      CancelLookups(m.lookups, Addresses(a) + Addresses(Carry(a) + b), Addresses(a + b));
    } else {
      RefusedFlush(matches, m);
    }
  }

  // After a flush every further chunk of the line is a fragment of its own.
  function RunFragments(matches: string -> bool, m: Mon, fs: seq<string>): Mon
    requires fs != []
    decreases |fs|
  {
    if |fs| == 1 then Process(matches, m, Chunk(fs[0] + [NL]))
    else RunFragments(matches, Process(matches, m, Chunk(fs[0])), fs[1..])
  }

  predicate Fragments(fs: seq<string>) {
    forall k :: 0 <= k < |fs| ==> fs[k] != "" && OneLine(fs[k])
  }

  lemma {:induction false} FragmentLookups(matches: string -> bool, m: Mon, fs: seq<string>)
    requires m.lastPart == "" && m.forcePrint && fs != [] && Fragments(fs)
    ensures RunFragments(matches, m, fs).lookups == m.lookups + FragmentAddresses(m.carry, fs)
    decreases |fs|
  {
    if |fs| == 1 {
      assert m.lastPart + fs[0] == fs[0];
      LastFragmentStep(matches, m, fs[0]);
      assert fs[1..] == [];
      assert Addresses(m.carry + fs[0]) + [] == Addresses(m.carry + fs[0]);
    } else {
      FragmentStep(matches, m, fs[0]);
      FragmentLookups(matches, Process(matches, m, Chunk(fs[0])), fs[1..]);
      Reassociate(m.lookups, Addresses(m.carry + fs[0]), FragmentAddresses(Carry(fs[0]), fs[1..]));
    }
  }

  // A flushed line that goes on in chunks of at least nine characters (the last one
  // apart) yields the lookups of the whole line, if no addresses overlap.
  lemma ChunksAfterFlushKeepLookups(matches: string -> bool, m: Mon, fs: seq<string>)
    requires m.lastPart != "" && OneLine(m.lastPart) && matches(m.lastPart) && m.carry == ""
    requires fs != [] && Fragments(fs) && NoOverlap(m.lastPart + Flat(fs))
    requires forall k :: 0 <= k < |fs| - 1 ==> |fs[k]| >= CARRY
    ensures RunFragments(matches, Process(matches, m, Flush), fs).lookups ==
            m.lookups + Addresses(m.lastPart + Flat(fs))
  {
    var a := m.lastPart;
    FlushStep(matches, m);
    assert m.carry + a == a;
    FragmentLookups(matches, Process(matches, m, Flush), fs);
    FragmentsFrom(a, fs);
    Reassociate(m.lookups, Addresses(a), FragmentAddresses(Carry(a), fs));
  }

  // ----- a newline that arrives alone -----

  // The newline that ends a flushed line on its own is dropped: it is not printed, the
  // next line is still forced out, and the carried characters wait for it.
  lemma LoneNewlineIsDropped(matches: string -> bool, m: Mon)
    requires m.lastPart != "" && OneLine(m.lastPart) && matches(m.lastPart)
    ensures var n := Process(matches, m, Flush);
            && Process(matches, n, Chunk([NL])) == n
            && n.printed == m.printed + m.lastPart && n.forcePrint && n.carry == Carry(m.lastPart)
  {
    FlushStep(matches, m);
    assert "" + [NL] == [NL];
    SplitTerminated("");
    assert [""][1..] == [];
  }

  // A flush, the newline alone, and the next line.
  function NextLine(matches: string -> bool, m: Mon, l: string): Mon {
    Process(matches, Process(matches, Process(matches, m, Flush), Chunk([NL])), Chunk(l + [NL]))
  }

  // Whatever the filter says, the next line is printed behind the flushed part, and it is
  // searched for addresses behind the carried characters.
  lemma NextLineStep(matches: string -> bool, m: Mon, l: string)
    requires m.lastPart != "" && OneLine(m.lastPart) && matches(m.lastPart) && l != "" && OneLine(l)
    ensures NextLine(matches, m, l).printed == m.printed + m.lastPart + (l + [NL])
    ensures NextLine(matches, m, l).lookups ==
            Process(matches, m, Flush).lookups + Addresses(Carry(m.lastPart) + l)
  {
    FlushStep(matches, m);
    LoneNewlineIsDropped(matches, m);
    assert "" + l == l;
    LastFragmentStep(matches, Process(matches, m, Flush), l);
  }

  // The next line is looked up as if nothing had been carried.
  ghost predicate NextLineIsClean(matches: string -> bool, m: Mon, l: string) {
    NextLine(matches, m, l).lookups == Process(matches, m, Flush).lookups + Addresses(l)
  }

  lemma CompletionIsOneLine(n: nat)
    requires n <= ADDRESS_LENGTH
    ensures OneLine(Completion(n))
  {
    assert NL !in "0x40000000";
  }

  // Every next line is looked up by its own text: if and only if no carried end of the
  // flushed part could be the beginning of an address.
  lemma NextLineIsCleanIff(matches: string -> bool, m: Mon)
    requires m.lastPart != "" && OneLine(m.lastPart) && matches(m.lastPart)
    ensures (forall l :: l != "" && OneLine(l) ==> NextLineIsClean(matches, m, l))
            <==> !EndsInBeginning(m.lastPart)
  {
    var a := m.lastPart;
    var found := Process(matches, m, Flush).lookups;
    if EndsInBeginning(a) {
      var q :| CarryStart(|a|) <= q < |a| && Begins(a[q..]);
      var l := Completion(|a| - q);
      CarriedBeginning(a, q);
      CompletionIsOneLine(|a| - q);
      NextLineStep(matches, m, l);
      CancelLookups(found, Addresses(Carry(a) + l), Addresses(l));
      assert !NextLineIsClean(matches, m, l);
    } else {
      forall l | l != "" && OneLine(l) ensures NextLineIsClean(matches, m, l) {
        NextLineStep(matches, m, l);
        NothingCarried(a, l);
      }
    }
  }

  // "0x4", flushed, and its newline alone, before the line "0000000": the monitor looks up
  // an address that is in neither line.
  lemma AddressOfNeitherLine(matches: string -> bool, m: Mon)
    requires m.lastPart == "0x4" && matches(m.lastPart)
    ensures Addresses("0x4") == [] && Addresses("0000000") == []
    ensures NextLine(matches, m, "0000000").lookups == Process(matches, m, Flush).lookups + ["0x40000000"]
  {
    NextLineStep(matches, m, "0000000");
    var s := Carry("0x4") + "0000000";
    assert s == "0x40000000" && s[0..10] == s;
    assert AddressAt(s, 0);
    assert Scan(s, 0, |s|) == [0];
    assert [0][1..] == [];
    assert Texts(s, [0]) == [Text(s, 0)];
  }
}
