/** Line reassembly in the serial monitor (idf_monitor.py): chunks of any size and
    timer flushes of an unfinished line are turned into printed output, handled lines
    and address lookups. Bytes are modelled as characters, decoding as the identity. */
module LineMonitor {
  import opened Options
  import opened AddressScan

  const NL: char := '\n'

  // ----- splitting a stream -----

  // `data.split(b'\n')`
  function Split(s: string): (r: seq<string>)
    ensures r != []
  {
    if s == "" then [""] else Cons(s[0], Split(s[1..]))
  }

  // One more character in front of a split text.
  function Cons(c: char, r: seq<string>): (q: seq<string>)
    requires r != []
    ensures q != []
  {
    if c == NL then [""] + r else [[c] + r[0]] + r[1..]
  }

  // The complete lines of a stream, and its unterminated tail.
  function Lines(s: string): seq<string> {
    Split(s)[..|Split(s)| - 1]
  }

  function Tail(s: string): string {
    Split(s)[|Split(s)| - 1]
  }

  function NonEmpty(ls: seq<string>): seq<string> {
    if ls == [] then [] else (if ls[0] == "" then [] else [ls[0]]) + NonEmpty(ls[1..])
  }

  function Strip(s: string): string {
    if s == "" then "" else (if s[0] == NL then "" else [s[0]]) + Strip(s[1..])
  }

  predicate OneLine(s: string) {
    NL !in s
  }

  // The pieces with a newline between any two.
  function Join(r: seq<string>): string {
    if r == [] then "" else if |r| == 1 then r[0] else r[0] + [NL] + Join(r[1..])
  }

  // A split is undone by a join.
  lemma {:induction false} JoinOfSplit(s: string)
    ensures Join(Split(s)) == s
  {
    if s != "" {
      JoinOfSplit(s[1..]);
      var r := Split(s[1..]);
      assert s == [s[0]] + s[1..];
      if s[0] == NL {
        assert ([""] + r)[1..] == r && "" + [NL] + Join(r) == [NL] + Join(r);
      } else {
        var q := [[s[0]] + r[0]] + r[1..];
        assert q[1..] == r[1..];
        if |r| > 1 {
          assert [s[0]] + r[0] + [NL] + Join(r[1..]) == [s[0]] + (r[0] + [NL] + Join(r[1..]));
        }
      }
    }
  }

  // ----- the print filter, `LineMatcher.match` -----

  // N, E, W, I, D, V
  type Level = n: nat | n <= 5
  const LEVEL_N: Level := 0
  const LEVEL_V: Level := 5

  datatype Header = Header(level: Level, tag: string)

  // The entry for everything else.
  function Star(filter: map<string, Level>): Level {
    if "*" in filter then filter["*"] else LEVEL_N
  }

  // `header` is what the regular expression recognises at the start of an ESP_LOG line.
  predicate Match(filter: map<string, Level>, header: Option<Header>) {
    match header
    case Some(h) => (if h.tag in filter then filter[h.tag] else Star(filter)) >= h.level
    case None => Star(filter) > LEVEL_N
  }

  // An entry decides the lines of its tag by their level and leaves all others alone.
  lemma EntryRulesItsTag(filter: map<string, Level>, tag: string, level: Level, header: Option<Header>)
    requires tag != "*"
    ensures Match(filter[tag := level], header) <==>
            if header.Some? && header.value.tag == tag then header.value.level <= level else Match(filter, header)
  {
  }

  // The "*" entry decides the lines whose tag has none, and by its being above N those without a header.
  lemma StarRulesTheRest(filter: map<string, Level>, level: Level, header: Option<Header>)
    requires header.Some? ==> header.value.tag !in filter && header.value.tag != "*"
    ensures Match(filter["*" := level], header) <==> (if header.Some? then header.value.level else 1) <= level
  {
  }

  // A filter without a "*" entry prints exactly the lines whose tag has an entry of at
  // least their level; lines without a header, and tags without an entry, are refused.
  lemma WithoutStar(filter: map<string, Level>, header: Option<Header>)
    requires "*" !in filter && (header.Some? ==> header.value.level > LEVEL_N)
    ensures Match(filter, header) <==>
            header.Some? && header.value.tag in filter && filter[header.value.tag] >= header.value.level
  {
  }

  // What may become of the header of a text that goes on: one that is there stays.
  predicate GoesOn(before: Option<Header>, after: Option<Header>) {
    && (before.Some? ==> after == before)
    && (after.Some? ==> after.value.level > LEVEL_N)
  }

  // A text that the filter lets through is let through when it goes on: if and only if the
  // filter prints no text without a header, or prints everything.
  lemma PartDecidesIff(filter: map<string, Level>)
    ensures (forall before, after :: GoesOn(before, after) && Match(filter, before) ==> Match(filter, after))
            <==> Star(filter) == LEVEL_N || (Star(filter) == LEVEL_V && forall t :: t in filter ==> filter[t] == LEVEL_V)
  {
    if Star(filter) > LEVEL_N {
      if Star(filter) < LEVEL_V {
        assert GoesOn(None, Some(Header(LEVEL_V, "*"))) && !Match(filter, Some(Header(LEVEL_V, "*")));
      } else if exists t :: t in filter && filter[t] != LEVEL_V {
        var t :| t in filter && filter[t] != LEVEL_V;
        assert GoesOn(None, Some(Header(LEVEL_V, t))) && !Match(filter, Some(Header(LEVEL_V, t)));
      }
    }
  }

  // The filter an empty --print_filter yields.
  const DEFAULT_FILTER: map<string, Level> := map["*" := LEVEL_V]

  // ----- one call of handle_serial_input, as functions -----

  datatype Mon = Mon(
    lastPart: string, forcePrint: bool, carry: string,
    printed: string, lookups: seq<string>, handled: seq<string>)

  const INIT: Mon := Mon("", false, "", "", [], [])

  function HandleLine(matches: string -> bool, m: Mon, line: string): Mon {
    if line == "" then m
    else if m.forcePrint || matches(line) then
      m.(printed := m.printed + (line + [NL]), lookups := m.lookups + Addresses(m.carry + line), carry := "",
         handled := m.handled + [line], forcePrint := false)
    else m.(handled := m.handled + [line], forcePrint := false)
  }

  function HandleLines(matches: string -> bool, m: Mon, ls: seq<string>): Mon
    decreases |ls|
  {
    if ls == [] then m else HandleLines(matches, HandleLine(matches, m, ls[0]), ls[1..])
  }

  // The decision about the unfinished last line.
  function HandlePart(matches: string -> bool, m: Mon, finalize: bool): Mon {
    if m.lastPart != "" && (m.forcePrint || (finalize && matches(m.lastPart))) then
      m.(forcePrint := true, printed := m.printed + m.lastPart,
         lookups := m.lookups + Addresses(m.carry + m.lastPart), carry := Carry(m.lastPart), lastPart := "")
    else m
  }

  function Handle(matches: string -> bool, m: Mon, data: string, finalize: bool): Mon {
    var all := m.lastPart + data;
    HandlePart(matches, HandleLines(matches, m.(lastPart := Tail(all)), Lines(all)), finalize)
  }

  // ----- the monitor -----

  lemma {:induction false} SplitBehindPrefix(p: string, s: string)
    requires OneLine(p)
    ensures Split(p + s) == [p + Split(s)[0]] + Split(s)[1..]
    decreases |p|
  {
    if p == "" {
      assert p + s == s && p + Split(s)[0] == Split(s)[0];
      assert Split(s) == [Split(s)[0]] + Split(s)[1..];
    } else {
      assert (p + s)[1..] == p[1..] + s;
      SplitBehindPrefix(p[1..], s);
      assert [p[0]] + (p[1..] + Split(s)[0]) == p + Split(s)[0];
    }
  }

  lemma {:induction false} HandleLinesAppends(matches: string -> bool, m: Mon, ls: seq<string>, line: string)
    ensures HandleLines(matches, m, ls + [line]) == HandleLine(matches, HandleLines(matches, m, ls), line)
    decreases |ls|
  {
    if ls == [] {
      assert ls + [line] == [line];
    } else {
      assert (ls + [line])[1..] == ls[1..] + [line];
      HandleLinesAppends(matches, HandleLine(matches, m, ls[0]), ls[1..], line);
    }
  }

  lemma {:induction false} SplitPiecesAreOneLine(s: string)
    ensures forall k :: 0 <= k < |Split(s)| ==> OneLine(Split(s)[k])
  {
    if s != "" {
      SplitPiecesAreOneLine(s[1..]);
      var r := Split(s[1..]);
      assert OneLine(r[0]);
    }
  }

  class Monitor {
    var lastPart: string
    var forcePrint: bool
    var carry: string
    var printed: string
    var lookups: seq<string>
    var handled: seq<string>
    const matches: string -> bool

    ghost function State(): Mon
      reads this
    {
      Mon(lastPart, forcePrint, carry, printed, lookups, handled)
    }

    constructor (filter: string -> bool)
      ensures State() == INIT && matches == filter
    {
      lastPart, forcePrint, carry, printed, lookups, handled := "", false, "", "", [], [];
      matches := filter;
    }

    method HandlePossiblePcAddress(line: string)
      modifies this`carry, this`lookups
      ensures carry == "" && lookups == old(lookups) + Addresses(old(carry) + line)
    {
      var text := carry + line;
      carry := "";
      lookups := lookups + Addresses(text);
    }

    method HandleOne(line: string)
      modifies this
      ensures State() == HandleLine(matches, old(State()), line)
    {
      if line != "" {
        if forcePrint || matches(line) {
          printed := printed + (line + [NL]);
          HandlePossiblePcAddress(line);
        }
        handled := handled + [line];
        forcePrint := false;
      }
    }

    // The pieces to go through; the last one is kept back unless it is empty.
    method TakePieces(data: string) returns (sp: seq<string>)
      requires OneLine(lastPart)
      modifies this`lastPart
      ensures lastPart == Tail(old(lastPart) + data) && OneLine(lastPart)
      ensures sp == Lines(old(lastPart) + data) || (sp == Split(old(lastPart) + data) && lastPart == "")
    {
      SplitBehindPrefix(lastPart, data);
      SplitPiecesAreOneLine(lastPart + data);
      sp := Split(data);
      if lastPart != "" {
        sp := sp[0 := lastPart + sp[0]];
        lastPart := "";
      }
      assert sp == Split(old(lastPart) + data) by {
        assert "" + Split(data)[0] == Split(data)[0];
      }
      if sp[|sp| - 1] != "" {
        lastPart := sp[|sp| - 1];
        sp := sp[..|sp| - 1];
      }
    }

    method HandlePieces(sp: seq<string>)
      modifies this
      ensures State() == HandleLines(matches, old(State()), sp)
    {
      for k := 0 to |sp|
        invariant State() == HandleLines(matches, old(State()), sp[..k])
      {
        HandleLinesAppends(matches, old(State()), sp[..k], sp[k]);
        assert sp[..k + 1] == sp[..k] + [sp[k]];
        HandleOne(sp[k]);
      }
      assert sp[..|sp|] == sp;
    }

    method HandleLastPart(finalize: bool)
      modifies this
      ensures State() == HandlePart(matches, old(State()), finalize)
    {
      if lastPart != "" {
        if forcePrint || (finalize && matches(lastPart)) {
          forcePrint := true;
          printed := printed + lastPart;
          HandlePossiblePcAddress(lastPart);
          carry := Carry(lastPart);
          lastPart := "";
        }
      }
    }

    method HandleSerialInput(data: string, finalize: bool)
      requires OneLine(lastPart)
      modifies this
      ensures State() == Handle(matches, old(State()), data, finalize)
      ensures OneLine(lastPart)
    {
      ghost var all := lastPart + data;
      var sp := TakePieces(data);
      LastEmptyIsSkipped(matches, State(), all, sp);
      LinesKeepPart(matches, State(), sp);
      HandlePieces(sp);
      HandleLastPart(finalize);
    }
  }

  lemma {:induction false} LinesKeepPart(matches: string -> bool, m: Mon, ls: seq<string>)
    ensures HandleLines(matches, m, ls).lastPart == m.lastPart
    decreases |ls|
  {
    if ls != [] {
      LinesKeepPart(matches, HandleLine(matches, m, ls[0]), ls[1..]);
    }
  }

  // An empty piece behind the last newline stays in the list and is skipped.
  lemma LastEmptyIsSkipped(matches: string -> bool, m: Mon, all: string, sp: seq<string>)
    requires sp == Lines(all) || (sp == Split(all) && Tail(all) == "")
    ensures HandleLines(matches, m, sp) == HandleLines(matches, m, Lines(all))
  {
    if sp == Split(all) {
      assert sp == Lines(all) + [Tail(all)];
      HandleLinesAppends(matches, m, Lines(all), Tail(all));
    }
  }
}
