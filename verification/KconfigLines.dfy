/** What becomes of every line of a Kconfig file: the indentation of options, help texts,
    continuations and keywords, the exact condition of each error, and what the check at
    the end of a file notices. */
module KconfigLines {
  import opened Options
  import opened KconfigChecker
  import opened KconfigNesting
  import opened KconfigPrefixes

  // ----- how deep a file is -----

  // The leaves a keyword sequence leaves behind the open blocks: a config, menuconfig or
  // source, and every help since.
  function Leaves(ks: seq<Keyword>): nat {
    if ks == [] then 0
    else
      match ks[|ks| - 1]
      case Help => Leaves(ks[..|ks| - 1]) + 1
      case Config => 1
      case MenuConfig => 1
      case Source => 1
      case _ => 0
  }

  predicate EndsInHelp(ks: seq<Keyword>) {
    ks != [] && ks[|ks| - 1] == Help
  }

  function Depth(ks: seq<Keyword>): nat
    requires OpenBlocks(ks).Some?
  {
    |OpenBlocks(ks).value| + Leaves(ks)
  }

  lemma LeavesAfter(ks: seq<Keyword>, k: Keyword)
    ensures Leaves(ks + [k]) ==
            if k == Help then Leaves(ks) + 1 else if k == Config || k == MenuConfig || k == Source then 1 else 0
  {
    assert (ks + [k])[..|ks|] == ks;
  }

  lemma ApplyDepth(levels: seq<Keyword>, open: seq<Keyword>, k: Keyword)
    requires Shape(levels, open) && Nest(open, k).Some? && (k == MainMenu ==> levels == open)
    ensures |Apply(levels, k)| ==
            |Nest(open, k).value|
            + if k == Help then |levels| - |open| + 1 else if k == Config || k == MenuConfig || k == Source then 1 else 0
  {
    if IsCloser(k) {
      CloseShape(levels, open, k);
    } else if IsEntry(k) {
      UnwindShape(levels, open);
    }
  }

  // The level stack of a well-nested sequence has one level per open block and per leaf,
  // and ends in help exactly after a help.
  lemma {:induction false} LevelsAreDepth(ks: seq<Keyword>)
    requires OpenBlocks(ks).Some?
    ensures |LevelsAfter(ks)| == Depth(ks)
    ensures (LevelsAfter(ks) != [] && LevelsAfter(ks)[|LevelsAfter(ks)| - 1] == Help) <==> EndsInHelp(ks)
  {
    if ks != [] {
      var init, k := ks[..|ks| - 1], ks[|ks| - 1];
      LevelsAreDepth(init);
      LevelsAreOpenBlocks(init);
      LevelsAreOpenBlocks(ks);
      ApplyDepth(LevelsAfter(init), OpenBlocks(init).value, k);
      LastLevel(LevelsAfter(init), OpenBlocks(init).value, k);
    }
  }

  lemma LastLevel(levels: seq<Keyword>, open: seq<Keyword>, k: Keyword)
    requires Shape(levels, open) && Nest(open, k).Some?
    ensures !IsCloser(k) ==> Apply(levels, k) != [] && Apply(levels, k)[|Apply(levels, k)| - 1] == k
    ensures IsCloser(k) ==> Apply(levels, k) == [] || Apply(levels, k)[|Apply(levels, k)| - 1] != Help
  {
    if IsCloser(k) {
      CloseShape(levels, open, k);
    }
  }

  // The state of the checker after a file, by the file alone.
  lemma FileDepth(lines: seq<Line>)
    requires OpenBlocks(Keywords(lines)).Some?
    ensures |StateAfter(lines).levels| == Depth(Keywords(lines))
    ensures forall indent: nat ::
              InHelp(StateAfter(lines), indent) <==> EndsInHelp(Keywords(lines)) && indent >= 4 * Depth(Keywords(lines))
  {
    LevelsOfFile(lines);
    LevelsAreDepth(Keywords(lines));
  }

  // ----- the indentation of every line -----

  // A complaint about prefixes comes first; then the line is accepted at exactly one
  // indentation, and a backslash asks for four spaces more on the next line.
  predicate Judged(r: Outcome, line: Line, closing: Option<Error>, expected: nat)
    requires line.Text?
  {
    if closing.Some? then r.error == closing && r.state.force == 0
    else
      && r.error == (if line.indent == expected then None else Some(WrongIndent(expected)))
      && r.state.force == (if line.wrapped then expected + 4 else 0)
  }

  lemma OptionByLevel(c: Checker, line: Line)
    requires line.Text? && line.keyword == None && line.name == None && c.force == 0
    ensures InHelp(c, line.indent) ==> CheckLine(c, line) == Outcome(c, None)
    ensures !InHelp(c, line.indent) ==> Judged(CheckLine(c, line), line, None, 4 * |c.levels|)
    ensures CheckLine(c, line).state.levels == c.levels && CheckLine(c, line).state.prefixes == c.prefixes
  {
  }

  // A line without a keyword (type, prompt, default, depends on) is accepted exactly one
  // level deeper than the config it belongs to; behind a help everything from one level
  // deeper on is help text and nothing else is accepted.
  lemma OptionIndentation(lines: seq<Line>, line: Line)
    requires OpenBlocks(Keywords(lines)).Some? && StateAfter(lines).force == 0
    requires line.Text? && line.keyword == None && line.name == None
    ensures CheckLine(StateAfter(lines), line).error == None <==>
            if EndsInHelp(Keywords(lines)) then line.indent >= 4 * Depth(Keywords(lines))
            else line.indent == 4 * Depth(Keywords(lines))
    ensures InHelp(StateAfter(lines), line.indent)
            || Judged(CheckLine(StateAfter(lines), line), line, None, 4 * Depth(Keywords(lines)))
    ensures CheckLine(StateAfter(lines), line).state.levels == StateAfter(lines).levels
    ensures CheckLine(StateAfter(lines), line).state.prefixes == StateAfter(lines).prefixes
  {
    FileDepth(lines);
    OptionByLevel(StateAfter(lines), line);
  }

  lemma NestSize(open: seq<Keyword>, k: Keyword)
    requires Nest(open, k).Some?
    ensures |Nest(open, k).value| == |open| + if IsCloser(k) then -1 else if IsBlock(k) then 1 else 0
  {
  }

  // How one more keyword changes the depth.
  lemma DepthAfterKeyword(ks: seq<Keyword>, k: Keyword)
    requires OpenBlocks(ks + [k]).Some?
    ensures OpenBlocks(ks).Some?
    ensures Depth(ks + [k]) ==
            if k == Help then Depth(ks) + 1
            else if IsCloser(k) then |OpenBlocks(ks).value| - 1
            else |OpenBlocks(ks).value| + 1
    ensures EndsInHelp(ks + [k]) <==> k == Help
  {
    AppendKeyword(ks, k);
    LeavesAfter(ks, k);
    NestSize(OpenBlocks(ks).value, k);
  }

  // An option under an entry: one level deeper than the blocks open before the entry.
  lemma OptionsUnderEntry(lines: seq<Line>, ks: seq<Keyword>, k: Keyword, line: Line)
    requires IsEntry(k) && Keywords(lines) == ks + [k] && StateAfter(lines).force == 0
    requires line.Text? && line.keyword == None && line.name == None
    requires OpenBlocks(ks + [k]).Some?
    ensures OpenBlocks(ks).Some?
    ensures CheckLine(StateAfter(lines), line).error == None <==> line.indent == 4 * (|OpenBlocks(ks).value| + 1)
  {
    DepthAfterKeyword(ks, k);
    OptionIndentation(lines, line);
  }

  // Text under the help of an entry: two levels deeper or more.
  lemma TextUnderHelp(lines: seq<Line>, ks: seq<Keyword>, k: Keyword, line: Line)
    requires IsEntry(k) && Keywords(lines) == ks + [k] + [Help] && StateAfter(lines).force == 0
    requires line.Text? && line.keyword == None && line.name == None
    requires OpenBlocks(ks + [k] + [Help]).Some?
    ensures OpenBlocks(ks + [k]).Some? && OpenBlocks(ks).Some?
    ensures CheckLine(StateAfter(lines), line).error == None <==> line.indent >= 4 * (|OpenBlocks(ks).value| + 2)
  {
    DepthAfterKeyword(ks + [k], Help);
    DepthAfterKeyword(ks, k);
    OptionIndentation(lines, line);
  }

  // The indentation of a keyword line: a help is at the depth of the options, a leading
  // mainmenu at the margin, every other entry at the open blocks.
  function KeywordIndent(ks: seq<Keyword>, k: Keyword): nat
    requires OpenBlocks(ks + [k]).Some?
  {
    AppendKeyword(ks, k);
    4 * (if k == Help then Depth(ks)
         else if IsCloser(k) then |OpenBlocks(ks + [k]).value|
         else |OpenBlocks(ks).value|)
  }

  lemma KeywordLevel(ks: seq<Keyword>, k: Keyword)
    requires OpenBlocks(ks + [k]).Some?
    ensures 4 * (|LevelsAfter(ks + [k])| - if IsCloser(k) then 0 else 1) == KeywordIndent(ks, k)
  {
    LevelsAreDepth(ks + [k]);
    DepthAfterKeyword(ks, k);
    LeavesAfter(ks, k);
  }

  lemma KeywordOutcome(c: Checker, line: Line, k: Keyword)
    requires IsEffective(c, line) && line.keyword == Some(k)
    ensures !IsCloser(k) || k == EndIf ==>
              CheckLine(c, line) ==
              Finish(Checker(Apply(c.levels, k), UpdatePrefixes(c.prefixes, line.keyword, line.name), 0),
                     |Apply(c.levels, k)| - (if IsCloser(k) then 0 else 1), line.indent, line.wrapped)
    ensures Closes(k) ==>
              var closed := ClosePrefix(Apply(c.levels, k), UpdatePrefixes(c.prefixes, line.keyword, line.name));
              CheckLine(c, line) ==
              if closed.error.Some? then Outcome(Checker(Apply(c.levels, k), closed.prefixes, 0), closed.error)
              else Finish(Checker(Apply(c.levels, k), closed.prefixes, 0), |Apply(c.levels, k)|, line.indent, line.wrapped)
  {
  }

  // The complaint about prefixes that a line makes, if it is an endmenu or endchoice.
  function ClosingError(c: Checker, line: Line): Option<Error>
    requires line.Text? && line.keyword.Some?
  {
    var k := line.keyword.value;
    if Closes(k) then ClosePrefix(Apply(c.levels, k), UpdatePrefixes(c.prefixes, line.keyword, line.name)).error else None
  }

  lemma JudgedByLevel(c: Checker, line: Line, k: Keyword)
    requires IsEffective(c, line) && line.keyword == Some(k)
    ensures IsCloser(k) ==> Judged(CheckLine(c, line), line, ClosingError(c, line), 4 * |Apply(c.levels, k)|)
    ensures !IsCloser(k) ==> Judged(CheckLine(c, line), line, None, 4 * (|Apply(c.levels, k)| - 1))
  {
    KeywordOutcome(c, line, k);
  }

  // Every keyword line of a well-nested file.
  lemma KeywordIndentation(lines: seq<Line>, line: Line)
    requires IsEffective(StateAfter(lines), line) && line.keyword.Some?
    requires OpenBlocks(Keywords(lines) + [line.keyword.value]).Some?
    ensures Judged(CheckLine(StateAfter(lines), line), line, ClosingError(StateAfter(lines), line),
                   KeywordIndent(Keywords(lines), line.keyword.value))
  {
    var ks, k := Keywords(lines), line.keyword.value;
    LevelsOfFile(lines);
    AppendKeyword(ks, k);
    KeywordLevel(ks, k);
    JudgedByLevel(StateAfter(lines), line, k);
  }

  // ----- continuations, blank lines and refused lines -----

  // Behind a backslash the next line is accepted at the asked indentation only, and asks
  // for the same again if it ends with a backslash too; its keywords do not count.
  lemma Continuation(c: Checker, line: Line)
    requires line.Text? && c.force > 0 && !InHelp(c, line.indent)
    ensures CheckLine(c, line).error == if line.indent == c.force then None else Some(WrongIndent(c.force))
    ensures CheckLine(c, line).state ==
            c.(force := if line.indent == c.force && !line.wrapped then 0 else c.force)
  {
  }

  // Blank lines and help text are accepted, end a continuation and change nothing else.
  lemma Ignored(c: Checker, line: Line)
    requires line.Blank? || InHelp(c, line.indent)
    ensures CheckLine(c, line) == Outcome(c.(force := 0), None)
  {
  }

  // A config, menuconfig or choice line that ends with a backslash.
  predicate WrapsName(line: Line) {
    line.Text? && line.wrapped
    && (line.keyword == Some(Config) || line.keyword == Some(MenuConfig) || line.keyword == Some(Choice))
  }

  // Which lines are refused before their keyword is looked at; they change nothing.
  lemma RefusedIff(c: Checker, line: Line)
    ensures CheckLine(c, line).error == Some(LineWrap) <==>
            line.Text? && !InHelp(c, line.indent) && c.force == 0 && WrapsName(line)
    ensures CheckLine(c, line).error == Some(NameTooLong) <==>
            && line.Text? && !InHelp(c, line.indent) && c.force == 0 && !WrapsName(line)
            && line.name.Some? && |line.name.value| > 40
    ensures CheckLine(c, line).error == Some(LineWrap) || CheckLine(c, line).error == Some(NameTooLong) ==>
              CheckLine(c, line).state == c
  {
  }

  // ----- the errors about prefixes -----

  // The prefixes of the level that is closed and of the one around it.
  function ParentOf(prefixes: seq<Option<string>>): Option<string> {
    if |prefixes| < 2 then None else prefixes[|prefixes| - 2]
  }

  predicate UnderMenu(levels: seq<Keyword>) {
    levels != [] && (levels[|levels| - 1] == MainMenu || levels[|levels| - 1] == Menu)
  }

  // Exactly when each of the three complaints about prefixes is made.
  lemma ClosingErrorIff(levels: seq<Keyword>, prefixes: seq<Option<string>>, p: string, parent: string)
    ensures ClosePrefix(levels, prefixes).error == Some(EmptyPrefixStack) <==> prefixes == []
    ensures ClosePrefix(levels, prefixes).error == Some(ShortPrefix(p)) <==> TopOf(prefixes) == Some(p) && |p| < 3
    ensures ClosePrefix(levels, prefixes).error == Some(PrefixMismatch(p, parent)) <==>
            && TopOf(prefixes) == Some(p) && |p| >= 3
            && ParentOf(prefixes) == Some(parent) && !(parent <= p) && !UnderMenu(levels)
    ensures ClosePrefix(levels, prefixes).error.Some? ==>
              var e := ClosePrefix(levels, prefixes).error.value;
              e.EmptyPrefixStack? || e.ShortPrefix? || e.PrefixMismatch?
  {
  }

  lemma TracksBelow(prefixes: seq<Option<string>>, received: seq<seq<string>>)
    requires TracksAll(prefixes, received)
    ensures TopOf(prefixes).Some? ==>
              received != [] && IsLongestCommonPrefix(TopOf(prefixes).value, received[|received| - 1])
    ensures ParentOf(prefixes).Some? ==>
              |received| >= 2 && IsLongestCommonPrefix(ParentOf(prefixes).value, received[|received| - 2])
  {
    assert forall i :: 0 <= i < |prefixes| ==> Tracks(prefixes[i], received[i]);
  }

  lemma ClosedShape(levels: seq<Keyword>, open: seq<Keyword>, k: Keyword)
    requires Shape(levels, open) && IsCloser(k) && Nest(open, k).Some?
    ensures Apply(levels, k) == Nest(open, k).value
  {
    CloseShape(levels, open, k);
  }

  lemma ClosedLevels(lines: seq<Line>, k: Keyword)
    requires IsCloser(k) && OpenBlocks(Keywords(lines) + [k]).Some?
    ensures Apply(StateAfter(lines).levels, k) == OpenBlocks(Keywords(lines) + [k]).value
  {
    LevelsOfFile(lines);
    AppendKeyword(Keywords(lines), k);
    LevelsAreOpenBlocks(Keywords(lines));
    ClosedShape(StateAfter(lines).levels, OpenBlocks(Keywords(lines)).value, k);
  }

  predicate Mismatches(prefixes: seq<Option<string>>, around: seq<Keyword>, p: string, parent: string) {
    && TopOf(prefixes) == Some(p) && |p| >= 3
    && ParentOf(prefixes) == Some(parent) && !(parent <= p) && !UnderMenu(around)
  }

  lemma MismatchByLevel(c: Checker, line: Line, k: Keyword, p: string, parent: string)
    requires IsEffective(c, line) && line.name == None && line.keyword == Some(k) && Closes(k)
    ensures CheckLine(c, line).error == Some(PrefixMismatch(p, parent)) <==>
            Mismatches(c.prefixes, Apply(c.levels, k), p, parent)
  {
    JudgedByLevel(c, line, k);
    ClosingErrorIff(Apply(c.levels, k), c.prefixes, p, parent);
  }

  // A mismatch in a well-nested file: an endmenu or endchoice whose block stands directly
  // in an if, a choice or nothing, whose names share at least three characters, and not the
  // common prefix of what the level around it has received.
  lemma MismatchIff(lines: seq<Line>, line: Line, p: string, parent: string)
    requires IsEffective(StateAfter(lines), line) && line.name == None
    requires line.keyword.Some? && Closes(line.keyword.value)
    requires OpenBlocks(Keywords(lines) + [line.keyword.value]).Some?
    ensures CheckLine(StateAfter(lines), line).error == Some(PrefixMismatch(p, parent)) <==>
            Mismatches(StateAfter(lines).prefixes, OpenBlocks(Keywords(lines) + [line.keyword.value]).value, p, parent)
    ensures TopOf(StateAfter(lines).prefixes) == Some(p) ==>
              Received(lines) != [] && IsLongestCommonPrefix(p, Received(lines)[|Received(lines)| - 1])
    ensures ParentOf(StateAfter(lines).prefixes) == Some(parent) ==>
              |Received(lines)| >= 2 && IsLongestCommonPrefix(parent, Received(lines)[|Received(lines)| - 2])
  {
    PrefixesAreLongest(lines);
    TracksBelow(StateAfter(lines).prefixes, Received(lines));
    ClosedLevels(lines, line.keyword.value);
    MismatchByLevel(StateAfter(lines), line, line.keyword.value, p, parent);
  }

  // ----- the end of a file -----

  // Some name stands outside every menu, mainmenu and choice.
  predicate HasOuterName(lines: seq<Line>) {
    lines != [] &&
    var init, line := lines[..|lines| - 1], lines[|lines| - 1];
    || HasOuterName(init)
    || (&& IsEffective(StateAfter(init), line) && line.keyword.Some? && line.name.Some?
        && OpenBlocks(Keywords(init)).Some? && Scopes(OpenBlocks(Keywords(init)).value) == 0)
  }

  predicate AllWellFormed(lines: seq<Line>) {
    forall i :: 0 <= i < |lines| ==> WellFormed(lines[i])
  }

  // Whether the line is the first to bring a name outside of all scopes.
  lemma LineKeepsLevels(c: Checker, open: seq<Keyword>, line: Line, outer: bool)
    requires WellFormed(line) && IsEffective(c, line) && line.keyword.Some? && Nest(open, line.keyword.value).Some?
    requires |c.prefixes| == Scopes(open) + if outer then 1 else 0
    ensures |CheckLine(c, line).state.prefixes| ==
            Scopes(Nest(open, line.keyword.value).value)
            + if outer || (line.name.Some? && Scopes(open) == 0) then 1 else 0
  {
    LevelsAfterLine(c, line);
    ScopesOfNest(open, line.keyword.value);
  }

  // The prefix stack of a well-nested file: one level per open menu, mainmenu and choice,
  // and one more if there is a name outside all of them.
  lemma {:induction false} PrefixLevels(lines: seq<Line>)
    requires OpenBlocks(Keywords(lines)).Some? && AllWellFormed(lines)
    ensures |StateAfter(lines).prefixes| ==
            Scopes(OpenBlocks(Keywords(lines)).value) + if HasOuterName(lines) then 1 else 0
  {
    if lines != [] {
      var init, line := lines[..|lines| - 1], lines[|lines| - 1];
      var c := StateAfter(init);
      assert AllWellFormed(init) && WellFormed(line);
      if IsEffective(c, line) && line.keyword.Some? {
        AppendKeyword(Keywords(init), line.keyword.value);
        PrefixLevels(init);
        LineKeepsLevels(c, OpenBlocks(Keywords(init)).value, line, HasOuterName(init));
      } else {
        assert Keywords(lines) == Keywords(init);
        PrefixLevels(init);
      }
    }
  }

  // What the end of a file reports, by the levels of the prefix stack that are left.
  lemma EofIff(c: Checker)
    ensures CheckEof(c) == NotClosed <==> |c.prefixes| >= 2 && ClosePrefix(c.levels, c.prefixes).error == None
    ensures CheckEof(c).Rejected? <==> c.prefixes != [] && ClosePrefix(c.levels, c.prefixes).error.Some?
    ensures CheckEof(c).Rejected? ==> Some(CheckEof(c).error) == ClosePrefix(c.levels, c.prefixes).error
    ensures CheckEof(c) == Accepted <==>
            c.prefixes == [] || (|c.prefixes| == 1 && (c.prefixes[0] == None || |c.prefixes[0].value| >= 3))
  {
  }

  // A file that is not closed is refused if two of its menus and choices are open, or one
  // and a name stands outside; with one open and no such name it is accepted, unless its
  // names have no common prefix.
  lemma UnclosedIsRefusedIff(lines: seq<Line>)
    requires OpenBlocks(Keywords(lines)).Some? && AllWellFormed(lines)
    requires Scopes(OpenBlocks(Keywords(lines)).value) > 0
    ensures CheckEof(StateAfter(lines)) == Accepted <==>
            && Scopes(OpenBlocks(Keywords(lines)).value) == 1 && !HasOuterName(lines)
            && (TopOf(StateAfter(lines).prefixes) == None || |TopOf(StateAfter(lines).prefixes).value| >= 3)
  {
    PrefixLevels(lines);
    EofIff(StateAfter(lines));
  }

  // A menu that is never closed, and nothing is reported.
  lemma UnclosedMenuIsAccepted()
    ensures var lines := [Text(0, Some(Menu), None, false)];
            && OpenBlocks(Keywords(lines)) == Some([Menu])
            && CheckLine(START, lines[0]).error == None
            && CheckEof(StateAfter(lines)) == Accepted
  {
    var line := Text(0, Some(Menu), None, false);
    var lines := [line];
    assert lines[..0] == [];
    assert StateAfter([]) == START && Keywords([]) == [];
    assert IsEffective(START, line);
    assert Keywords(lines) == [] + [Menu];
    AppendKeyword([], Menu);
    assert [] + [Menu] == [Menu] && OpenBlocks([Menu]) == Some([Menu]);
    assert StateAfter(lines) == CheckLine(START, line).state;
    assert Unwind([]) == [];
    assert StateAfter(lines).prefixes == [None];
    EofIff(StateAfter(lines));
  }
}
