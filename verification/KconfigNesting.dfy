/** What the level stack of the Kconfig checker holds over whole files: the list of open
    blocks, which gives the indentation every entry and closer must have. */
module KconfigNesting {
  import opened Options
  import opened KconfigChecker

  // ----- reference: the blocks a keyword sequence leaves open -----

  // Each closer has its own opener.
  predicate Matches(opener: Keyword, closer: Keyword) {
    (opener == Menu && closer == EndMenu) || (opener == Choice && closer == EndChoice) || (opener == If && closer == EndIf)
  }

  function Nest(open: seq<Keyword>, k: Keyword): Option<seq<Keyword>> {
    match k
    case Menu => Some(open + [k])
    case MainMenu => Some(open + [k])
    case Choice => Some(open + [k])
    case If => Some(open + [k])
    case EndMenu => NestCloser(open, k)
    case EndChoice => NestCloser(open, k)
    case EndIf => NestCloser(open, k)
    case _ => Some(open)
  }

  function NestCloser(open: seq<Keyword>, k: Keyword): Option<seq<Keyword>> {
    if open != [] && Matches(open[|open| - 1], k) then Some(open[..|open| - 1]) else None
  }

  // None when the sequence is not well nested; mainmenu may only come first.
  function OpenBlocks(ks: seq<Keyword>): Option<seq<Keyword>> {
    if ks == [] then Some([])
    else
      var k := ks[|ks| - 1];
      match OpenBlocks(ks[..|ks| - 1])
      case None => None
      case Some(open) => if k == MainMenu && |ks| > 1 then None else Nest(open, k)
  }

  // ----- the level stack after a keyword sequence -----

  function Apply(levels: seq<Keyword>, k: Keyword): seq<Keyword> {
    if IsCloser(k) then Decrease(levels, k) else Increase(levels, k)
  }

  function LevelsAfter(ks: seq<Keyword>): seq<Keyword> {
    if ks == [] then [] else Apply(LevelsAfter(ks[..|ks| - 1]), ks[|ks| - 1])
  }

  predicate IsLeaf(k: Keyword) {
    k == Config || k == MenuConfig || k == Source || k == Help
  }

  // The open blocks, followed only by leaves.
  predicate Shape(levels: seq<Keyword>, open: seq<Keyword>) {
    && open <= levels
    && (forall i :: 0 <= i < |open| ==> IsBlock(open[i]))
    && (forall i :: |open| <= i < |levels| ==> IsLeaf(levels[i]))
  }

  // Whatever the stack holds, it is cut behind its last block.
  lemma {:induction false} UnwindKeepsLastBlock(levels: seq<Keyword>)
    ensures Unwind(levels) <= levels && (Unwind(levels) == [] || IsBlock(Unwind(levels)[|Unwind(levels)| - 1]))
    ensures forall i :: |Unwind(levels)| <= i < |levels| ==> !IsBlock(levels[i])
  {
    if levels != [] && !IsBlock(levels[|levels| - 1]) {
      UnwindKeepsLastBlock(levels[..|levels| - 1]);
    }
  }

  lemma UnwindShape(levels: seq<Keyword>, open: seq<Keyword>)
    requires Shape(levels, open)
    ensures Unwind(levels) == open
  {
  }

  lemma CloseShape(levels: seq<Keyword>, open: seq<Keyword>, k: Keyword)
    requires Shape(levels, open) && IsCloser(k) && open != [] && open[|open| - 1] == Opener(k)
    ensures Decrease(levels, k) == open[..|open| - 1]
  {
  }

  lemma ApplyKeepsShape(levels: seq<Keyword>, open: seq<Keyword>, k: Keyword)
    requires Shape(levels, open) && Nest(open, k).Some? && (k == MainMenu ==> levels == open)
    ensures Shape(Apply(levels, k), Nest(open, k).value)
  {
    if IsCloser(k) {
      CloseShape(levels, open, k);
    } else if IsEntry(k) {
      UnwindShape(levels, open);
    }
  }

  // For every well-nested sequence the level stack is the list of open blocks followed
  // only by config, menuconfig, source and help.
  lemma {:induction false} LevelsAreOpenBlocks(ks: seq<Keyword>)
    requires OpenBlocks(ks).Some?
    ensures Shape(LevelsAfter(ks), OpenBlocks(ks).value)
  {
    if ks != [] {
      var init := ks[..|ks| - 1];
      LevelsAreOpenBlocks(init);
      ApplyKeepsShape(LevelsAfter(init), OpenBlocks(init).value, ks[|ks| - 1]);
    }
  }

  // The indentation level the checker expects of the last keyword.
  function ExpectedLevel(ks: seq<Keyword>): int
    requires ks != []
  {
    if IsCloser(ks[|ks| - 1]) then |LevelsAfter(ks)| else |LevelsAfter(ks)| - 1
  }

  // An entry belongs one level per open block; a closer where its block was opened.
  lemma ExpectedLevelIsDepth(ks: seq<Keyword>)
    requires ks != [] && OpenBlocks(ks).Some?
    ensures OpenBlocks(ks[..|ks| - 1]).Some?
    ensures IsEntry(ks[|ks| - 1]) ==> ExpectedLevel(ks) == |OpenBlocks(ks[..|ks| - 1]).value|
    ensures IsCloser(ks[|ks| - 1]) ==> ExpectedLevel(ks) == |OpenBlocks(ks).value|
  {
    var init, k := ks[..|ks| - 1], ks[|ks| - 1];
    LevelsAreOpenBlocks(init);
    var levels, open := LevelsAfter(init), OpenBlocks(init).value;
    if IsCloser(k) {
      CloseShape(levels, open, k);
    } else if IsEntry(k) {
      UnwindShape(levels, open);
    }
  }

  lemma DepthAfter(ks: seq<Keyword>, k: Keyword)
    requires OpenBlocks(ks + [k]).Some?
    ensures OpenBlocks(ks).Some?
    ensures IsEntry(k) ==> |LevelsAfter(ks + [k])| - 1 == |OpenBlocks(ks).value|
    ensures IsCloser(k) ==> |LevelsAfter(ks + [k])| == |OpenBlocks(ks + [k]).value|
  {
    assert (ks + [k])[..|ks|] == ks;
    ExpectedLevelIsDepth(ks + [k]);
  }

  // A closer undoes the opener in front of it.
  lemma CloseUndoesOpen(open: seq<Keyword>, opener: Keyword, closer: Keyword)
    requires IsEntry(opener) && IsBlock(opener) && IsCloser(closer)
    requires Nest(open, opener).Some? && Nest(Nest(open, opener).value, closer).Some?
    ensures Matches(opener, closer) && Nest(Nest(open, opener).value, closer).value == open
  {
  }

  // A balanced stretch between an opener and the closer that ends its block: the two
  // lines are expected at the same level.
  lemma CloserMatchesOpener(before: seq<Keyword>, opener: Keyword, between: seq<Keyword>, closer: Keyword)
    requires IsEntry(opener) && IsBlock(opener) && IsCloser(closer)
    requires OpenBlocks(before + [opener]).Some?
    requires OpenBlocks(before + [opener] + between) == OpenBlocks(before + [opener])
    requires OpenBlocks(before + [opener] + between + [closer]).Some?
    ensures Matches(opener, closer)
    ensures ExpectedLevel(before + [opener] + between + [closer]) == ExpectedLevel(before + [opener])
  {
    var p := before + [opener];
    var q := p + between;
    AppendKeyword(before, opener);
    AppendKeyword(q, closer);
    CloseUndoesOpen(OpenBlocks(before).value, opener, closer);
    DepthAfter(before, opener);
    DepthAfter(q, closer);
    LevelOfLast(q, closer);
    LevelOfLast(before, opener);
  }

  lemma LevelOfLast(ks: seq<Keyword>, k: Keyword)
    ensures ExpectedLevel(ks + [k]) == |LevelsAfter(ks + [k])| - if IsCloser(k) then 0 else 1
  {
  }

  // ----- whole files -----

  const START: Checker := Checker([], [], 0)

  function StateAfter(lines: seq<Line>): Checker {
    if lines == [] then START else CheckLine(StateAfter(lines[..|lines| - 1]), lines[|lines| - 1]).state
  }

  // The keywords that reach the keyword handling.
  function Keywords(lines: seq<Line>): seq<Keyword> {
    if lines == [] then []
    else
      var init, line := lines[..|lines| - 1], lines[|lines| - 1];
      Keywords(init) +
      (if IsEffective(StateAfter(init), line) && line.keyword.Some? then [line.keyword.value] else [])
  }

  lemma AppendKeyword(ks: seq<Keyword>, k: Keyword)
    ensures LevelsAfter(ks + [k]) == Apply(LevelsAfter(ks), k)
    ensures OpenBlocks(ks + [k]) ==
            if OpenBlocks(ks).None? || (k == MainMenu && ks != []) then None else Nest(OpenBlocks(ks).value, k)
  {
  }

  lemma {:induction false} LevelsOfFile(lines: seq<Line>)
    ensures StateAfter(lines).levels == LevelsAfter(Keywords(lines))
  {
    if lines != [] {
      var init, line := lines[..|lines| - 1], lines[|lines| - 1];
      LevelsOfFile(init);
      if IsEffective(StateAfter(init), line) && line.keyword.Some? {
        AppendKeyword(Keywords(init), line.keyword.value);
      } else {
        assert Keywords(lines) == Keywords(init);
      }
    }
  }

  lemma LineIndentation(c: Checker, line: Line)
    requires IsEffective(c, line) && line.keyword.Some?
    ensures !IsCloser(line.keyword.value) ==>
              (CheckLine(c, line).error == None <==> line.indent == 4 * (|Apply(c.levels, line.keyword.value)| - 1))
    ensures IsCloser(line.keyword.value) && CheckLine(c, line).error == None ==>
              line.indent == 4 * |Apply(c.levels, line.keyword.value)|
  {
  }

  // A keyword line of a file is accepted at exactly one indentation: four spaces per open
  // block for an entry, the indentation of the opener for a closer.
  lemma AcceptedIndentation(lines: seq<Line>, line: Line)
    requires IsEffective(StateAfter(lines), line) && line.keyword.Some?
    requires OpenBlocks(Keywords(lines) + [line.keyword.value]).Some?
    ensures OpenBlocks(Keywords(lines)).Some?
    ensures IsEntry(line.keyword.value) ==>
              (CheckLine(StateAfter(lines), line).error == None
               <==> line.indent == 4 * |OpenBlocks(Keywords(lines)).value|)
    ensures IsCloser(line.keyword.value) && CheckLine(StateAfter(lines), line).error == None ==>
              line.indent == 4 * |OpenBlocks(Keywords(lines) + [line.keyword.value]).value|
  {
    var ks, k := Keywords(lines), line.keyword.value;
    LevelsOfFile(lines);
    AppendKeyword(ks, k);
    DepthAfter(ks, k);
    LineIndentation(StateAfter(lines), line);
  }
}
