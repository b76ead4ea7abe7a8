/** The Kconfig style checker (check_kconfigs.py, `IndentAndNameChecker`): a stack of
    open menu items gives the indentation each line must have, and a stack of common
    prefixes checks the names of each menu and choice. Lines come tokenised. */
module KconfigChecker {
  import opened Options

  datatype Keyword =
    | Menu | MainMenu | Choice | Config | MenuConfig | Help | If | Source
    | EndMenu | EndChoice | EndIf

  // `name` is the symbol of a config, menuconfig or choice line; `wrapped` says that
  // the line ends with a backslash.
  datatype Line = Blank | Text(indent: nat, keyword: Option<Keyword>, name: Option<string>, wrapped: bool)

  datatype Error =
    | WrongIndent(expected: nat) | LineWrap | NameTooLong
    | ShortPrefix(prefix: string) | PrefixMismatch(prefix: string, parent: string)
    | EmptyPrefixStack

  const SPACES_PER_INDENT: nat := 4
  const NAME_MAX_LENGTH: nat := 40
  const MIN_PREFIX_LENGTH: nat := 3

  datatype Checker = Checker(levels: seq<Keyword>, prefixes: seq<Option<string>>, force: nat)
  datatype Outcome = Outcome(state: Checker, error: Option<Error>)

  predicate IsCloser(k: Keyword) { k == EndMenu || k == EndChoice || k == EndIf }

  // Items other items are indented under until they are closed.
  predicate IsBlock(k: Keyword) { k == Menu || k == MainMenu || k == Choice || k == If }

  // Items that are indented relative to the innermost open block.
  predicate IsEntry(k: Keyword) {
    k == Config || k == MenuConfig || k == Menu || k == Choice || k == If || k == Source
  }

  predicate IsNamed(k: Keyword) { k == Config || k == MenuConfig || k == Choice }

  // Items that start a new level of common prefixes.
  predicate IsScope(k: Keyword) { k == Menu || k == MainMenu || k == Choice }

  function Opener(k: Keyword): Keyword
    requires IsCloser(k)
  {
    match k case EndMenu => Menu case EndChoice => Choice case EndIf => If
  }

  // ----- the level stack -----

  // Delete items from the end until an open block.
  function Unwind(levels: seq<Keyword>): seq<Keyword> {
    if levels == [] || IsBlock(levels[|levels| - 1]) then levels else Unwind(levels[..|levels| - 1])
  }

  function Increase(levels: seq<Keyword>, k: Keyword): seq<Keyword> {
    (if IsEntry(k) then Unwind(levels) else levels) + [k]
  }

  // Where the last `k` stands, or the length of the stack.
  function LastIndex(levels: seq<Keyword>, k: Keyword): (i: nat)
    ensures i <= |levels|
    ensures i < |levels| ==> levels[i] == k && k !in levels[i + 1..]
    ensures i == |levels| ==> k !in levels
  {
    if levels == [] then 0
    else if levels[|levels| - 1] == k then |levels| - 1
    else
      var i := LastIndex(levels[..|levels| - 1], k);
      if i == |levels| - 1 then |levels| else i
  }

  function Decrease(levels: seq<Keyword>, k: Keyword): seq<Keyword>
    requires IsCloser(k)
  {
    levels[..LastIndex(levels, Opener(k))]
  }

  // ----- the prefix stack -----

  // `os.path.commonprefix` of two strings.
  function CommonPrefix(a: string, b: string): (p: string)
    ensures p <= a && p <= b
  {
    if a != "" && b != "" && a[0] == b[0] then [a[0]] + CommonPrefix(a[1..], b[1..]) else ""
  }

  function AddName(prefixes: seq<Option<string>>, name: string): seq<Option<string>> {
    if prefixes == [] then [Some(name)]
    else
      var top := |prefixes| - 1;
      prefixes[top := match prefixes[top]
                      case None => Some(name)
                      case Some(p) => Some(CommonPrefix(p, name))]
  }

  function UpdatePrefixes(prefixes: seq<Option<string>>, k: Option<Keyword>, name: Option<string>)
    : seq<Option<string>>
  {
    var named := if name.Some? then AddName(prefixes, name.value) else prefixes;
    if k.Some? && IsScope(k.value) then named + [None] else named
  }

  datatype Closed = Closed(prefixes: seq<Option<string>>, error: Option<Error>)

  function ClosePrefix(levels: seq<Keyword>, prefixes: seq<Option<string>>): Closed {
    if prefixes == [] then Closed(prefixes, Some(EmptyPrefixStack))
    else
      var rest := prefixes[..|prefixes| - 1];
      match prefixes[|prefixes| - 1]
      case None => Closed(rest, None)
      case Some(p) =>
        if |p| < MIN_PREFIX_LENGTH then Closed(rest, Some(ShortPrefix(p)))
        else if rest == [] then Closed(rest, None)
        else
          match rest[|rest| - 1]
          case None => Closed(rest[|rest| - 1 := Some(p)], None)
          case Some(parent) =>
            if levels != [] && (levels[|levels| - 1] == MainMenu || levels[|levels| - 1] == Menu)
            then Closed(rest, None)
            else if parent <= p then Closed(rest, None)
            else Closed(rest, Some(PrefixMismatch(p, parent)))
  }

  // ----- one line -----

  predicate InHelp(c: Checker, indent: nat) {
    && c.levels != [] && c.levels[|c.levels| - 1] == Help
    && indent >= |c.levels| * SPACES_PER_INDENT
  }

  function Finish(c: Checker, level: nat, indent: nat, wrapped: bool): Outcome {
    var expected := level * SPACES_PER_INDENT;
    Outcome(c.(force := if wrapped then expected + SPACES_PER_INDENT else 0),
            if indent != expected then Some(WrongIndent(expected)) else None)
  }

  // The line reaches the keyword handling: it is not help text, a continuation or refused before.
  predicate IsEffective(c: Checker, line: Line) {
    && line.Text? && !InHelp(c, line.indent) && c.force == 0
    && !(line.wrapped && line.keyword.Some? && IsNamed(line.keyword.value))
    && !(line.name.Some? && |line.name.value| > NAME_MAX_LENGTH)
  }

  function CheckKeyword(c: Checker, line: Line): Outcome
    requires line.Text?
  {
    match line.keyword
    case None => Finish(c, |c.levels|, line.indent, line.wrapped)
    case Some(k) =>
      if !IsCloser(k) then
        var levels := Increase(c.levels, k);
        Finish(c.(levels := levels), |levels| - 1, line.indent, line.wrapped)
      else
        var levels := Decrease(c.levels, k);
        var closed := if k == EndIf then Closed(c.prefixes, None) else ClosePrefix(levels, c.prefixes);
        var after := c.(levels := levels, prefixes := closed.prefixes);
        if closed.error.Some? then Outcome(after, closed.error)
        else Finish(after, |levels|, line.indent, line.wrapped)
  }

  function CheckLine(c: Checker, line: Line): Outcome {
    match line
    case Blank => Outcome(c.(force := 0), None)
    case Text(indent, keyword, name, wrapped) =>
      if InHelp(c, indent) then Outcome(c.(force := 0), None)
      else if c.force > 0 then
        if indent != c.force then Outcome(c, Some(WrongIndent(c.force)))
        else Outcome(if wrapped then c else c.(force := 0), None)
      else if wrapped && keyword.Some? && IsNamed(keyword.value) then Outcome(c, Some(LineWrap))
      else if name.Some? && |name.value| > NAME_MAX_LENGTH then Outcome(c, Some(NameTooLong))
      else CheckKeyword(c.(prefixes := UpdatePrefixes(c.prefixes, keyword, name)), line)
  }

  // At the end of the file one level may be left; more than one is a structural error.
  datatype AtEof = Accepted | Rejected(error: Error) | NotClosed

  function CheckEof(c: Checker): AtEof {
    if c.prefixes == [] then Accepted
    else
      var closed := ClosePrefix(c.levels, c.prefixes);
      if closed.error.Some? then Rejected(closed.error.value)
      else if closed.prefixes != [] then NotClosed
      else Accepted
  }

  // ----- the checker -----

  lemma {:induction false} UnwindKeepsPrefix(levels: seq<Keyword>, i: nat)
    requires i <= |levels| && forall k :: i <= k < |levels| ==> !IsBlock(levels[k])
    ensures Unwind(levels) == Unwind(levels[..i])
    decreases |levels| - i
  {
    if i < |levels| {
      UnwindKeepsPrefix(levels[..|levels| - 1], i);
      assert levels[..|levels| - 1][..i] == levels[..i];
    } else {
      assert levels[..i] == levels;
    }
  }

  lemma {:induction false} LastIndexIs(levels: seq<Keyword>, k: Keyword, i: nat)
    requires i < |levels| && levels[i] == k && forall j :: i < j < |levels| ==> levels[j] != k
    ensures LastIndex(levels, k) == i
    decreases |levels|
  {
  }

  class IndentAndNameChecker {
    var levelStack: seq<Keyword>
    var prefixStack: seq<Option<string>>
    var forceNextIndent: nat

    ghost function State(): Checker
      reads this
    {
      Checker(levelStack, prefixStack, forceNextIndent)
    }

    constructor ()
      ensures State() == Checker([], [], 0)
    {
      levelStack, prefixStack, forceNextIndent := [], [], 0;
    }

    method UpdateLevelForIncPattern(k: Keyword) returns (level: nat)
      modifies this`levelStack
      ensures levelStack == Increase(old(levelStack), k)
      ensures level == |levelStack| - 1
    {
      if IsEntry(k) {
        var i := |levelStack|;
        while i > 0 && !IsBlock(levelStack[i - 1])
          invariant 0 <= i <= |levelStack|
          invariant forall j :: i <= j < |levelStack| ==> !IsBlock(levelStack[j])
        {
          i := i - 1;
        }
        UnwindKeepsPrefix(levelStack, i);
        assert Unwind(levelStack[..i]) == levelStack[..i];
        levelStack := levelStack[..i];
      }
      levelStack := levelStack + [k];
      level := |levelStack| - 1;
    }

    method UpdateLevelForDecPattern(k: Keyword) returns (level: nat)
      requires IsCloser(k)
      modifies this`levelStack
      ensures levelStack == Decrease(old(levelStack), k)
      ensures level == |levelStack|
    {
      var target := Opener(k);
      var i := |levelStack|;
      while i > 0 && levelStack[i - 1] != target
        invariant 0 <= i <= |levelStack|
        invariant forall j :: i <= j < |levelStack| ==> levelStack[j] != target
      {
        i := i - 1;
      }
      if i > 0 {
        LastIndexIs(levelStack, target, i - 1);
        levelStack := levelStack[..i - 1];
      }
      level := |levelStack|;
    }

    method CheckNameAndUpdatePrefix(keyword: Option<Keyword>, name: Option<string>) returns (tooLong: bool)
      modifies this`prefixStack
      ensures tooLong == (name.Some? && |name.value| > NAME_MAX_LENGTH)
      ensures prefixStack == if tooLong then old(prefixStack) else UpdatePrefixes(old(prefixStack), keyword, name)
    {
      tooLong := false;
      if name.Some? {
        if |name.value| > NAME_MAX_LENGTH {
          return true;
        }
        var top := |prefixStack| - 1;
        if |prefixStack| == 0 {
          prefixStack := prefixStack + [Some(name.value)];
        } else if prefixStack[top] == None {
          prefixStack := prefixStack[top := Some(name.value)];
        } else {
          prefixStack := prefixStack[top := Some(CommonPrefix(prefixStack[top].value, name.value))];
        }
      }
      if keyword.Some? && IsScope(keyword.value) {
        prefixStack := prefixStack + [None];
      }
    }

    method CheckCommonPrefix() returns (error: Option<Error>)
      modifies this`prefixStack
      ensures Closed(prefixStack, error) == ClosePrefix(levelStack, old(prefixStack))
    {
      if |prefixStack| == 0 {
        return Some(EmptyPrefixStack);
      }
      var commonPrefix := prefixStack[|prefixStack| - 1];
      prefixStack := prefixStack[..|prefixStack| - 1];
      if commonPrefix == None {
        return None;
      }
      if |commonPrefix.value| < MIN_PREFIX_LENGTH {
        return Some(ShortPrefix(commonPrefix.value));
      }
      if |prefixStack| > 0 {
        var top := |prefixStack| - 1;
        if prefixStack[top] == None {
          prefixStack := prefixStack[top := commonPrefix];
        } else {
          if |levelStack| > 0 && levelStack[|levelStack| - 1] in [MainMenu, Menu] {
            return None;
          }
          if !(prefixStack[top].value <= commonPrefix.value) {
            return Some(PrefixMismatch(commonPrefix.value, prefixStack[top].value));
          }
        }
      }
      return None;
    }

    // The end of process_line: keyword, expected indentation, wrapping.
    method ProcessKeyword(line: Line) returns (error: Option<Error>)
      requires line.Text?
      modifies this
      ensures Outcome(State(), error) == CheckKeyword(old(State()), line)
    {
      var level := |levelStack|;
      if line.keyword.Some? {
        if IsCloser(line.keyword.value) {
          level := UpdateLevelForDecPattern(line.keyword.value);
          if line.keyword.value != EndIf {
            error := CheckCommonPrefix();
            if error.Some? {
              return error;
            }
          }
        } else {
          level := UpdateLevelForIncPattern(line.keyword.value);
        }
      }
      var expected := level * SPACES_PER_INDENT;
      forceNextIndent := if line.wrapped then expected + SPACES_PER_INDENT else 0;
      error := if line.indent != expected then Some(WrongIndent(expected)) else None;
    }

    method ProcessLine(line: Line) returns (error: Option<Error>)
      modifies this
      ensures Outcome(State(), error) == CheckLine(old(State()), line)
    {
      if line == Blank {
        forceNextIndent := 0;
        return None;
      }
      var level := |levelStack|;
      if level > 0 && levelStack[level - 1] == Help {
        if line.indent >= level * SPACES_PER_INDENT {
          forceNextIndent := 0;
          return None;
        }
      }
      if forceNextIndent > 0 {
        if line.indent != forceNextIndent {
          return Some(WrongIndent(forceNextIndent));
        }
        if !line.wrapped {
          forceNextIndent := 0;
        }
        return None;
      } else if line.wrapped && line.keyword.Some? && IsNamed(line.keyword.value) {
        return Some(LineWrap);
      }
      var tooLong := CheckNameAndUpdatePrefix(line.keyword, line.name);
      if tooLong {
        return Some(NameTooLong);
      }
      error := ProcessKeyword(line);
    }

    // __exit__
    method Exit() returns (r: AtEof)
      modifies this`prefixStack
      ensures r == CheckEof(old(State()))
    {
      if |prefixStack| > 0 {
        var error := CheckCommonPrefix();
        if error.Some? {
          return Rejected(error.value);
        }
      }
      return if |prefixStack| != 0 then NotClosed else Accepted;
    }
  }
}
