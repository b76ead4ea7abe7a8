/** What the prefix stack of the Kconfig checker holds over whole files, and how it
    stays in step with the open blocks. */
module KconfigPrefixes {
  import opened Options
  import opened KconfigChecker
  import opened KconfigNesting

  // ----- reference: the longest common prefix of a collection -----

  ghost predicate PrefixOfAll(p: string, xs: seq<string>) {
    forall i :: 0 <= i < |xs| ==> p <= xs[i]
  }

  ghost predicate IsLongestCommonPrefix(p: string, xs: seq<string>) {
    PrefixOfAll(p, xs) && forall q :: PrefixOfAll(q, xs) ==> q <= p
  }

  lemma {:induction false} CommonPrefixIsLongest(a: string, b: string, q: string)
    requires q <= a && q <= b
    ensures q <= CommonPrefix(a, b)
  {
    if q != "" {
      CommonPrefixIsLongest(a[1..], b[1..], q[1..]);
      assert q == [a[0]] + q[1..];
    }
  }

  lemma AntisymmetricPrefix(p: string, q: string)
    requires p <= q && q <= p
    ensures p == q
  {
  }

  // It depends on which strings there are, not on their order or number.
  lemma LongestCommonPrefixIsUnique(p: string, xs: seq<string>, q: string, ys: seq<string>)
    requires IsLongestCommonPrefix(p, xs) && IsLongestCommonPrefix(q, ys)
    requires forall x :: x in xs <==> x in ys
    ensures p == q
  {
    assert PrefixOfAll(p, ys) by {
      forall i | 0 <= i < |ys| ensures p <= ys[i] {
        assert ys[i] in xs;
      }
    }
    assert PrefixOfAll(q, xs) by {
      forall i | 0 <= i < |xs| ensures q <= xs[i] {
        assert xs[i] in ys;
      }
    }
    AntisymmetricPrefix(p, q);
  }

  lemma SingleIsLongest(x: string)
    ensures IsLongestCommonPrefix(x, [x])
  {
    forall q | PrefixOfAll(q, [x]) ensures q <= x {
      assert q <= [x][0];
    }
  }

  lemma AddingKeepsLongest(p: string, xs: seq<string>, x: string)
    requires IsLongestCommonPrefix(p, xs)
    ensures IsLongestCommonPrefix(CommonPrefix(p, x), xs + [x])
  {
    var r, ys := CommonPrefix(p, x), xs + [x];
    assert PrefixOfAll(r, ys);
    forall q | PrefixOfAll(q, ys) ensures q <= r {
      assert q <= ys[|xs|];
      assert PrefixOfAll(q, xs) by {
        forall i | 0 <= i < |xs| ensures q <= xs[i] {
          assert q <= ys[i];
        }
      }
      CommonPrefixIsLongest(p, x, q);
    }
  }

  // ----- what each level has received -----

  // A level's entry is the longest common prefix of what it received; no entry, nothing received.
  ghost predicate Tracks(p: Option<string>, xs: seq<string>) {
    match p
    case None => xs == []
    case Some(q) => xs != [] && IsLongestCommonPrefix(q, xs)
  }

  ghost predicate TracksAll(prefixes: seq<Option<string>>, received: seq<seq<string>>) {
    |prefixes| == |received| && forall i :: 0 <= i < |prefixes| ==> Tracks(prefixes[i], received[i])
  }

  function ReceiveName(received: seq<seq<string>>, name: string): seq<seq<string>> {
    if received == [] then [[name]]
    else received[|received| - 1 := received[|received| - 1] + [name]]
  }

  function ReceiveLine(received: seq<seq<string>>, k: Option<Keyword>, name: Option<string>): seq<seq<string>> {
    var named := if name.Some? then ReceiveName(received, name.value) else received;
    if k == Some(Menu) || k == Some(MainMenu) || k == Some(Choice) then named + [[]] else named
  }

  // Closing a level hands its prefix to an empty parent, if it is long enough.
  function ReceiveClose(received: seq<seq<string>>, closed: Option<string>): seq<seq<string>> {
    if received == [] then received
    else
      var rest := received[..|received| - 1];
      if closed.Some? && |closed.value| >= MIN_PREFIX_LENGTH && rest != [] && rest[|rest| - 1] == []
      then rest[|rest| - 1 := [closed.value]]
      else rest
  }

  lemma NameKeepsTracks(prefixes: seq<Option<string>>, received: seq<seq<string>>, name: string)
    requires TracksAll(prefixes, received)
    ensures TracksAll(AddName(prefixes, name), ReceiveName(received, name))
  {
    SingleIsLongest(name);
    if prefixes != [] {
      var top := |prefixes| - 1;
      assert Tracks(prefixes[top], received[top]);
      if prefixes[top].Some? {
        AddingKeepsLongest(prefixes[top].value, received[top], name);
      } else {
        assert received[top] + [name] == [name];
      }
    }
  }

  lemma LineKeepsTracks(
    prefixes: seq<Option<string>>, received: seq<seq<string>>, k: Option<Keyword>, name: Option<string>)
    requires TracksAll(prefixes, received)
    ensures TracksAll(UpdatePrefixes(prefixes, k, name), ReceiveLine(received, k, name))
  {
    if name.Some? {
      NameKeepsTracks(prefixes, received, name.value);
    }
  }

  function TopOf(prefixes: seq<Option<string>>): Option<string> {
    if prefixes == [] then None else prefixes[|prefixes| - 1]
  }

  lemma CloseKeepsTracks(levels: seq<Keyword>, prefixes: seq<Option<string>>, received: seq<seq<string>>)
    requires TracksAll(prefixes, received)
    ensures TracksAll(ClosePrefix(levels, prefixes).prefixes, ReceiveClose(received, TopOf(prefixes)))
  {
    if |prefixes| > 1 {
      var parent := |prefixes| - 2;
      assert Tracks(prefixes[parent], received[parent]);
      if prefixes[|prefixes| - 1].Some? {
        SingleIsLongest(prefixes[|prefixes| - 1].value);
      }
    }
  }

  // ----- whole files -----

  function ReceiveAll(c: Checker, received: seq<seq<string>>, line: Line): seq<seq<string>>
    requires line.Text?
  {
    var named := ReceiveLine(received, line.keyword, line.name);
    if line.keyword == Some(EndMenu) || line.keyword == Some(EndChoice)
    then ReceiveClose(named, TopOf(UpdatePrefixes(c.prefixes, line.keyword, line.name)))
    else named
  }

  // The strings every level still open has received, over a whole file.
  function Received(lines: seq<Line>): seq<seq<string>> {
    if lines == [] then []
    else
      var init, line := lines[..|lines| - 1], lines[|lines| - 1];
      var c := StateAfter(init);
      if IsEffective(c, line) then ReceiveAll(c, Received(init), line) else Received(init)
  }

  lemma LineTracks(c: Checker, received: seq<seq<string>>, line: Line)
    requires TracksAll(c.prefixes, received)
    ensures TracksAll(CheckLine(c, line).state.prefixes,
                      if IsEffective(c, line) then ReceiveAll(c, received, line) else received)
  {
    if IsEffective(c, line) {
      LineKeepsTracks(c.prefixes, received, line.keyword, line.name);
      if line.keyword == Some(EndMenu) || line.keyword == Some(EndChoice) {
        var prefixes := UpdatePrefixes(c.prefixes, line.keyword, line.name);
        CloseKeepsTracks(Decrease(c.levels, line.keyword.value), prefixes,
                         ReceiveLine(received, line.keyword, line.name));
      }
    }
  }

  // In every file, accepted or not, every entry of the prefix stack is the longest common
  // prefix of all strings its level has received.
  lemma {:induction false} PrefixesAreLongest(lines: seq<Line>)
    ensures TracksAll(StateAfter(lines).prefixes, Received(lines))
  {
    if lines != [] {
      var init := lines[..|lines| - 1];
      PrefixesAreLongest(init);
      LineTracks(StateAfter(init), Received(init), lines[|lines| - 1]);
    }
  }

  lemma AcceptedCloseIsLong(c: Checker, line: Line)
    requires IsEffective(c, line) && line.name == None
    requires line.keyword == Some(EndMenu) || line.keyword == Some(EndChoice)
    requires CheckLine(c, line).error == None
    ensures c.prefixes != []
    ensures TopOf(c.prefixes).Some? ==> |TopOf(c.prefixes).value| >= MIN_PREFIX_LENGTH
  {
  }

  // An accepted endmenu or endchoice of a level that received anything: all of it shares
  // at least three leading characters.
  lemma AcceptedCloseSharesPrefix(lines: seq<Line>, line: Line)
    requires IsEffective(StateAfter(lines), line) && line.name == None
    requires line.keyword == Some(EndMenu) || line.keyword == Some(EndChoice)
    requires CheckLine(StateAfter(lines), line).error == None
    requires Received(lines) != [] && Received(lines)[|Received(lines)| - 1] != []
    ensures exists p :: |p| >= MIN_PREFIX_LENGTH && IsLongestCommonPrefix(p, Received(lines)[|Received(lines)| - 1])
  {
    var prefixes, received := StateAfter(lines).prefixes, Received(lines);
    PrefixesAreLongest(lines);
    TopTracks(prefixes, received);
    AcceptedCloseIsLong(StateAfter(lines), line);
    assert |TopOf(prefixes).value| >= MIN_PREFIX_LENGTH
        && IsLongestCommonPrefix(TopOf(prefixes).value, received[|received| - 1]);
  }

  lemma TopTracks(prefixes: seq<Option<string>>, received: seq<seq<string>>)
    requires TracksAll(prefixes, received) && received != [] && received[|received| - 1] != []
    ensures TopOf(prefixes).Some? && IsLongestCommonPrefix(TopOf(prefixes).value, received[|received| - 1])
  {
  }

  // ----- the two stacks stay in step -----

  function Scopes(open: seq<Keyword>): nat {
    if open == [] then 0 else Scopes(open[..|open| - 1]) + (if open[|open| - 1] in {Menu, MainMenu, Choice} then 1 else 0)
  }

  // Only config, menuconfig and choice lines carry a name.
  predicate WellFormed(line: Line) {
    line.Text? && line.name.Some? ==> line.keyword.Some? && IsNamed(line.keyword.value)
  }

  // One prefix level per open menu, mainmenu and choice; plus one for names outside
  // any of them, which cannot occur under a mainmenu.
  predicate InStep(prefixes: seq<Option<string>>, open: seq<Keyword>) {
    && Scopes(open) <= |prefixes| <= Scopes(open) + 1
    && (open != [] && open[0] == MainMenu ==> |prefixes| == Scopes(open))
  }

  lemma ScopesOfPush(open: seq<Keyword>, k: Keyword)
    ensures Scopes(open + [k]) == Scopes(open) + if IsScope(k) then 1 else 0
  {
  }

  lemma {:induction false} MainMenuIsScope(open: seq<Keyword>)
    requires open != [] && open[0] == MainMenu
    ensures Scopes(open) > 0
  {
    if |open| > 1 {
      MainMenuIsScope(open[..|open| - 1]);
    }
  }

  // How many prefix levels there are after a keyword line.
  function Named(c: Checker, line: Line): nat
    requires line.Text?
  {
    if line.name.Some? && c.prefixes == [] then 1 else |c.prefixes|
  }

  predicate Closes(k: Keyword) { k == EndMenu || k == EndChoice }

  lemma KeywordLevels(c: Checker, line: Line)
    requires line.Text? && line.keyword.Some?
    ensures |CheckKeyword(c, line).state.prefixes| ==
            |c.prefixes| - if Closes(line.keyword.value) && c.prefixes != [] then 1 else 0
    ensures CheckKeyword(c, line).error == Some(EmptyPrefixStack) ==>
              Closes(line.keyword.value) && c.prefixes == []
  {
  }

  lemma LevelsAfterLine(c: Checker, line: Line)
    requires WellFormed(line) && IsEffective(c, line) && line.keyword.Some?
    ensures |CheckLine(c, line).state.prefixes| ==
            Named(c, line) + (if IsScope(line.keyword.value) then 1 else 0)
            - (if Closes(line.keyword.value) && Named(c, line) > 0 then 1 else 0)
    ensures CheckLine(c, line).error == Some(EmptyPrefixStack) ==>
              Closes(line.keyword.value) && Named(c, line) == 0
  {
    var prefixes := UpdatePrefixes(c.prefixes, line.keyword, line.name);
    assert |prefixes| == Named(c, line) + if IsScope(line.keyword.value) then 1 else 0;
    KeywordLevels(c.(prefixes := prefixes), line);
  }

  lemma ScopesOfNest(open: seq<Keyword>, k: Keyword)
    requires Nest(open, k).Some?
    ensures Scopes(Nest(open, k).value) ==
            Scopes(open) + (if IsScope(k) then 1 else 0) - (if k == EndMenu || k == EndChoice then 1 else 0)
  {
  }

  lemma NestKeepsMainMenu(open: seq<Keyword>, k: Keyword)
    requires Nest(open, k).Some? && k != MainMenu
    ensures var after := Nest(open, k).value;
            after != [] && after[0] == MainMenu ==> open != [] && open[0] == MainMenu
  {
  }

  lemma LineKeepsInStep(c: Checker, open: seq<Keyword>, line: Line)
    requires InStep(c.prefixes, open) && WellFormed(line) && IsEffective(c, line)
    requires line.keyword.Some? && Nest(open, line.keyword.value).Some?
    requires line.keyword.value == MainMenu ==> open == [] && c.prefixes == []
    ensures InStep(CheckLine(c, line).state.prefixes, Nest(open, line.keyword.value).value)
    ensures CheckLine(c, line).error != Some(EmptyPrefixStack)
  {
    var k := line.keyword.value;
    LevelsAfterLine(c, line);
    ScopesOfNest(open, k);
    if open != [] && open[0] == MainMenu {
      MainMenuIsScope(open);
    }
    if k != MainMenu {
      NestKeepsMainMenu(open, k);
    }
  }

  lemma {:induction false} StacksInStep(lines: seq<Line>)
    requires OpenBlocks(Keywords(lines)).Some? && forall i :: 0 <= i < |lines| ==> WellFormed(lines[i])
    ensures InStep(StateAfter(lines).prefixes, OpenBlocks(Keywords(lines)).value)
    ensures Keywords(lines) == [] ==> StateAfter(lines).prefixes == []
  {
    if lines != [] {
      var init, line := lines[..|lines| - 1], lines[|lines| - 1];
      var c := StateAfter(init);
      if IsEffective(c, line) && line.keyword.Some? {
        AppendKeyword(Keywords(init), line.keyword.value);
        StacksInStep(init);
        LineKeepsInStep(c, OpenBlocks(Keywords(init)).value, line);
      } else {
        assert Keywords(lines) == Keywords(init);
        StacksInStep(init);
      }
    }
  }

  // A well-nested file never closes a prefix level that was not opened.
  lemma WellNestedNeverUnderflows(lines: seq<Line>, line: Line)
    requires forall i :: 0 <= i < |lines| ==> WellFormed(lines[i])
    requires WellFormed(line) && IsEffective(StateAfter(lines), line) && line.keyword.Some?
    requires OpenBlocks(Keywords(lines) + [line.keyword.value]).Some?
    ensures CheckLine(StateAfter(lines), line).error != Some(EmptyPrefixStack)
  {
    AppendKeyword(Keywords(lines), line.keyword.value);
    StacksInStep(lines);
    LineKeepsInStep(StateAfter(lines), OpenBlocks(Keywords(lines)).value, line);
  }

  // A well-nested file whose blocks are all closed (a leading mainmenu apart) never fails
  // the check at its end that the prefix stack is empty.
  lemma ClosedFileIsBalanced(lines: seq<Line>)
    requires forall i :: 0 <= i < |lines| ==> WellFormed(lines[i])
    requires OpenBlocks(Keywords(lines)) == Some([]) || OpenBlocks(Keywords(lines)) == Some([MainMenu])
    ensures CheckEof(StateAfter(lines)) != NotClosed
  {
    StacksInStep(lines);
    ScopesOfPush([], MainMenu);
    assert [] + [MainMenu] == [MainMenu];
    OneLevelIsBalanced(StateAfter(lines));
  }

  lemma OneLevelIsBalanced(c: Checker)
    requires |c.prefixes| <= 1
    ensures CheckEof(c) != NotClosed
  {
  }
}
