/** The order of error items in gen_esp_err_to_name.py: `ErrItem.__cmp__`, which
    compares the concatenations of file and name, and the sort that relies on it. */
module ErrItemOrder {

  datatype ErrItem = ErrItem(name: string, file: string)

  const PRIORITY_HEADERS: seq<string> := ["components/esp_common/include/esp_err.h"]

  // Python's `<` on strings.
  predicate Less(a: string, b: string) {
    if b == "" then false
    else if a == "" then true
    else if a[0] != b[0] then a[0] < b[0]
    else Less(a[1..], b[1..])
  }

  predicate IsPriority(file: string) {
    file in PRIORITY_HEADERS
  }

  predicate IsBase(name: string) {
    |name| >= 5 && name[|name| - 5..] == "_BASE"
  }

  function Cmp(a: ErrItem, b: ErrItem): int {
    if IsPriority(a.file) && !IsPriority(b.file) then -1
    else if !IsPriority(a.file) && IsPriority(b.file) then 1
    else if a.file == b.file && IsBase(a.name) && !IsBase(b.name) then 1
    else if a.file == b.file && !IsBase(a.name) && IsBase(b.name) then -1
    else if Less(a.file + a.name, b.file + b.name) then -1
    else if Less(b.file + b.name, a.file + a.name) then 1
    else 0
  }

  // ----- the reference order: priority class, file, base flag, name -----

  function Rank(b: bool): nat {
    if b then 0 else 1
  }

  predicate Before(a: ErrItem, b: ErrItem) {
    || Rank(IsPriority(a.file)) < Rank(IsPriority(b.file))
    || (IsPriority(a.file) == IsPriority(b.file) && Less(a.file, b.file))
    || (a.file == b.file && Rank(!IsBase(a.name)) < Rank(!IsBase(b.name)))
    || (a.file == b.file && IsBase(a.name) == IsBase(b.name) && Less(a.name, b.name))
  }

  // Two different files of the same priority, one path a prefix of the other.
  predicate Clash(f: string, g: string) {
    f != g && IsPriority(f) == IsPriority(g) && (f <= g || g <= f)
  }

  // ----- strings -----

  lemma {:induction false} LessTrichotomy(a: string, b: string)
    ensures !(Less(a, b) && Less(b, a))
    ensures Less(a, b) || Less(b, a) <==> a != b
  {
    if a != "" && b != "" && a[0] == b[0] {
      LessTrichotomy(a[1..], b[1..]);
      assert a == [a[0]] + a[1..] && b == [b[0]] + b[1..];
    }
  }

  lemma {:induction false} LessTransitive(a: string, b: string, c: string)
    requires Less(a, b) && Less(b, c)
    ensures Less(a, c)
  {
    if a != "" && a[0] == b[0] && b[0] == c[0] {
      LessTransitive(a[1..], b[1..], c[1..]);
    }
  }

  lemma {:induction false} LessCancels(f: string, x: string, y: string)
    ensures Less(f + x, f + y) <==> Less(x, y)
  {
    if f == "" {
      assert f + x == x && f + y == y;
    } else {
      assert (f + x)[1..] == f[1..] + x && (f + y)[1..] == f[1..] + y;
      LessCancels(f[1..], x, y);
    }
  }

  // Paths that are not prefixes of one another decide the comparison alone.
  lemma {:induction false} LessDecidedByFile(f: string, g: string, x: string, y: string)
    requires !(f <= g) && !(g <= f)
    ensures Less(f + x, g + y) <==> Less(f, g)
  {
    if f[0] == g[0] {
      assert f == [f[0]] + f[1..] && g == [g[0]] + g[1..];
      assert (f + x)[1..] == f[1..] + x && (g + y)[1..] == g[1..] + y;
      LessDecidedByFile(f[1..], g[1..], x, y);
    }
  }

  // ----- the comparator is the reference order, as long as no paths clash -----

  lemma CmpIsLexicographic(a: ErrItem, b: ErrItem)
    requires !Clash(a.file, b.file)
    ensures Cmp(a, b) < 0 <==> Before(a, b)
    ensures Cmp(a, b) > 0 <==> Before(b, a)
    ensures Cmp(a, b) == 0 <==> a == b
  {
    LessTrichotomy(a.file, b.file);
    LessTrichotomy(a.name, b.name);
    if a.file == b.file {
      LessCancels(a.file, a.name, b.name);
      LessCancels(a.file, b.name, a.name);
    } else if IsPriority(a.file) == IsPriority(b.file) {
      LessDecidedByFile(a.file, b.file, a.name, b.name);
      LessDecidedByFile(b.file, a.file, b.name, a.name);
    }
  }

  lemma BeforeTransitive(a: ErrItem, b: ErrItem, c: ErrItem)
    requires Before(a, b) && Before(b, c)
    ensures Before(a, c)
  {
    if Less(a.file, b.file) && Less(b.file, c.file) {
      LessTransitive(a.file, b.file, c.file);
    }
    if Less(a.name, b.name) && Less(b.name, c.name) {
      LessTransitive(a.name, b.name, c.name);
    }
    LessTrichotomy(a.file, b.file);
    LessTrichotomy(b.file, c.file);
  }

  // ----- the items the generator can produce -----

  predicate IdentifierChar(c: char) {
    '0' <= c <= '9' || 'A' <= c <= 'Z' || 'a' <= c <= 'z' || c == '_'
  }

  predicate IsIdentifier(s: string) {
    forall i :: 0 <= i < |s| ==> IdentifierChar(s[i])
  }

  // The macros whose definitions are picked up.
  predicate IsErrName(n: string) {
    IsIdentifier(n) && ("ESP_ERR_" <= n || "ESP_OK" <= n || "ESP_FAIL" <= n)
  }

  // Definitions in C files are refused.
  predicate IsHeader(f: string) {
    |f| >= 2 && f[|f| - 2..] == ".h"
  }

  ghost predicate Headers(files: iset<string>) {
    forall f :: f in files ==> IsHeader(f)
  }

  ghost predicate IsItem(a: ErrItem, files: iset<string>) {
    a.file in files && IsErrName(a.name)
  }

  // ----- exactly when the comparator is a strict total order on them -----

  ghost predicate TotalOrderOn(files: iset<string>) {
    && (forall a: ErrItem, b: ErrItem :: IsItem(a, files) && IsItem(b, files) ==> (Cmp(a, b) == 0 <==> a == b))
    && (forall a: ErrItem, b: ErrItem :: IsItem(a, files) && IsItem(b, files) ==> Cmp(a, b) == -Cmp(b, a))
    && (forall a: ErrItem, b: ErrItem, c: ErrItem :: IsItem(a, files) && IsItem(b, files) && IsItem(c, files) ==>
          Cmp(a, b) < 0 && Cmp(b, c) < 0 ==> Cmp(a, c) < 0)
  }

  function Repeat(c: char, n: nat): (s: string)
    ensures |s| == n && forall i :: 0 <= i < n ==> s[i] == c
  {
    seq(n, i => c)
  }

  // Names of that length or less, bases among them, lie between these two.
  function Lowest(n: nat): string {
    "ESP_ERR_" + Repeat('0', n)
  }

  function Highest(n: nat): string {
    "ESP_OK" + Repeat('z', n)
  }

  // The path g goes on behind f with a text that falls among the names.
  predicate Harmful(f: string, g: string) {
    && f < g && IsPriority(f) == IsPriority(g)
    && Less(Lowest(|g| - |f|), g[|f|..]) && Less(g[|f|..], Highest(|g| - |f|))
  }

  ghost predicate HarmFree(files: iset<string>) {
    forall f, g :: f in files && g in files ==> !Harmful(f, g)
  }

  lemma CmpSign(a: ErrItem, b: ErrItem)
    ensures Cmp(a, b) == -Cmp(b, a)
  {
    LessTrichotomy(a.file + a.name, b.file + b.name);
  }

  // What one header path adds to another one ends in ".h", so it is not part of a name.
  lemma AddedHasDot(f: string, g: string)
    requires IsHeader(f) && IsHeader(g) && f < g
    ensures |g| - |f| >= 2 && g[|g| - 2] == '.' && g == f + g[|f|..] && g[|f|..][|g| - |f| - 2] == '.'
  {
    assert g[|g| - 2..][0] == '.' && f[|f| - 2..][1] == 'h';
    assert g[|f| - 1] == f[|f| - 1] == 'h';
  }

  lemma NotInIdentifier(u: string, k: nat, n: string)
    requires k < |u| && u[k] == '.' && IsIdentifier(n)
    ensures !(u <= n) && u != n
  {
    assert k < |n| ==> u[k] != n[k];
  }

  // ----- a harmful path gives a cycle -----

  lemma NamesAtTheEdges(n: nat)
    requires n > 0
    ensures IsErrName(Lowest(n) + "_BASE") && IsBase(Lowest(n) + "_BASE")
    ensures IsErrName(Highest(n)) && !IsBase(Highest(n))
    ensures IsErrName("ESP_OK")
  {
    var low, high := Lowest(n) + "_BASE", Highest(n);
    assert low[..8] == "ESP_ERR_" && low[|low| - 5..] == "_BASE";
    assert high[..6] == "ESP_OK" && high[|high| - 1] == 'z' && "_BASE"[4] == 'E';
  }

  // Three items that precede each other in a circle.
  lemma HarmGivesCycle(f: string, g: string) returns (x: ErrItem, y: ErrItem, z: ErrItem)
    requires IsHeader(f) && IsHeader(g) && Harmful(f, g)
    ensures x.file == f && y.file == f && z.file == g
    ensures IsErrName(x.name) && IsErrName(y.name) && IsErrName(z.name)
    ensures Cmp(x, z) < 0 && Cmp(z, y) < 0 && Cmp(y, x) < 0
  {
    AddedHasDot(f, g);
    var n, u := |g| - |f|, g[|f|..];
    x, y, z := ErrItem(Lowest(n) + "_BASE", f), ErrItem(Highest(n), f), ErrItem("ESP_OK", g);
    NamesAtTheEdges(n);
    Enclosed(Lowest(n), u, Highest(n), n - 2, "_BASE", z.name);
    Keys(f, u, x.name, z.name);
    Keys(f, u, y.name, z.name);
    CmpByKeys(x, z);
    CmpByKeys(z, y);
  }

  lemma CmpByKeys(a: ErrItem, b: ErrItem)
    requires Keyed(a, b)
    ensures Cmp(a, b) < 0 <==> Less(a.file + a.name, b.file + b.name)
  {
  }

  lemma Enclosed(low: string, u: string, high: string, k: nat, base: string, z: string)
    requires k < |u| < |low| && u[k] == '.' && IsIdentifier(low) && IsIdentifier(high)
    requires Less(low, u) && Less(u, high)
    ensures Less(low + base, u + z) && Less(u + z, high)
  {
    NotInIdentifier(u, k, low);
    NotInIdentifier(u, k, high);
    LessDecidedByFile(low, u, base, z);
    LessDecidedByText(high, u, z);
  }

  // ----- without harmful paths nothing comes between a base and a plain name -----

  // What lies between two strings with a common prefix has that prefix.
  lemma {:induction false} BetweenHasPrefix(v: string, x: string, m: string, y: string)
    requires Less(v + x, m) && Less(m, v + y)
    ensures v <= m
    decreases |v|
  {
    if v != "" {
      assert (v + x)[1..] == v[1..] + x && (v + y)[1..] == v[1..] + y;
      BetweenHasPrefix(v[1..], x, m[1..], y);
      assert v == [v[0]] + v[1..] && m == [m[0]] + m[1..];
    }
  }

  // A text that is no prefix of n decides the comparison with n alone.
  lemma {:induction false} LessDecidedByText(n: string, u: string, z: string)
    requires !(u <= n)
    ensures Less(n, u + z) <==> Less(n, u)
    ensures Less(u + z, n) <==> Less(u, n)
    decreases |u|
  {
    if n != "" && u[0] == n[0] {
      assert (u + z)[1..] == u[1..] + z;
      assert u == [u[0]] + u[1..] && n == [n[0]] + n[1..];
      LessDecidedByText(n[1..], u[1..], z);
    }
  }

  lemma {:induction false} BelowZeros(t: string, n: nat)
    requires IsIdentifier(t) && Less(t, Repeat('0', n))
    ensures t == Repeat('0', |t|)
    decreases n
  {
    if t != "" {
      assert Repeat('0', n)[1..] == Repeat('0', n - 1);
      BelowZeros(t[1..], n - 1);
      assert t == [t[0]] + t[1..];
    }
  }

  lemma {:induction false} AboveZs(t: string, n: nat)
    requires IsIdentifier(t) && Less(Repeat('z', n), t)
    ensures Repeat('z', n) <= t
    decreases n
  {
    if n > 0 {
      assert Repeat('z', n)[1..] == Repeat('z', n - 1);
      AboveZs(t[1..], n - 1);
      assert t == [t[0]] + t[1..] && Repeat('z', n) == ['z'] + Repeat('z', n - 1);
    }
  }

  lemma FifthDecides(x: string, y: string)
    requires |x| > 4 && |y| > 4 && x[..4] == y[..4] && x[4] < y[4]
    ensures Less(x, y)
  {
    assert x == x[..4] + x[4..] && y == y[..4] + y[4..];
    LessCancels(x[..4], x[4..], y[4..]);
  }

  // No base is below the lowest name.
  lemma BaseAboveLowest(x: string, n: nat)
    requires IsErrName(x) && IsBase(x)
    ensures !Less(x, Lowest(n))
  {
    assert x[|x| - 1] == x[|x| - 5..][4] == 'E';
    if Less(x, Lowest(n)) {
      if "ESP_ERR_" <= x {
        var t := x[8..];
        assert x == "ESP_ERR_" + t;
        LessCancels("ESP_ERR_", t, Repeat('0', n));
        BelowZeros(t, n);
        assert false;
      } else {
        assert Lowest(n)[..4] == "ESP_" && Lowest(n)[4] == 'E' && x[..4] == "ESP_";
        FifthDecides(Lowest(n), x);
        LessTrichotomy(Lowest(n), x);
        assert false;
      }
    }
  }

  // A name above the highest one goes on behind it.
  lemma AboveHighest(y: string, n: nat)
    requires IsErrName(y) && Less(Highest(n), y)
    ensures Highest(n) <= y
  {
    if "ESP_OK" <= y {
      var t := y[6..];
      assert y == "ESP_OK" + t;
      LessCancels("ESP_OK", Repeat('z', n), t);
      AboveZs(t, n);
    } else {
      assert Highest(n)[..4] == "ESP_" && Highest(n)[4] == 'O' && y[..4] == "ESP_";
      FifthDecides(y, Highest(n));
      LessTrichotomy(Highest(n), y);
      assert false;
    }
  }

  lemma BetweenNames(x: string, u: string, k: nat, y: string)
    requires IsErrName(x) && IsErrName(y) && IsBase(x)
    requires k < |u| && u[k] == '.' && Less(x, u) && Less(u, y)
    ensures Less(Lowest(|u|), u) && Less(u, Highest(|u|))
  {
    var low, high := Lowest(|u|), Highest(|u|);
    LessTrichotomy(low, u);
    LessTrichotomy(u, high);
    if Less(u, low) {
      LessTransitive(x, u, low);
      BaseAboveLowest(x, |u|);
      assert false;
    }
    if Less(high, u) {
      LessTransitive(high, u, y);
      AboveHighest(y, |u|);
      assert high + "" == high && y == high + y[|high|..];
      BetweenHasPrefix(high, "", u, y[|high|..]);
      assert false;
    }
  }

  lemma Keys(f: string, u: string, n: string, z: string)
    ensures Less(f + n, (f + u) + z) <==> Less(n, u + z)
    ensures Less((f + u) + z, f + n) <==> Less(u + z, n)
  {
    assert (f + u) + z == f + (u + z);
    LessCancels(f, n, u + z);
    LessCancels(f, u + z, n);
  }

  // An item of another file between a base and a plain name of one file shows harm.
  lemma SandwichIsHarmful(x: ErrItem, z: ErrItem, y: ErrItem)
    requires IsErrName(x.name) && IsErrName(y.name) && IsErrName(z.name)
    requires x.file == y.file != z.file && IsPriority(x.file) == IsPriority(z.file)
    requires IsHeader(x.file) && IsHeader(z.file) && IsBase(x.name)
    requires Less(x.file + x.name, z.file + z.name) && Less(z.file + z.name, y.file + y.name)
    ensures Harmful(x.file, z.file)
  {
    var f, g := x.file, z.file;
    if f < g {
      var u := g[|f|..];
      AddedHasDot(f, g);
      Keys(f, u, x.name, z.name);
      Keys(f, u, y.name, z.name);
      NotInIdentifier(u, |u| - 2, x.name);
      NotInIdentifier(u, |u| - 2, y.name);
      LessDecidedByText(x.name, u, z.name);
      LessDecidedByText(y.name, u, z.name);
      BetweenNames(x.name, u, |u| - 2, y.name);
    } else if g < f {
      var v := f[|g|..];
      AddedHasDot(g, f);
      Keys(g, v, z.name, x.name);
      Keys(g, v, z.name, y.name);
      BetweenHasPrefix(v, x.name, z.name, y.name);
      NotInIdentifier(v, |v| - 2, z.name);
      assert false;
    } else {
      LessDecidedByFile(f, g, x.name, z.name);
      LessDecidedByFile(g, f, z.name, y.name);
      LessTrichotomy(f, g);
      assert false;
    }
  }

  lemma DifferentKeys(a: ErrItem, b: ErrItem)
    requires IsErrName(a.name) && IsErrName(b.name) && IsHeader(a.file) && IsHeader(b.file) && a != b
    ensures a.file + a.name != b.file + b.name
  {
    var f, g := a.file, b.file;
    var k, l := f + a.name, g + b.name;
    assert k[..|f|] == f && l[..|g|] == g && k[|f|..] == a.name && l[|g|..] == b.name;
    if f < g {
      NamePart(a, b);
    } else if g < f {
      NamePart(b, a);
    } else if k == l {
      assert false;
    }
  }

  lemma NamePart(a: ErrItem, b: ErrItem)
    requires IsErrName(a.name) && IsHeader(a.file) && IsHeader(b.file) && a.file < b.file
    ensures a.file + a.name != b.file + b.name
  {
    var f, g := a.file, b.file;
    AddedHasDot(f, g);
    assert (g + b.name)[|g| - 2] == '.';
    assert |g| <= |f + a.name| ==> (f + a.name)[|g| - 2] == a.name[|g| - 2 - |f|];
  }

  // Items that are compared by their keys.
  predicate Keyed(a: ErrItem, b: ErrItem) {
    IsPriority(a.file) == IsPriority(b.file) && (a.file == b.file ==> IsBase(a.name) == IsBase(b.name))
  }

  ghost predicate Safe(a: ErrItem, b: ErrItem) {
    && IsErrName(a.name) && IsErrName(b.name) && IsHeader(a.file) && IsHeader(b.file)
    && !Harmful(a.file, b.file) && !Harmful(b.file, a.file)
  }

  lemma SamePriorityTransitive(a: ErrItem, b: ErrItem, c: ErrItem)
    requires Safe(a, b) && Safe(b, c) && Safe(a, c)
    requires IsPriority(a.file) == IsPriority(b.file) == IsPriority(c.file)
    requires Cmp(a, b) < 0 && Cmp(b, c) < 0
    ensures Cmp(a, c) < 0
  {
    var x, y, z := a.file + a.name, b.file + b.name, c.file + c.name;
    LessTrichotomy(x, z);
    if a.file == b.file == c.file {
      CmpIsLexicographic(a, b);
      CmpIsLexicographic(b, c);
      CmpIsLexicographic(a, c);
      BeforeTransitive(a, b, c);
    } else if Keyed(a, b) && Keyed(b, c) {
      LessTransitive(x, y, z);
      if a.file == c.file && IsBase(a.name) && !IsBase(c.name) {
        SandwichIsHarmful(a, b, c);
      }
    } else if !Keyed(a, b) && Less(z, x) {
      SandwichIsHarmful(b, c, a);
    } else if !Keyed(b, c) && Less(z, x) {
      SandwichIsHarmful(c, a, b);
    } else {
      DifferentKeys(a, c);
    }
  }

  lemma ItemsAreOrdered(a: ErrItem, b: ErrItem)
    requires IsErrName(a.name) && IsErrName(b.name) && IsHeader(a.file) && IsHeader(b.file)
    ensures Cmp(a, b) == 0 <==> a == b
    ensures Cmp(a, b) == -Cmp(b, a)
  {
    CmpSign(a, b);
    LessTrichotomy(a.file + a.name, b.file + b.name);
    if a != b {
      DifferentKeys(a, b);
    }
  }

  lemma HarmFreeIsTotal(files: iset<string>)
    requires Headers(files) && HarmFree(files)
    ensures TotalOrderOn(files)
  {
    forall a: ErrItem, b: ErrItem | IsItem(a, files) && IsItem(b, files)
      ensures Cmp(a, b) == 0 <==> a == b
      ensures Cmp(a, b) == -Cmp(b, a)
    {
      ItemsAreOrdered(a, b);
    }
    forall a: ErrItem, b: ErrItem, c: ErrItem
      | IsItem(a, files) && IsItem(b, files) && IsItem(c, files) && Cmp(a, b) < 0 && Cmp(b, c) < 0
      ensures Cmp(a, c) < 0
    {
      if IsPriority(a.file) == IsPriority(b.file) == IsPriority(c.file) {
        SamePriorityTransitive(a, b, c);
      }
    }
  }

  // The comparator is a strict total order on the items of a set of headers if and only
  // if no path goes on behind another one of the same priority with a text among the names.
  lemma TotalOrderIff(files: iset<string>)
    requires Headers(files)
    ensures TotalOrderOn(files) <==> HarmFree(files)
  {
    if HarmFree(files) {
      HarmFreeIsTotal(files);
    } else {
      var f, g :| f in files && g in files && Harmful(f, g);
      var x, y, z := HarmGivesCycle(f, g);
      CmpSign(x, y);
      assert IsItem(x, files) && IsItem(y, files) && IsItem(z, files);
    }
  }

  // Paths free of prefixes are harmless; so is a second extension, but not every name.
  lemma HarmlessPaths(files: iset<string>)
    ensures ClashFree(files) ==> HarmFree(files)
    ensures Clash("a.h", "a.h.h") && !Harmful("a.h", "a.h.h")
    ensures Harmful("a.h", "a.hESP_M.h")
  {
    var f, g, h := "a.h", "a.h.h", "a.hESP_M.h";
    assert g[3..] == ".h" && h[3..] == "ESP_M.h" && f == g[..3] && f == h[..3];
    FifthDecides(Lowest(7), h[3..]);
    FifthDecides(h[3..], Highest(7));
  }

  ghost predicate ClashFree(files: iset<string>) {
    forall f, g :: f in files && g in files ==> !Clash(f, g)
  }

  // ----- the sorted list of a code does not depend on the order of discovery -----

  // What a sort by the comparator leaves: no item is followed by a smaller one.
  ghost predicate Sorted(s: seq<ErrItem>) {
    forall i :: 0 < i < |s| ==> Cmp(s[i - 1], s[i]) <= 0
  }

  ghost predicate ItemsOf(s: seq<ErrItem>, files: iset<string>) {
    forall i :: 0 <= i < |s| ==> IsItem(s[i], files)
  }

  lemma {:induction false} FirstIsLeast(s: seq<ErrItem>, files: iset<string>, k: nat)
    requires TotalOrderOn(files) && ItemsOf(s, files) && Sorted(s) && k < |s|
    ensures Cmp(s[0], s[k]) <= 0
    decreases k
  {
    if k > 0 {
      FirstIsLeast(s, files, k - 1);
      assert Cmp(s[k - 1], s[k]) <= 0;
      assert IsItem(s[0], files) && IsItem(s[k - 1], files) && IsItem(s[k], files);
    } else {
      assert IsItem(s[0], files);
    }
  }

  lemma SameFirst(s: seq<ErrItem>, t: seq<ErrItem>, files: iset<string>)
    requires TotalOrderOn(files) && ItemsOf(s, files) && ItemsOf(t, files)
    requires Sorted(s) && Sorted(t) && s != [] && t != [] && s[0] in t && t[0] in s
    ensures s[0] == t[0]
  {
    var i :| 0 <= i < |s| && s[i] == t[0];
    var j :| 0 <= j < |t| && t[j] == s[0];
    FirstIsLeast(s, files, i);
    FirstIsLeast(t, files, j);
    assert IsItem(s[0], files) && IsItem(t[0], files);
  }

  lemma Rest(s: seq<ErrItem>, files: iset<string>)
    requires s != [] && Sorted(s) && ItemsOf(s, files)
    ensures Sorted(s[1..]) && ItemsOf(s[1..], files)
    ensures s == [s[0]] + s[1..]
    ensures multiset(s[1..]) == multiset(s) - multiset{s[0]}
  {
    assert s == [s[0]] + s[1..];
  }

  lemma {:induction false} SortIsUnique(s: seq<ErrItem>, t: seq<ErrItem>, files: iset<string>)
    requires TotalOrderOn(files) && ItemsOf(s, files) && ItemsOf(t, files)
    requires Sorted(s) && Sorted(t) && multiset(s) == multiset(t)
    ensures s == t
    decreases |s|
  {
    assert |s| == |multiset(s)| == |multiset(t)| == |t|;
    if s != [] {
      assert s[0] in multiset(t) && t[0] in multiset(s);
      SameFirst(s, t, files);
      Rest(s, files);
      Rest(t, files);
      SortIsUnique(s[1..], t[1..], files);
    }
  }
}
