/** Program-counter addresses in monitor output (idf_monitor.py): the non-overlapping
    left-to-right search of `re.finditer(MATCH_PCADDR, ...)`, and what becomes of it
    when a line is scanned in fragments with nine carried characters. */
module AddressScan {

  const ADDRESS_LENGTH: nat := 10
  const CARRY: nat := 9

  predicate IsHex(c: char) {
    '0' <= c <= '9' || 'a' <= c <= 'f' || 'A' <= c <= 'F'
  }

  // 0x4 followed by seven hexadecimal digits, ignoring case.
  predicate IsAddress(w: string) {
    && |w| == ADDRESS_LENGTH
    && w[0] == '0' && (w[1] == 'x' || w[1] == 'X') && w[2] == '4'
    && forall k :: 3 <= k < ADDRESS_LENGTH ==> IsHex(w[k])
  }

  const HEX_DIGITS: string := "0123456789abcdefABCDEF"

  lemma HexDigits(c: char)
    ensures IsHex(c) <==> c in HEX_DIGITS
  {
    assert HEX_DIGITS == "0123456789" + "abcdef" + "ABCDEF";
    assert c in "0123456789" <==> '0' <= c <= '9';
    assert c in "abcdef" <==> 'a' <= c <= 'f';
    assert c in "ABCDEF" <==> 'A' <= c <= 'F';
  }

  // What the pattern matches, written out: 0x4 or 0X4 and seven digits of either case.
  lemma AddressPattern(w: string)
    ensures IsAddress(w) <==>
            && |w| == 10 && (w[..3] == "0x4" || w[..3] == "0X4")
            && forall k :: 3 <= k < 10 ==> w[k] in HEX_DIGITS
  {
    forall k | 3 <= k < |w| ensures IsHex(w[k]) <==> w[k] in HEX_DIGITS {
      HexDigits(w[k]);
    }
    if |w| == 10 {
      assert w[..3] == [w[0], w[1], w[2]];
    }
  }

  predicate AddressAt(s: string, i: nat) {
    i + ADDRESS_LENGTH <= |s| && IsAddress(s[i..i + ADDRESS_LENGTH])
  }

  // The search over s[from..hi]: after a match it goes on behind it.
  function Scan(s: string, from: nat, hi: nat): seq<nat>
    requires hi <= |s|
    decreases |s| - from
  {
    if from + ADDRESS_LENGTH > hi then []
    else if AddressAt(s, from) then [from] + Scan(s, from + ADDRESS_LENGTH, hi)
    else Scan(s, from + 1, hi)
  }

  // Every position is an address that starts at `from` or later.
  predicate Found(s: string, ps: seq<nat>, from: nat) {
    forall k :: 0 <= k < |ps| ==> ps[k] >= from && AddressAt(s, ps[k])
  }

  predicate EndBy(ps: seq<nat>, r: nat) {
    forall k :: 0 <= k < |ps| ==> ps[k] + ADDRESS_LENGTH <= r
  }

  predicate LastEndsAt(ps: seq<nat>, r: nat) {
    ps != [] && ps[|ps| - 1] + ADDRESS_LENGTH == r
  }

  lemma Prepend(p: nat, ps: seq<nat>, r: nat)
    requires p + ADDRESS_LENGTH <= r && EndBy(ps, r)
    ensures EndBy([p] + ps, r)
    ensures LastEndsAt(ps, r) || (ps == [] && p + ADDRESS_LENGTH == r) ==> LastEndsAt([p] + ps, r)
  {
  }

  lemma {:induction false} ScanFinds(s: string, from: nat, hi: nat)
    requires hi <= |s|
    ensures Found(s, Scan(s, from, hi), from) && EndBy(Scan(s, from, hi), hi)
    decreases |s| - from
  {
    if from + ADDRESS_LENGTH <= hi {
      ScanFinds(s, if AddressAt(s, from) then from + ADDRESS_LENGTH else from + 1, hi);
    }
  }

  // Some found address begins at i or overlaps it from the left.
  predicate Covered(ps: seq<nat>, i: nat) {
    exists k :: 0 <= k < |ps| && ps[k] <= i < ps[k] + ADDRESS_LENGTH
  }

  predicate Apart(ps: seq<nat>) {
    forall j, k :: 0 <= j < k < |ps| ==> ps[j] + ADDRESS_LENGTH <= ps[k]
  }

  lemma {:induction false} ScanIsApart(s: string, from: nat, hi: nat)
    requires hi <= |s|
    ensures Apart(Scan(s, from, hi))
    decreases |s| - from
  {
    if from + ADDRESS_LENGTH <= hi {
      var next := if AddressAt(s, from) then from + ADDRESS_LENGTH else from + 1;
      ScanFinds(s, next, hi);
      ScanIsApart(s, next, hi);
    }
  }

  lemma CoveredBehind(p: nat, ps: seq<nat>, i: nat)
    requires Covered(ps, i) || p <= i < p + ADDRESS_LENGTH
    ensures Covered([p] + ps, i)
  {
    if Covered(ps, i) {
      var k :| 0 <= k < |ps| && ps[k] <= i < ps[k] + ADDRESS_LENGTH;
      assert ([p] + ps)[k + 1] == ps[k];
    } else {
      assert ([p] + ps)[0] == p;
    }
  }

  lemma {:induction false} ScanCovers(s: string, from: nat, hi: nat, i: nat)
    requires hi <= |s| && from <= i && i + ADDRESS_LENGTH <= hi && AddressAt(s, i)
    ensures Covered(Scan(s, from, hi), i)
    decreases |s| - from
  {
    if AddressAt(s, from) {
      if i >= from + ADDRESS_LENGTH {
        ScanCovers(s, from + ADDRESS_LENGTH, hi, i);
      }
      CoveredBehind(from, Scan(s, from + ADDRESS_LENGTH, hi), i);
    } else {
      ScanCovers(s, from + 1, hi, i);
    }
  }

  // The search finds addresses that do not overlap, in order, and passes over no address
  // but those that overlap one found before.
  lemma ScanIsLeftmost(s: string)
    ensures Found(s, Scan(s, 0, |s|), 0) && Apart(Scan(s, 0, |s|))
    ensures forall i: nat :: AddressAt(s, i) ==> Covered(Scan(s, 0, |s|), i)
  {
    ScanFinds(s, 0, |s|);
    ScanIsApart(s, 0, |s|);
    forall i: nat | AddressAt(s, i) ensures Covered(Scan(s, 0, |s|), i) {
      ScanCovers(s, 0, |s|, i);
    }
  }

  // The match at p, `m.group()`.
  function Text(s: string, p: nat): string {
    if p + ADDRESS_LENGTH <= |s| then s[p..p + ADDRESS_LENGTH] else ""
  }

  function Texts(s: string, ps: seq<nat>): seq<string> {
    if ps == [] then [] else [Text(s, ps[0])] + Texts(s, ps[1..])
  }

  // The addresses found in a text, in order.
  function Addresses(s: string): seq<string> {
    Texts(s, Scan(s, 0, |s|))
  }

  // `s[-9:]`
  function Carry(s: string): string {
    if |s| <= CARRY then s else s[|s| - CARRY..]
  }

  // ----- occurrences overlap by at most one character -----

  lemma OverlapByOne(s: string, i: nat, j: nat)
    requires AddressAt(s, i) && AddressAt(s, j) && i < j
    ensures j >= i + CARRY
  {
    var w, v := s[i..i + ADDRESS_LENGTH], s[j..j + ADDRESS_LENGTH];
    assert v[1] == s[j + 1];
    assert forall k :: 0 <= k < ADDRESS_LENGTH ==> w[k] == s[i + k];
    assert forall k :: i + 2 <= k < i + ADDRESS_LENGTH ==> s[k] == w[k - i];
  }

  // ----- searching a slice -----

  lemma SliceOfSlice(s: string, a: nat, b: nat, i: nat, j: nat)
    requires a <= b <= |s| && i <= j <= b - a
    ensures s[a..b][i..j] == s[a + i..a + j]
  {
    var x, y := s[a..b][i..j], s[a + i..a + j];
    assert |x| == |y|;
    forall k | 0 <= k < |x| ensures x[k] == y[k] {
      assert x[k] == s[a..b][i + k] == s[a + (i + k)];
    }
  }

  lemma SliceAddress(s: string, a: nat, b: nat, i: nat)
    requires a <= b <= |s| && a + i <= b
    ensures AddressAt(s[a..b], i) <==> a + i + ADDRESS_LENGTH <= b && AddressAt(s, a + i)
  {
    if a + i + ADDRESS_LENGTH <= b {
      SliceOfSlice(s, a, b, i, i + ADDRESS_LENGTH);
    }
  }

  function Shift(ps: seq<nat>, d: nat): seq<nat> {
    if ps == [] then [] else [ps[0] + d] + Shift(ps[1..], d)
  }

  lemma {:induction false} ScanSlice(s: string, a: nat, b: nat, from: nat)
    requires a <= b <= |s| && from <= b - a
    ensures Shift(Scan(s[a..b], from, b - a), a) == Scan(s, a + from, b)
    decreases b - a - from
  {
    if from + ADDRESS_LENGTH <= b - a {
      SliceAddress(s, a, b, from);
      ScanSlice(s, a, b, if AddressAt(s, a + from) then from + ADDRESS_LENGTH else from + 1);
    }
  }

  lemma {:induction false} TextsOfSlice(s: string, a: nat, b: nat, ps: seq<nat>)
    requires a <= b <= |s| && EndBy(ps, b - a)
    ensures Texts(s[a..b], ps) == Texts(s, Shift(ps, a))
    decreases |ps|
  {
    if ps != [] {
      SliceOfSlice(s, a, b, ps[0], ps[0] + ADDRESS_LENGTH);
      TextsOfSlice(s, a, b, ps[1..]);
    }
  }

  lemma AddressesOfSlice(s: string, a: nat, b: nat)
    requires a <= b <= |s|
    ensures Addresses(s[a..b]) == Texts(s, Scan(s, a, b))
  {
    var t := s[a..b];
    var ps := Scan(t, 0, |t|);
    ScanSlice(s, a, b, 0);
    assert a + 0 == a && |t| == b - a;
    ScanFinds(t, 0, |t|);
    TextsOfSlice(s, a, b, ps);
  }

  // ----- cutting a line once -----

  // Where the search over s[from..hi] gives up.
  function Resume(s: string, from: nat, hi: nat): (r: nat)
    requires hi <= |s|
    ensures r + ADDRESS_LENGTH > hi && r >= from
    decreases |s| - from
  {
    if from + ADDRESS_LENGTH > hi then from
    else if AddressAt(s, from) then Resume(s, from + ADDRESS_LENGTH, hi)
    else Resume(s, from + 1, hi)
  }

  lemma {:induction false} ScanSplits(s: string, from: nat, c: nat)
    requires c <= |s|
    ensures Scan(s, from, |s|) == Scan(s, from, c) + Scan(s, Resume(s, from, c), |s|)
    decreases |s| - from
  {
    if from + ADDRESS_LENGTH <= c {
      ScanSplits(s, if AddressAt(s, from) then from + ADDRESS_LENGTH else from + 1, c);
    }
  }

  // The search stops right behind its last match, or ten characters before the end.
  lemma {:induction false} ResumeIsBehindLast(s: string, from: nat, c: nat)
    requires c <= |s|
    ensures EndBy(Scan(s, from, c), Resume(s, from, c))
    ensures Resume(s, from, c) > from && Resume(s, from, c) + CARRY > c ==>
              LastEndsAt(Scan(s, from, c), Resume(s, from, c))
    decreases |s| - from
  {
    if from + ADDRESS_LENGTH <= c {
      if AddressAt(s, from) {
        ResumeIsBehindLast(s, from + ADDRESS_LENGTH, c);
        Prepend(from, Scan(s, from + ADDRESS_LENGTH, c), Resume(s, from + ADDRESS_LENGTH, c));
      } else {
        ResumeIsBehindLast(s, from + 1, c);
      }
    }
  }

  lemma {:induction false} SkipToNext(s: string, lo: nat, r: nat, hi: nat)
    requires lo <= r && hi <= |s| && forall q :: lo <= q < r ==> !AddressAt(s, q)
    ensures Scan(s, lo, hi) == Scan(s, r, hi)
    decreases r - lo
  {
    if lo < r {
      SkipToNext(s, lo + 1, r, hi);
    }
  }

  lemma {:induction false} FindsEarlier(s: string, lo: nat, q: nat)
    requires lo <= q && AddressAt(s, q)
    ensures Scan(s, lo, |s|) != [] && Scan(s, lo, |s|)[0] <= q
    decreases q - lo
  {
    if lo < q && !AddressAt(s, lo) {
      FindsEarlier(s, lo + 1, q);
    }
  }

  function CarryStart(c: nat): nat {
    if c <= CARRY then 0 else c - CARRY
  }

  // The positions looked up when the line is cut at c.
  function CutPositions(s: string, c: nat): seq<nat>
    requires c <= |s|
  {
    Scan(s, 0, c) + Scan(s, CarryStart(c), |s|)
  }

  // An address found before the cut, near it, ends with the first digit of another one.
  predicate EndsInAddress(s: string, c: nat, m: nat) {
    AddressAt(s, m + CARRY) && m + CARRY >= CarryStart(c)
  }

  predicate Straddles(s: string, c: nat)
    requires c <= |s|
  {
    exists k :: 0 <= k < |Scan(s, 0, c)| && EndsInAddress(s, c, Scan(s, 0, c)[k])
  }

  // Between the carry and the point where the first search stopped, only the last
  // digit of the last match can start an address.
  lemma OnlyLastDigit(s: string, c: nat, q: nat)
    requires c <= |s| && CarryStart(c) <= q < Resume(s, 0, c) && AddressAt(s, q)
    ensures var ps := Scan(s, 0, c);
            ps != [] && AddressAt(s, ps[|ps| - 1]) && q == ps[|ps| - 1] + CARRY
  {
    ResumeIsBehindLast(s, 0, c);
    ScanFinds(s, 0, c);
    var ps := Scan(s, 0, c);
    var m := ps[|ps| - 1];
    assert AddressAt(s, m);
    OverlapByOne(s, m, q);
  }

  lemma CutKeepsPositions(s: string, c: nat)
    requires c <= |s| && !Straddles(s, c)
    ensures CutPositions(s, c) == Scan(s, 0, |s|)
  {
    var r, lo := Resume(s, 0, c), CarryStart(c);
    forall q | lo <= q < r ensures !AddressAt(s, q) {
      if AddressAt(s, q) {
        OnlyLastDigit(s, c, q);
        assert false;
      }
    }
    SkipToNext(s, lo, r, |s|);
    ScanSplits(s, 0, c);
  }

  lemma AppendDiffers(a: seq<nat>, b: seq<nat>, c: seq<nat>)
    requires b != c
    ensures a + b != a + c
  {
    assert (a + b)[|a|..] == b && (a + c)[|a|..] == c;
  }

  lemma ScansDiffer(s: string, lo: nat, q: nat, r: nat)
    requires lo <= q < r && AddressAt(s, q)
    ensures Scan(s, lo, |s|) != Scan(s, r, |s|)
  {
    FindsEarlier(s, lo, q);
    ScanFinds(s, r, |s|);
  }

  lemma StraddlingCutRepeats(s: string, c: nat)
    requires c <= |s| && Straddles(s, c)
    ensures CutPositions(s, c) != Scan(s, 0, |s|)
  {
    var r, lo, ps := Resume(s, 0, c), CarryStart(c), Scan(s, 0, c);
    var k :| 0 <= k < |ps| && EndsInAddress(s, c, ps[k]);
    ResumeIsBehindLast(s, 0, c);
    ScansDiffer(s, lo, ps[k] + CARRY, r);
    AppendDiffers(ps, Scan(s, lo, |s|), Scan(s, r, |s|));
    ScanSplits(s, 0, c);
  }

  // A cut loses no address and repeats none if and only if it does not straddle.
  lemma CutKeepsPositionsIff(s: string, c: nat)
    requires c <= |s|
    ensures CutPositions(s, c) == Scan(s, 0, |s|) <==> !Straddles(s, c)
  {
    if Straddles(s, c) {
      StraddlingCutRepeats(s, c);
    } else {
      CutKeepsPositions(s, c);
    }
  }

  lemma {:induction false} TextsAppend(s: string, ps: seq<nat>, qs: seq<nat>)
    ensures Texts(s, ps + qs) == Texts(s, ps) + Texts(s, qs)
    decreases |ps|
  {
    if ps == [] {
      assert ps + qs == qs;
    } else {
      assert (ps + qs)[1..] == ps[1..] + qs;
      TextsAppend(s, ps[1..], qs);
    }
  }

  // What the two scans look up, in terms of positions in the uncut line.
  lemma CutAddresses(a: string, b: string)
    ensures Addresses(a) + Addresses(Carry(a) + b) == Texts(a + b, CutPositions(a + b, |a|))
  {
    var s, c, lo := a + b, |a|, CarryStart(|a|);
    assert s[0..c] == a && s[lo..|s|] == Carry(a) + b;
    AddressesOfSlice(s, 0, c);
    AddressesOfSlice(s, lo, |s|);
    TextsAppend(s, Scan(s, 0, c), Scan(s, lo, |s|));
  }

  lemma CutKeepsAddresses(a: string, b: string)
    requires !Straddles(a + b, |a|)
    ensures Addresses(a) + Addresses(Carry(a) + b) == Addresses(a + b)
  {
    CutAddresses(a, b);
    CutKeepsPositions(a + b, |a|);
  }

  // ----- cutting a line into any number of fragments -----

  ghost predicate NoOverlap(s: string) {
    forall i, j :: 0 <= i < j && AddressAt(s, i) && AddressAt(s, j) ==> j >= i + ADDRESS_LENGTH
  }

  lemma NoOverlapNeverStraddles(s: string, c: nat)
    requires NoOverlap(s) && c <= |s|
    ensures !Straddles(s, c)
  {
    ScanFinds(s, 0, c);
  }

  function Flat(fs: seq<string>): string {
    if fs == [] then "" else fs[0] + Flat(fs[1..])
  }

  // Each fragment is scanned behind the carry of the one before it.
  function FragmentAddresses(carry: string, fs: seq<string>): seq<string>
    decreases |fs|
  {
    if fs == [] then [] else Addresses(carry + fs[0]) + FragmentAddresses(Carry(fs[0]), fs[1..])
  }

  lemma PrefixHasNoOverlap(a: string, b: string)
    requires NoOverlap(a + b)
    ensures NoOverlap(a)
  {
    forall i, j | 0 <= i < j && AddressAt(a, i) && AddressAt(a, j) ensures j >= i + ADDRESS_LENGTH {
      assert (a + b)[i..i + ADDRESS_LENGTH] == a[i..i + ADDRESS_LENGTH];
      assert (a + b)[j..j + ADDRESS_LENGTH] == a[j..j + ADDRESS_LENGTH];
      assert AddressAt(a + b, i) && AddressAt(a + b, j);
    }
  }

  // Scanning one more fragment behind the carry of everything before it.
  lemma OneMoreFragment(done: string, f: string)
    requires NoOverlap(done + f)
    ensures Addresses(done) + Addresses(Carry(done) + f) == Addresses(done + f)
  {
    NoOverlapNeverStraddles(done + f, |done|);
    CutKeepsAddresses(done, f);
  }

  lemma Reassociate(a: seq<string>, b: seq<string>, c: seq<string>)
    ensures a + (b + c) == a + b + c
  {
  }

  lemma AddFragment(done: string, f: string, rest: seq<string>)
    requires NoOverlap(done + f)
    requires Addresses(done + f) + FragmentAddresses(Carry(f), rest) == Addresses(done + f + Flat(rest))
    ensures Addresses(done) + (Addresses(Carry(done) + f) + FragmentAddresses(Carry(f), rest))
            == Addresses(done + (f + Flat(rest)))
  {
    OneMoreFragment(done, f);
    Reassociate(Addresses(done), Addresses(Carry(done) + f), FragmentAddresses(Carry(f), rest));
    assert done + f + Flat(rest) == done + (f + Flat(rest));
  }

  lemma {:induction false} FragmentsFrom(done: string, fs: seq<string>)
    requires NoOverlap(done + Flat(fs))
    requires forall k :: 0 <= k < |fs| - 1 ==> |fs[k]| >= CARRY
    ensures Addresses(done) + FragmentAddresses(Carry(done), fs) == Addresses(done + Flat(fs))
    decreases |fs|
  {
    if fs == [] {
      assert done + Flat(fs) == done;
    } else {
      var f, rest := fs[0], fs[1..];
      assert (done + f) + Flat(rest) == done + Flat(fs);
      PrefixHasNoOverlap(done + f, Flat(rest));
      if rest == [] {
        assert done + f + Flat(rest) == done + f;
      } else {
        assert Carry(f) == Carry(done + f);
        FragmentsFrom(done + f, rest);
      }
      AddFragment(done, f, rest);
    }
  }

  // Any number of cuts keeps every address, as long as no addresses overlap and every
  // fragment but the first and the last has at least nine characters.
  lemma FragmentsKeepAddresses(fs: seq<string>)
    requires NoOverlap(Flat(fs)) && forall k :: 0 < k < |fs| - 1 ==> |fs[k]| >= CARRY
    ensures FragmentAddresses("", fs) == Addresses(Flat(fs))
  {
    if fs != [] {
      assert "" + fs[0] == fs[0];
      FragmentsFrom(fs[0], fs[1..]);
    }
  }

  // A short fragment in the middle loses an address.
  lemma ShortMiddleLosesAddress()
    ensures Addresses("0x400" + "00" + "000") == ["0x40000000"]
    ensures FragmentAddresses("", ["0x400", "00", "000"]) == []
  {
    var s := "0x400" + "00" + "000";
    assert s == "0x40000000";
    assert s[0..10] == s;
    assert AddressAt(s, 0);
    assert Scan(s, 0, |s|) == [0];
    assert [0][1..] == [];
    assert Texts(s, [0]) == [Text(s, 0)];
    assert Addresses("" + "0x400") == [];
    assert Addresses("0x400" + "00") == [];
    assert Addresses("00" + "000") == [];
    assert ["0x400", "00", "000"][1..] == ["00", "000"];
    assert ["00", "000"][1..] == ["000"];
  }
}
