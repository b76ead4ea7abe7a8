/** Exactly which cuts of a monitor line keep its address lookups: for one cut, what the
    flushed part must not end with; for several cuts, how long the fragments must be. */
module AddressCuts {
  import opened AddressScan

  // ----- one cut: what the flushed part may end with -----

  // A beginning of an address.
  predicate Begins(w: string) {
    && |w| <= ADDRESS_LENGTH
    && (|w| > 0 ==> w[0] == '0')
    && (|w| > 1 ==> w[1] == 'x' || w[1] == 'X')
    && (|w| > 2 ==> w[2] == '4')
    && forall k :: 3 <= k < |w| ==> IsHex(w[k])
  }

  // The last digit of the last address found in `a` is carried, and all that follows it
  // could be the beginning of another address.
  predicate EndsOpen(a: string) {
    var ps := Scan(a, 0, |a|);
    && ps != [] && ps[|ps| - 1] + CARRY >= CarryStart(|a|) && ps[|ps| - 1] + CARRY < |a|
    && Begins(a[ps[|ps| - 1] + CARRY..])
  }

  ghost predicate CutKeeps(a: string, b: string) {
    Addresses(a) + Addresses(Carry(a) + b) == Addresses(a + b)
  }

  lemma {:induction false} ShiftZero(ps: seq<nat>)
    ensures Shift(ps, 0) == ps
    decreases |ps|
  {
    if ps != [] {
      ShiftZero(ps[1..]);
    }
  }

  lemma ScanOfPrefix(a: string, b: string)
    ensures Scan(a + b, 0, |a|) == Scan(a, 0, |a|)
  {
    var s := a + b;
    assert s[0..|a|] == a;
    ScanSlice(s, 0, |a|, 0);
    ShiftZero(Scan(a, 0, |a|));
  }

  lemma BeginningOfAddress(s: string, q: nat, c: nat)
    requires AddressAt(s, q) && q <= c <= |s| && c <= q + ADDRESS_LENGTH
    ensures Begins(s[q..c])
  {
    var w := s[q..q + ADDRESS_LENGTH];
    assert forall k :: 0 <= k < c - q ==> s[q..c][k] == w[k];
  }

  lemma StraddlingEndsOpen(a: string, b: string)
    requires Straddles(a + b, |a|)
    ensures EndsOpen(a)
  {
    var q := LastStraddles(a + b, |a|);
    ScanOfPrefix(a, b);
    BeginningOfAddress(a + b, q, |a|);
    assert (a + b)[q..|a|] == a[q..];
  }

  lemma LastStraddles(s: string, c: nat) returns (q: nat)
    requires c <= |s| && Straddles(s, c)
    ensures Scan(s, 0, c) != [] && q == Scan(s, 0, c)[|Scan(s, 0, c)| - 1] + CARRY
    ensures CarryStart(c) <= q < c && AddressAt(s, q)
  {
    var ps := Scan(s, 0, c);
    var k :| 0 <= k < |ps| && EndsInAddress(s, c, ps[k]);
    q := ps[k] + CARRY;
    ResumeIsBehindLast(s, 0, c);
    OnlyLastDigit(s, c, q);
    ScanFinds(s, 0, c);
  }

  // What completes a beginning to an address.
  function Completion(n: nat): (b: string)
    requires n <= ADDRESS_LENGTH
    ensures |b| == ADDRESS_LENGTH - n
  {
    "0x40000000"[n..]
  }

  lemma CompletionCompletes(w: string)
    requires Begins(w)
    ensures IsAddress(w + Completion(|w|))
  {
    var v := w + Completion(|w|);
    assert forall k :: |w| <= k < ADDRESS_LENGTH ==> v[k] == "0x40000000"[k];
  }

  lemma {:induction false} TextsCount(s: string, ps: seq<nat>)
    ensures |Texts(s, ps)| == |ps|
    decreases |ps|
  {
    if ps != [] {
      TextsCount(s, ps[1..]);
    }
  }

  // An open end is looked up once more when the rest of the address arrives.
  lemma OpenEndRepeats(a: string) returns (b: string)
    requires EndsOpen(a)
    ensures b == Completion(|a| - CARRY - Scan(a, 0, |a|)[|Scan(a, 0, |a|)| - 1]) && !CutKeeps(a, b)
    ensures |Addresses(a) + Addresses(Carry(a) + b)| > |Addresses(a + b)|
  {
    var c := |a|;
    var ps := Scan(a, 0, c);
    var q := ps[|ps| - 1] + CARRY;
    b := Completion(c - q);
    var s := a + b;
    CompletedAt(a, q);
    ScanOfPrefix(a, b);
    CutFindsMore(s, c, q);
    CutAddresses(a, b);
    TextsCount(s, CutPositions(s, c));
    TextsCount(s, Scan(s, 0, |s|));
  }

  // An address at the last digit of the last one found is found by the cut line alone.
  lemma CutFindsMore(s: string, c: nat, q: nat)
    requires c <= |s| && CarryStart(c) <= q && AddressAt(s, q) && |s| == q + ADDRESS_LENGTH
    requires Scan(s, 0, c) != [] && Scan(s, 0, c)[|Scan(s, 0, c)| - 1] + CARRY == q
    ensures |CutPositions(s, c)| > |Scan(s, 0, |s|)|
  {
    ResumeIsBehindLast(s, 0, c);
    ScanSplits(s, 0, c);
    assert Scan(s, Resume(s, 0, c), |s|) == [];
    FindsEarlier(s, CarryStart(c), q);
  }

  // Whatever follows the flushed part, the lookups are those of the uncut line: if and
  // only if the flushed part does not end open.
  lemma CutKeepsLookupsIff(a: string)
    ensures (forall b :: CutKeeps(a, b)) <==> !EndsOpen(a)
  {
    if EndsOpen(a) {
      var b := OpenEndRepeats(a);
    } else {
      forall b ensures CutKeeps(a, b) {
        if Straddles(a + b, |a|) {
          StraddlingEndsOpen(a, b);
          assert false;
        }
        CutKeepsAddresses(a, b);
      }
    }
  }

  // An address that ends with a zero, and then what would complete a second one.
  lemma RepeatedLookup()
    ensures EndsOpen("0x40000000") && !CutKeeps("0x40000000", "x40000000")
  {
    var a := "0x40000000";
    assert a[0..10] == a;
    assert AddressAt(a, 0);
    assert Scan(a, 0, 10) == [0];
    assert a[9..] == "0";
    assert Completion(1) == "x40000000";
    var b := OpenEndRepeats(a);
  }

  // ----- a carry that meets another line -----

  // A carried end of `a` could be the beginning of an address.
  predicate EndsInBeginning(a: string) {
    exists q :: CarryStart(|a|) <= q < |a| && Begins(a[q..])
  }

  lemma NothingCarried(a: string, l: string)
    requires !EndsInBeginning(a)
    ensures Addresses(Carry(a) + l) == Addresses(l)
  {
    var s, n := Carry(a) + l, |Carry(a)|;
    forall q: nat | 0 <= q < n ensures !AddressAt(s, q) {
      assert s[q..n] == a[CarryStart(|a|) + q..];
      if AddressAt(s, q) {
        BeginningOfAddress(s, q, n);
        assert false;
      }
    }
    SkipToNext(s, 0, n, |s|);
    AddressesOfSlice(s, n, |s|);
    AddressesOfSlice(s, 0, |s|);
    assert s[n..|s|] == l && s[0..|s|] == s;
  }

  // What completes the beginning is a line that holds no address itself.
  lemma CarriedBeginning(a: string, q: nat)
    requires CarryStart(|a|) <= q < |a| && Begins(a[q..])
    ensures var l := Completion(|a| - q); l != "" && Addresses(l) == [] && Addresses(Carry(a) + l) != []
  {
    var l := Completion(|a| - q);
    CompletedInCarry(a, q);
    HasAddress(Carry(a) + l, q - CarryStart(|a|));
  }

  lemma CompletedInCarry(a: string, q: nat)
    requires CarryStart(|a|) <= q < |a| && Begins(a[q..])
    ensures AddressAt(Carry(a) + Completion(|a| - q), q - CarryStart(|a|))
  {
    var c, p := Carry(a), q - CarryStart(|a|);
    assert c == a[CarryStart(|a|)..];
    assert c[p..] == a[q..];
    CompletedAt(c, p);
  }

  // A text that ends with the beginning of an address, completed.
  lemma CompletedAt(c: string, p: nat)
    requires p <= |c| && Begins(c[p..])
    ensures AddressAt(c + Completion(|c| - p), p)
  {
    var l := Completion(|c| - p);
    CompletionCompletes(c[p..]);
    assert (c + l)[p..p + ADDRESS_LENGTH] == c[p..] + l;
  }

  lemma HasAddress(s: string, p: nat)
    requires AddressAt(s, p)
    ensures Addresses(s) != []
  {
    FindsEarlier(s, 0, p);
    TextsCount(s, Scan(s, 0, |s|));
  }

  // ----- several cuts: how long the fragments must be -----

  function Sum(ls: seq<nat>): nat {
    if ls == [] then 0 else ls[0] + Sum(ls[1..])
  }

  ghost predicate HaveLengths(fs: seq<string>, ls: seq<nat>) {
    |fs| == |ls| && forall k :: 0 <= k < |fs| ==> |fs[k]| == ls[k]
  }

  // Every line without overlapping addresses keeps its lookups when cut at these lengths.
  ghost predicate LengthsKeep(ls: seq<nat>) {
    forall fs :: HaveLengths(fs, ls) && NoOverlap(Flat(fs)) ==> FragmentAddresses("", fs) == Addresses(Flat(fs))
  }

  predicate LongMiddles(ls: seq<nat>) {
    forall k :: 0 < k < |ls| - 1 ==> ls[k] >= CARRY
  }

  // --- a line too short for any address ---

  lemma {:induction false} FlatLength(fs: seq<string>, ls: seq<nat>)
    requires HaveLengths(fs, ls)
    ensures |Flat(fs)| == Sum(ls)
    decreases |fs|
  {
    if fs != [] {
      FlatLength(fs[1..], ls[1..]);
    }
  }

  lemma {:induction false} ShortFindsNothing(carry: string, fs: seq<string>)
    requires |carry| + |Flat(fs)| < ADDRESS_LENGTH
    ensures FragmentAddresses(carry, fs) == []
    decreases |fs|
  {
    if fs != [] {
      assert Addresses(carry + fs[0]) == [];
      ShortFindsNothing(Carry(fs[0]), fs[1..]);
    }
  }

  // --- a line whose only address is missed ---

  const SAMPLE: string := "0x40000000"

  function Blank(n: nat): (s: string)
    ensures |s| == n && forall k :: 0 <= k < n ==> s[k] == '-'
  {
    seq(n, i => '-')
  }

  function LineWith(p: nat, after: nat): (s: string)
    ensures |s| == p + ADDRESS_LENGTH + after
  {
    Blank(p) + SAMPLE + Blank(after)
  }

  ghost predicate OnlyAddress(s: string, p: nat) {
    forall q: nat :: AddressAt(s, q) ==> q == p
  }

  lemma LineHasOneAddress(p: nat, after: nat)
    ensures AddressAt(LineWith(p, after), p) && OnlyAddress(LineWith(p, after), p)
  {
    var s := LineWith(p, after);
    assert s[p..p + ADDRESS_LENGTH] == SAMPLE;
    forall q: nat | AddressAt(s, q) ensures q == p {
      var w := s[q..q + ADDRESS_LENGTH];
      assert w[0] == s[q] && w[1] == s[q + 1];
      assert forall k :: p <= k < p + ADDRESS_LENGTH ==> s[k] == SAMPLE[k - p];
    }
  }

  lemma LineShowsItsAddress(p: nat, after: nat)
    ensures OnlyAddress(LineWith(p, after), p) && NoOverlap(LineWith(p, after))
    ensures Addresses(LineWith(p, after)) != []
  {
    var s := LineWith(p, after);
    LineHasOneAddress(p, after);
    FindsEarlier(s, 0, p);
    TextsCount(s, Scan(s, 0, |s|));
  }

  lemma {:induction false} ScanMisses(s: string, p: nat, from: nat, hi: nat)
    requires hi <= |s| && OnlyAddress(s, p) && (p < from || hi < p + ADDRESS_LENGTH)
    ensures Scan(s, from, hi) == []
    decreases |s| - from
  {
    if from + ADDRESS_LENGTH <= hi {
      assert !AddressAt(s, from);
      ScanMisses(s, p, from + 1, hi);
    }
  }

  function Cut(s: string, ls: seq<nat>): (fs: seq<string>)
    requires |s| == Sum(ls)
    ensures HaveLengths(fs, ls) && Flat(fs) == s
    decreases |ls|
  {
    if ls == [] then [] else [s[..ls[0]]] + Cut(s[ls[0]..], ls[1..])
  }

  // The fragment from `at` on is scanned behind what is carried of the one from `prev`
  // on; neither it nor any later one shows the address at p.
  predicate Missed(p: nat, prev: nat, at: nat, ls: seq<nat>)
    decreases |ls|
  {
    || ls == []
    || ((at + ls[0] < p + ADDRESS_LENGTH || p < prev) && Missed(p, at, at + ls[0], ls[1..]))
  }

  lemma CarriedText(s: string, prev: nat, at: nat, end: nat) returns (a: nat)
    requires prev <= at <= end <= |s|
    ensures prev <= a <= at && Carry(s[prev..at]) + s[at..end] == s[a..end]
  {
    var t := s[prev..at];
    a := prev + |t| - |Carry(t)|;
    assert Carry(t) == t[|t| - |Carry(t)|..];
    SliceOfSlice(s, prev, at, |t| - |Carry(t)|, |t|);
    assert s[a..at] + s[at..end] == s[a..end];
  }

  lemma {:induction false} MissedFindsNothing(s: string, p: nat, prev: nat, at: nat, ls: seq<nat>)
    requires OnlyAddress(s, p) && prev <= at <= |s| && |s| - at == Sum(ls) && Missed(p, prev, at, ls)
    ensures FragmentAddresses(Carry(s[prev..at]), Cut(s[at..], ls)) == []
    decreases |ls|
  {
    if ls != [] {
      var end := at + ls[0];
      var a := CarriedText(s, prev, at, end);
      assert s[at..][..ls[0]] == s[at..end] && s[at..][ls[0]..] == s[end..];
      AddressesOfSlice(s, a, end);
      ScanMisses(s, p, a, end);
      MissedFindsNothing(s, p, at, end, ls[1..]);
      assert Cut(s[at..], ls)[1..] == Cut(s[end..], ls[1..]);
    }
  }

  lemma {:induction false} BehindIsMissed(p: nat, prev: nat, at: nat, ls: seq<nat>)
    requires p < prev <= at
    ensures Missed(p, prev, at, ls)
    decreases |ls|
  {
    if ls != [] {
      BehindIsMissed(p, at, at + ls[0], ls[1..]);
    }
  }

  // An address that covers fragment k and a character on either side is missed.
  lemma {:induction false} CoveringIsMissed(p: nat, prev: nat, at: nat, ls: seq<nat>, k: nat)
    requires k < |ls| && p < at + Sum(ls[..k]) && at + Sum(ls[..k]) + ls[k] < p + ADDRESS_LENGTH
    ensures Missed(p, prev, at, ls)
    decreases k
  {
    if k == 0 {
      assert ls[..0] == [];
      BehindIsMissed(p, at, at + ls[0], ls[1..]);
    } else {
      assert ls[..k][1..] == ls[1..][..k - 1];
      CoveringIsMissed(p, at, at + ls[0], ls[1..], k - 1);
    }
  }

  lemma {:induction false} SumSplits(ls: seq<nat>, k: nat)
    requires k < |ls|
    ensures Sum(ls) == Sum(ls[..k]) + ls[k] + Sum(ls[k + 1..])
    decreases k
  {
    if k == 0 {
      assert ls[..0] == [];
    } else {
      assert ls[..k][1..] == ls[1..][..k - 1] && ls[1..][k..] == ls[k + 1..];
      SumSplits(ls[1..], k - 1);
    }
  }

  lemma {:induction false} SumPositive(ls: seq<nat>)
    requires ls != [] && forall k :: 0 <= k < |ls| ==> ls[k] > 0
    ensures Sum(ls) > 0
  {
  }

  // Where an address covers fragment k and a character on either side.
  lemma Covering(ls: seq<nat>, k: nat) returns (p: nat)
    requires forall i :: 0 <= i < |ls| ==> ls[i] > 0
    requires 0 < k < |ls| - 1 && ls[k] < CARRY && Sum(ls) >= ADDRESS_LENGTH
    ensures p < Sum(ls[..k]) && Sum(ls[..k]) + ls[k] < p + ADDRESS_LENGTH <= Sum(ls)
  {
    SumSplits(ls, k);
    SumPositive(ls[..k]);
    SumPositive(ls[k + 1..]);
    var before := Sum(ls[..k]);
    p := if before + ls[k] <= CARRY then 0 else before + ls[k] - CARRY;
  }

  // Lengths with a short middle have a line whose address no scan shows.
  lemma ShortMiddleLoses(ls: seq<nat>, k: nat) returns (fs: seq<string>)
    requires forall i :: 0 <= i < |ls| ==> ls[i] > 0
    requires 0 < k < |ls| - 1 && ls[k] < CARRY && Sum(ls) >= ADDRESS_LENGTH
    ensures HaveLengths(fs, ls) && NoOverlap(Flat(fs))
    ensures FragmentAddresses("", fs) == [] && Addresses(Flat(fs)) != []
  {
    var p := Covering(ls, k);
    var s := LineWith(p, Sum(ls) - ADDRESS_LENGTH - p);
    LineShowsItsAddress(p, Sum(ls) - ADDRESS_LENGTH - p);
    fs := Cut(s, ls);
    CoveringIsMissed(p, 0, 0, ls, k);
    MissedFindsNothing(s, p, 0, 0, ls);
    assert s[0..] == s && Carry(s[0..0]) == "";
  }

  // Cutting at these lengths keeps the lookups of every line without overlapping
  // addresses if and only if there is no room for an address at all, or every fragment
  // but the first and the last has at least nine characters.
  lemma LengthsKeepIff(ls: seq<nat>)
    requires forall k :: 0 <= k < |ls| ==> ls[k] > 0
    ensures LengthsKeep(ls) <==> Sum(ls) < ADDRESS_LENGTH || LongMiddles(ls)
  {
    if Sum(ls) >= ADDRESS_LENGTH && !LongMiddles(ls) {
      var k :| 0 < k < |ls| - 1 && ls[k] < CARRY;
      var fs := ShortMiddleLoses(ls, k);
    } else {
      forall fs | HaveLengths(fs, ls) && NoOverlap(Flat(fs))
        ensures FragmentAddresses("", fs) == Addresses(Flat(fs))
      {
        if LongMiddles(ls) {
          FragmentsKeepAddresses(fs);
        } else {
          FlatLength(fs, ls);
          ShortFindsNothing("", fs);
        }
      }
    }
  }
}
