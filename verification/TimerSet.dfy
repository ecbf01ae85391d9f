/** The ordered set `_pTimers`: entries (stamp, pointer) in lexicographic order, as `std::set`
    keeps them, here in a sequence. */
module TimerSet {
  const UINTPTR_MAX: nat := 0xFFFF_FFFF_FFFF_FFFF

  /** Where a `Timer` object lives; the sentinel address is no object's. */
  type Addr = a: nat | a < UINTPTR_MAX

  datatype Entry = Entry(stamp: int, addr: nat)

  /** `operator<` of `std::pair<Timestamp, Timer*>`. */
  predicate Less(a: Entry, b: Entry) {
    a.stamp < b.stamp || (a.stamp == b.stamp && a.addr < b.addr)
  }

  ghost predicate Sorted(es: seq<Entry>) {
    forall i, j :: 0 <= i < j < |es| ==> Less(es[i], es[j])
  }

  /** The position `lower_bound` returns: the first entry not less than `x`. */
  function LowerBound(es: seq<Entry>, x: Entry): (k: nat)
    ensures k <= |es|
    ensures forall i :: 0 <= i < k ==> Less(es[i], x)
    ensures k < |es| ==> !Less(es[k], x)
  {
    if es == [] || !Less(es[0], x) then 0 else 1 + LowerBound(es[1..], x)
  }

  lemma LowerBoundSplits(es: seq<Entry>, x: Entry)
    requires Sorted(es)
    ensures forall i :: LowerBound(es, x) <= i < |es| ==> !Less(es[i], x)
    ensures x in es <==> LowerBound(es, x) < |es| && es[LowerBound(es, x)] == x
  {
    var k := LowerBound(es, x);
    forall i | k <= i < |es| ensures !Less(es[i], x) {
      if i > k {
        assert Less(es[k], es[i]);
      }
    }
  }

  predicate Holds(es: seq<Entry>, x: Entry) {
    LowerBound(es, x) < |es| && es[LowerBound(es, x)] == x
  }

  function Inserted(es: seq<Entry>, x: Entry): seq<Entry> {
    var k := LowerBound(es, x);
    if Holds(es, x) then es else es[..k] + [x] + es[k..]
  }

  function Erased(es: seq<Entry>, x: Entry): seq<Entry> {
    var k := LowerBound(es, x);
    if Holds(es, x) then es[..k] + es[k + 1..] else es
  }

  lemma SortedSlices(es: seq<Entry>, k: nat)
    requires Sorted(es) && k <= |es|
    ensures Sorted(es[..k]) && Sorted(es[k..])
    ensures forall e :: e in es <==> e in es[..k] || e in es[k..]
    ensures forall a, b :: a in es[..k] && b in es[k..] ==> Less(a, b)
  {
    assert es == es[..k] + es[k..];
  }

  lemma SortedConcat(a: seq<Entry>, b: seq<Entry>)
    requires Sorted(a) && Sorted(b)
    requires forall x, y :: x in a && y in b ==> Less(x, y)
    ensures Sorted(a + b)
  {
  }

  lemma InsertedIsSorted(es: seq<Entry>, x: Entry)
    requires Sorted(es)
    ensures Sorted(Inserted(es, x))
    ensures forall e :: e in Inserted(es, x) <==> e in es || e == x
  {
    LowerBoundSplits(es, x);
    if !Holds(es, x) {
      var k := LowerBound(es, x);
      SortedSlices(es, k);
      SortedConcat(es[..k], [x]);
      forall y | y in es[k..] ensures Less(x, y) {
        var j :| k <= j < |es| && es[j] == y;
        assert y in es;
      }
      SortedConcat(es[..k] + [x], es[k..]);
    }
  }

  lemma ErasedIsSorted(es: seq<Entry>, x: Entry)
    requires Sorted(es)
    ensures Sorted(Erased(es, x))
    ensures forall e :: e in Erased(es, x) <==> e in es && e != x
  {
    LowerBoundSplits(es, x);
    if Holds(es, x) {
      var k := LowerBound(es, x);
      var a, b := es[..k], es[k + 1..];
      SortedSlices(es, k);
      SortedSlices(es, k + 1);
      assert es[..k + 1] == a + [x];
      SortedConcat(a, b);
    }
  }

  /** The first entry after an insertion or a removal. */
  lemma FirstAfterInsert(es: seq<Entry>, x: Entry)
    requires Sorted(es)
    ensures Inserted(es, x) != []
    ensures Inserted(es, x)[0] == if es == [] || Less(x, es[0]) then x else es[0]
  {
    LowerBoundSplits(es, x);
  }

  lemma FirstAfterErase(es: seq<Entry>, x: Entry)
    requires Sorted(es) && Erased(es, x) != []
    ensures es != [] && es[0].stamp <= Erased(es, x)[0].stamp
  {
    ErasedIsSorted(es, x);
    var first := Erased(es, x)[0];
    assert first in es;
  }

  // ---------------------------------------------------------------- expiry

  /** `getExpired` compares with (now, UINTPTR_MAX). */
  function Expired(es: seq<Entry>, now: int): seq<Entry> {
    es[..LowerBound(es, Entry(now, UINTPTR_MAX))]
  }

  function Remaining(es: seq<Entry>, now: int): seq<Entry> {
    es[LowerBound(es, Entry(now, UINTPTR_MAX))..]
  }

  ghost predicate ObjectAddresses(es: seq<Entry>) {
    forall e :: e in es ==> e.addr < UINTPTR_MAX
  }

  /** The sentinel cuts the set exactly between stamps up to `now` and later ones. */
  lemma SentinelCutsAtNow(es: seq<Entry>, now: int)
    requires Sorted(es) && ObjectAddresses(es)
    ensures Sorted(Expired(es, now)) && Sorted(Remaining(es, now))
    ensures forall e :: e in Expired(es, now) <==> e in es && e.stamp <= now
    ensures forall e :: e in Remaining(es, now) <==> e in es && now < e.stamp
  {
    var x := Entry(now, UINTPTR_MAX);
    var k := LowerBound(es, x);
    LowerBoundSplits(es, x);
    SortedSlices(es, k);
    forall e | e in es[k..] ensures now < e.stamp {
      var i :| k <= i < |es| && es[i] == e;
      assert !Less(es[i], x) && es[i] in es;
    }
  }
}
