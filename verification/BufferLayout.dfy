/** The index arithmetic of `Buffer`: 0 <= readerIndex <= writerIndex <= size, with the readable
    bytes between the two indices.  `Buffer` is proved to move its indices as these functions
    say; here the storage bound over every run is proved about them. */
module BufferLayout {
  import opened Util

  const CHEAP_PREPEND: nat := 8
  const EXTRA_SIZE: nat := 65536

  datatype Layout = Layout(size: nat, reader: nat, writer: nat) {
    predicate Valid() {
      CHEAP_PREPEND <= size && reader <= writer <= size
    }
    function Readable(): nat requires reader <= writer { writer - reader }
    function Writable(): nat requires writer <= size { size - writer }
    function Prependable(): nat { reader }

    /** `writableBytes() + prependableBytes() < len + kCheapPrepend`. */
    predicate MustGrow(len: nat)
      requires writer <= size
    {
      Writable() + Prependable() < len + CHEAP_PREPEND
    }

    /** What `readFd` offers to `readv`: the writable part, and `extrabuf` unless that is large. */
    function Offered(): nat
      requires writer <= size
    {
      Writable() + if Writable() < EXTRA_SIZE then EXTRA_SIZE else 0
    }
  }

  datatype Op =
    | Append(len: nat)
    | Prepend(len: nat)
    | Retrieve(len: nat)
    | RetrieveAsString(len: nat)
    | ReadFd(n: nat)

  function Initial(initialSize: nat): Layout {
    Layout(CHEAP_PREPEND + initialSize, CHEAP_PREPEND, CHEAP_PREPEND)
  }

  function MadeSpace(l: Layout, len: nat): Layout
    requires l.Valid()
  {
    if l.MustGrow(len) then l.(size := l.writer + len)
    else l.(reader := CHEAP_PREPEND, writer := CHEAP_PREPEND + l.Readable())
  }

  function Appended(l: Layout, len: nat): Layout
    requires l.Valid()
  {
    var l' := if len > l.Writable() then MadeSpace(l, len) else l;
    l'.(writer := l'.writer + len)
  }

  function Prepended(l: Layout, len: nat): Layout
    requires l.Valid()
  {
    if len > l.Prependable() then l else l.(reader := l.reader - len)
  }

  function Retrieved(l: Layout, len: nat): Layout
    requires l.Valid()
  {
    if len < l.Readable() then l.(reader := l.reader + len)
    else l.(reader := CHEAP_PREPEND, writer := CHEAP_PREPEND)
  }

  function Received(l: Layout, n: nat): Layout
    requires l.Valid()
  {
    if n <= l.Writable() then l.(writer := l.writer + n)
    else Appended(l.(writer := l.size), n - l.Writable())
  }

  /** `readv` returns no more than it was offered, and a string is taken only of bytes that are
      there; the other operations take any length. */
  predicate Enabled(l: Layout, op: Op)
    requires l.Valid()
  {
    match op
    case ReadFd(n) => n <= l.Offered()
    case RetrieveAsString(len) => len <= l.Readable()
    case _ => true
  }

  /** Every operation keeps the indices in order. */
  function Apply(l: Layout, op: Op): (r: Layout)
    requires l.Valid()
    ensures r.Valid()
  {
    match op
    case Append(len) => Appended(l, len)
    case Prepend(len) => Prepended(l, len)
    case Retrieve(len) => Retrieved(l, len)
    case RetrieveAsString(len) => Retrieved(l, len)
    case ReadFd(n) => Received(l, n)
  }

  /** Append moves the bytes left only from beyond the reserve, so the front-to-back copy never
      overwrites a byte it still has to read, and afterwards the bytes fit. */
  lemma AppendFits(l: Layout, len: nat)
    requires l.Valid()
    ensures Appended(l, len).Valid()
    ensures Appended(l, len).Readable() == l.Readable() + len
    ensures len > l.Writable() && !l.MustGrow(len) ==> CHEAP_PREPEND < l.reader
    ensures len > l.Writable() && l.MustGrow(len) ==> l.size < l.writer + len
  {
  }

  /** An emptied buffer has all its storage but the reserve to write to. */
  lemma EmptiedIsRecentred(l: Layout, len: nat)
    requires l.Valid() && l.Readable() <= len
    ensures Retrieved(l, len).Readable() == 0 && Retrieved(l, len).Writable() == l.size - CHEAP_PREPEND
  {
  }

  /** `extrabuf` bounds a read to 128k - 1 bytes; when it is not offered nothing can overflow. */
  lemma ReadFdLimits(l: Layout, n: nat)
    requires l.Valid() && Enabled(l, ReadFd(n))
    ensures l.Writable() < EXTRA_SIZE ==> n <= 131071 && n <= l.Writable() + EXTRA_SIZE
    ensures l.Writable() >= EXTRA_SIZE ==> n <= l.Writable()
  {
  }

  // ---------------------------------------------------------------- storage over whole runs

  /** The length this operation passes to `append`, directly or inside `readFd`. */
  function AppendLength(l: Layout, op: Op): nat
    requires l.Valid()
  {
    match op
    case Append(len) => len
    case ReadFd(n) => if n <= l.Writable() then 0 else n - l.Writable()
    case _ => 0
  }

  predicate ValidRun(l: Layout, ops: seq<Op>)
    requires l.Valid()
    decreases |ops|
  {
    ops == [] ||
    (Enabled(l, ops[0]) && ValidRun(Apply(l, ops[0]), ops[1..]))
  }

  function After(l: Layout, ops: seq<Op>): (r: Layout)
    requires l.Valid() && ValidRun(l, ops)
    ensures r.Valid()
    decreases |ops|
  {
    if ops == [] then l else After(Apply(l, ops[0]), ops[1..])
  }

  /** Over every run without a prepend the reserve stays free, so a prepend of up to eight bytes is
      then taken. */
  lemma {:induction false} ReserveStaysFree(l: Layout, ops: seq<Op>, len: nat)
    requires l.Valid() && ValidRun(l, ops) && CHEAP_PREPEND <= l.reader
    requires (forall op :: op in ops ==> !op.Prepend?) && len <= CHEAP_PREPEND
    ensures CHEAP_PREPEND <= After(l, ops).reader
    ensures Prepended(After(l, ops), len).Readable() == After(l, ops).Readable() + len
    decreases |ops|
  {
    if ops != [] {
      assert ops[0] in ops;
      ReserveStaysFree(Apply(l, ops[0]), ops[1..], len);
    }
  }

  function PeakReadable(l: Layout, ops: seq<Op>): nat
    requires l.Valid() && ValidRun(l, ops)
    decreases |ops|
  {
    if ops == [] then l.Readable()
    else Max(l.Readable(), PeakReadable(Apply(l, ops[0]), ops[1..]))
  }

  function LongestAppend(l: Layout, ops: seq<Op>): nat
    requires l.Valid() && ValidRun(l, ops)
    decreases |ops|
  {
    if ops == [] then 0
    else Max(AppendLength(l, ops[0]), LongestAppend(Apply(l, ops[0]), ops[1..]))
  }

  /** One operation: storage grows only to what the readable bytes and this append need. */
  lemma GrowthStep(l: Layout, op: Op)
    requires l.Valid() && Enabled(l, op)
    ensures Apply(l, op).size <= Max(l.size, Apply(l, op).Readable() + AppendLength(l, op) + CHEAP_PREPEND - 1)
  {
  }

  lemma {:induction false} SizeOverRun(l: Layout, ops: seq<Op>)
    requires l.Valid() && ValidRun(l, ops)
    ensures After(l, ops).size <= Max(l.size, PeakReadable(l, ops) + LongestAppend(l, ops) + CHEAP_PREPEND - 1)
    decreases |ops|
  {
    if ops != [] {
      GrowthStep(l, ops[0]);
      SizeOverRun(Apply(l, ops[0]), ops[1..]);
    }
  }

  /** Over every run from a fresh buffer the storage stays within the initial size or the peak
      readable count plus the longest append plus seven. */
  lemma MemoryBound(initialSize: nat, ops: seq<Op>)
    requires ValidRun(Initial(initialSize), ops)
    ensures var l := Initial(initialSize);
            After(l, ops).size <= Max(8 + initialSize, PeakReadable(l, ops) + LongestAppend(l, ops) + 7)
  {
    SizeOverRun(Initial(initialSize), ops);
  }

  /** No smaller constant will do. */
  lemma MemoryBoundIsTight()
    ensures exists initialSize: nat, ops ::
              var l := Initial(initialSize);
              ValidRun(l, ops) &&
              After(l, ops).size == PeakReadable(l, ops) + LongestAppend(l, ops) + 7 > 8 + initialSize
  {
    var l, ops := Initial(0), [Append(1)];
    assert Apply(l, ops[0]) == Layout(9, 8, 9);
    assert ops[1..] == [];
    assert ValidRun(l, ops) && After(l, ops).size == 9;
  }
}
