/** `Buffer`: a byte window sliding inside one array, compacted in place and regrown on demand.
    Every method is proved to act on `Contents()` as the same operation acts on a byte queue,
    and to move the indices as `BufferLayout` says. */
module ByteBuffer {
  import opened BufferLayout
  import opened Util

  type byte = bv8

  /** What `readv` did: an error number, or the bytes it took off the stream. */
  datatype ReadResult = ReadError(errno: int) | Data(bytes: seq<byte>)

  /** The loop of `std::copy(a + from, a + to, a + dst)` inside one array: front to back, which is
      right as long as the target starts before the source. */
  method CopyWithin(a: array<byte>, from: nat, to: nat, dst: nat)
    requires dst < from <= to <= a.Length
    modifies a
    ensures a[dst..dst + (to - from)] == old(a[from..to])
    ensures a[..dst] == old(a[..dst])
  {
    for i := from to to
      invariant a[dst..dst + (i - from)] == old(a[from..i])
      invariant a[..dst] == old(a[..dst])
      invariant forall k :: i <= k < a.Length ==> a[k] == old(a[k])
    {
      a[dst + (i - from)] := a[i];
      assert a[dst..dst + (i - from)] == old(a[from..i]);
    }
  }

  /** `std::copy` from foreign storage. */
  method CopyInto(data: seq<byte>, a: array<byte>, dst: nat)
    requires dst + |data| <= a.Length
    modifies a
    ensures a[dst..dst + |data|] == data
    ensures a[..dst] == old(a[..dst])
    ensures a[dst + |data|..] == old(a[dst + |data|..])
  {
    for i := 0 to |data|
      invariant forall k :: 0 <= k < i ==> a[dst + k] == data[k]
      invariant forall k :: 0 <= k < a.Length && !(dst <= k < dst + i) ==> a[k] == old(a[k])
    {
      a[dst + i] := data[i];
    }
  }

  /** Two arrays that agree up to `size` show the same window below it. */
  lemma SameWindow(s: seq<byte>, t: seq<byte>, size: nat, lo: nat, hi: nat)
    requires lo <= hi <= size <= |s| && size <= |t| && s[..size] == t[..size]
    ensures s[lo..hi] == t[lo..hi]
  {
    forall k | 0 <= k < hi - lo ensures s[lo..hi][k] == t[lo..hi][k] {
      assert s[..size][lo + k] == t[..size][lo + k];
    }
  }

  class Buffer {
    var buf: array<byte>
    var readerIndex: nat
    var writerIndex: nat

    function Indices(): Layout
      reads this
    {
      Layout(buf.Length, readerIndex, writerIndex)
    }

    ghost predicate Valid()
      reads this
    {
      Indices().Valid()
    }

    ghost function Contents(): seq<byte>
      requires Valid()
      reads this, buf
    {
      buf[readerIndex..writerIndex]
    }

    /** The storage is the old array or a new one. */
    twostate predicate OwnsStorage()
      reads this
    {
      buf == old(buf) || fresh(buf)
    }

    constructor (initialSize: nat)
      ensures Valid() && fresh(buf)
      ensures Contents() == [] && Indices() == Initial(initialSize)
    {
      buf := new byte[CHEAP_PREPEND + initialSize](_ => 0);
      readerIndex := CHEAP_PREPEND;
      writerIndex := CHEAP_PREPEND;
    }

    /** `prepend`: refused when the bytes do not fit before the reader index. */
    method Prepend(data: seq<byte>)
      requires Valid()
      modifies this, buf
      ensures Valid() && buf == old(buf)
      ensures Indices() == Prepended(old(Indices()), |data|)
      ensures Contents() == if |data| <= old(readerIndex) then data + old(Contents()) else old(Contents())
    {
      if |data| > readerIndex {
        return;
      }
      readerIndex := readerIndex - |data|;
      CopyInto(data, buf, readerIndex);
      assert old(Contents()) == buf[readerIndex + |data|..writerIndex];
    }

    /** `retrieve`: drops bytes from the front; taking all of them recentres the window. */
    method Retrieve(len: nat)
      requires Valid()
      modifies this
      ensures Valid() && buf == old(buf)
      ensures Indices() == Retrieved(old(Indices()), len)
      ensures Contents() == if len < |old(Contents())| then old(Contents())[len..] else []
    {
      if len < writerIndex - readerIndex {
        readerIndex := readerIndex + len;
      } else {
        readerIndex := CHEAP_PREPEND;
        writerIndex := CHEAP_PREPEND;
      }
    }

    /** `retrieveAsString`: the caller may ask only for bytes that are there. */
    method RetrieveAsString(len: nat) returns (result: seq<byte>)
      requires Valid() && len <= |Contents()|
      modifies this
      ensures Valid() && buf == old(buf)
      ensures Indices() == Retrieved(old(Indices()), len)
      ensures result + Contents() == old(Contents()) && |result| == len
    {
      result := buf[readerIndex..readerIndex + len];
      Retrieve(len);
    }

    method RetrieveAllAsString() returns (result: seq<byte>)
      requires Valid()
      modifies this
      ensures Valid() && buf == old(buf)
      ensures result == old(Contents()) && Contents() == []
      ensures Indices() == Retrieved(old(Indices()), |result|)
    {
      result := RetrieveAsString(writerIndex - readerIndex);
    }

    /** `_buf.resize(n)` of the vector: the old bytes, then zeros. */
    method Resize(n: nat)
      requires Valid() && buf.Length <= n
      modifies this`buf
      ensures fresh(buf) && buf.Length == n
      ensures buf[..old(buf.Length)] == old(buf[..])
    {
      var data := buf[..];
      buf := new byte[n](_ => 0);
      CopyInto(data, buf, 0);
      assert buf[..|data|] == buf[0..0 + |data|];
    }

    /** `makeSpace`: regrow, or reclaim the space before the reader index. */
    method MakeSpace(len: nat)
      requires Valid() && len > Indices().Writable()
      modifies this, buf
      ensures Valid() && OwnsStorage()
      ensures Indices() == MadeSpace(old(Indices()), len) && len <= Indices().Writable()
      ensures Contents() == old(Contents())
    {
      if Indices().MustGrow(len) {
        ghost var size := buf.Length;
        Resize(writerIndex + len);
        assert buf[..][..size] == buf[..size];
        SameWindow(buf[..], old(buf[..]), size, readerIndex, writerIndex);
      } else {
        var readable := writerIndex - readerIndex;
        CopyWithin(buf, readerIndex, writerIndex, CHEAP_PREPEND);
        readerIndex := CHEAP_PREPEND;
        writerIndex := readerIndex + readable;
      }
    }

    method Append(data: seq<byte>)
      requires Valid()
      modifies this, buf
      ensures Valid() && OwnsStorage()
      ensures Indices() == Appended(old(Indices()), |data|)
      ensures Contents() == old(Contents()) + data
    {
      if |data| > buf.Length - writerIndex {
        MakeSpace(|data|);
      }
      Fill(data);
      writerIndex := writerIndex + |data|;
    }

    /** Bytes stored from the writer index on; the writer index itself is moved afterwards. */
    method Fill(data: seq<byte>)
      requires Valid() && |data| <= Indices().Writable()
      modifies buf
      ensures buf[readerIndex..writerIndex + |data|] == old(Contents()) + data
    {
      CopyInto(data, buf, writerIndex);
      assert buf[..][..writerIndex] == buf[..writerIndex] && old(buf[..])[..writerIndex] == old(buf[..writerIndex]);
      SameWindow(buf[..], old(buf[..]), writerIndex, readerIndex, writerIndex);
      assert buf[readerIndex..writerIndex + |data|] == buf[readerIndex..writerIndex] + buf[writerIndex..writerIndex + |data|];
    }

    /** `readFd`: `readv` fills the writable part first and `extrabuf` with the rest; the rest is
        appended.  All `n` bytes arrive in stream order, whatever the append has to do. */
    method ReadFd(input: ReadResult) returns (n: int, savedErrno: int)
      requires Valid()
      requires input.Data? ==> |input.bytes| <= Indices().Offered()
      modifies this, buf
      ensures Valid() && OwnsStorage()
      ensures input.ReadError? ==> n == -1 && savedErrno == input.errno && Indices() == old(Indices())
      ensures input.Data? ==> n == |input.bytes| && savedErrno == 0 && Indices() == Received(old(Indices()), n)
      ensures Contents() == old(Contents()) + if input.Data? then input.bytes else []
    {
      savedErrno := 0;
      var writable := buf.Length - writerIndex;
      match input {
        case ReadError(errno) =>
          n, savedErrno := -1, errno;
        case Data(bytes) =>
          n := |bytes|;
          if n <= writable {
            Fill(bytes);
            writerIndex := writerIndex + n;
          } else {
            ReceiveOverflow(bytes, writable);
          }
      }
    }

    /** The last branch of `readFd`: the array is full and `extrabuf` holds the rest. */
    method ReceiveOverflow(bytes: seq<byte>, writable: nat)
      requires Valid() && writable == Indices().Writable() < |bytes|
      modifies this, buf
      ensures Valid() && OwnsStorage()
      ensures Indices() == Received(old(Indices()), |bytes|)
      ensures Contents() == old(Contents()) + bytes
    {
      ghost var contents := Contents();
      Fill(bytes[..writable]);
      var extrabuf := bytes[writable..];
      writerIndex := buf.Length;
      assert Contents() == contents + bytes[..writable];
      Append(extrabuf);
      assert contents + bytes[..writable] + extrabuf == contents + bytes;
    }
  }

  // ---------------------------------------------------------------- whole runs

  datatype Call =
    | CallAppend(data: seq<byte>)
    | CallPrepend(data: seq<byte>)
    | CallRetrieve(len: nat)
    | CallRetrieveAsString(len: nat)
    | CallReadFd(data: seq<byte>)

  function OpOf(call: Call): Op {
    match call
    case CallAppend(data) => BufferLayout.Append(|data|)
    case CallPrepend(data) => BufferLayout.Prepend(|data|)
    case CallRetrieve(len) => BufferLayout.Retrieve(len)
    case CallRetrieveAsString(len) => BufferLayout.RetrieveAsString(len)
    case CallReadFd(data) => BufferLayout.ReadFd(|data|)
  }

  function OpsOf(calls: seq<Call>): (ops: seq<Op>)
    ensures |ops| == |calls|
  {
    if calls == [] then [] else [OpOf(calls[0])] + OpsOf(calls[1..])
  }

  /** A byte queue, with the strings taken from it so far. */
  datatype Queue = Queue(bytes: seq<byte>, strings: seq<seq<byte>>)

  function Front(s: seq<byte>, len: nat): seq<byte> {
    if len < |s| then s[..len] else s
  }

  function Back(s: seq<byte>, len: nat): seq<byte> {
    if len < |s| then s[len..] else []
  }

  /** A call on a byte queue; `room` is what `prepend` has before the reader index. */
  function QueueStep(q: Queue, call: Call, room: nat): Queue {
    match call
    case CallAppend(data) => q.(bytes := q.bytes + data)
    case CallPrepend(data) => if |data| <= room then q.(bytes := data + q.bytes) else q
    case CallRetrieve(len) => q.(bytes := Back(q.bytes, len))
    case CallRetrieveAsString(len) => Queue(Back(q.bytes, len), q.strings + [Front(q.bytes, len)])
    case CallReadFd(data) => q.(bytes := q.bytes + data)
  }

  /** All it needs to know of the indices is what room `prepend` has. */
  function QueueAfter(l: Layout, q: Queue, calls: seq<Call>): Queue
    requires l.Valid() && ValidRun(l, OpsOf(calls))
    decreases |calls|
  {
    if calls == [] then q
    else
      assert OpsOf(calls)[1..] == OpsOf(calls[1..]);
      QueueAfter(Apply(l, OpOf(calls[0])), QueueStep(q, calls[0], l.Prependable()), calls[1..])
  }

  /** One call on the array; `strings` grows by what it returns. */
  method Perform(b: Buffer, call: Call, strings: seq<seq<byte>>) returns (strings': seq<seq<byte>>)
    requires b.Valid() && Enabled(b.Indices(), OpOf(call))
    modifies b, b.buf
    ensures b.Valid() && b.OwnsStorage()
    ensures b.Indices() == Apply(old(b.Indices()), OpOf(call))
    ensures Queue(b.Contents(), strings') == QueueStep(Queue(old(b.Contents()), strings), call, old(b.readerIndex))
  {
    strings' := strings;
    match call
    case CallAppend(data) => b.Append(data);
    case CallPrepend(data) => b.Prepend(data);
    case CallRetrieve(len) => b.Retrieve(len);
    case CallRetrieveAsString(len) =>
      ghost var bytes := b.Contents();
      var result := b.RetrieveAsString(len);
      SplitAt(bytes, result, b.Contents());
      strings' := strings + [result];
    case CallReadFd(data) => var _, _ := b.ReadFd(Data(data));
  }

  lemma SplitAt(bytes: seq<byte>, front: seq<byte>, back: seq<byte>)
    requires front + back == bytes
    ensures front == Front(bytes, |front|) && back == Back(bytes, |front|)
  {
  }

  /** A run of calls is its first call and the rest. */
  lemma FirstCall(l: Layout, q: Queue, calls: seq<Call>)
    requires l.Valid() && ValidRun(l, OpsOf(calls)) && calls != []
    ensures Enabled(l, OpOf(calls[0]))
    ensures var l' := Apply(l, OpOf(calls[0]));
            && ValidRun(l', OpsOf(calls[1..]))
            && After(l, OpsOf(calls)) == After(l', OpsOf(calls[1..]))
            && QueueAfter(l, q, calls) == QueueAfter(l', QueueStep(q, calls[0], l.Prependable()), calls[1..])
  {
    assert OpsOf(calls)[1..] == OpsOf(calls[1..]);
  }

  /** Any sequence of calls leaves in the array what it leaves in a byte queue and returns the same
      strings, and the array stays within the memory bound. */
  method Replay(initialSize: nat, calls: seq<Call>) returns (b: Buffer, strings: seq<seq<byte>>)
    requires ValidRun(Initial(initialSize), OpsOf(calls))
    ensures b.Valid() && fresh(b) && fresh(b.buf)
    ensures Queue(b.Contents(), strings) == QueueAfter(Initial(initialSize), Queue([], []), calls)
    ensures var l, ops := Initial(initialSize), OpsOf(calls);
            b.buf.Length <= Max(8 + initialSize, PeakReadable(l, ops) + LongestAppend(l, ops) + 7)
  {
    b := new Buffer(initialSize);
    strings := [];
    for i := 0 to |calls|
      invariant b.Valid() && fresh(b) && fresh(b.buf)
      invariant ValidRun(b.Indices(), OpsOf(calls[i..]))
      invariant After(b.Indices(), OpsOf(calls[i..])) == After(Initial(initialSize), OpsOf(calls))
      invariant QueueAfter(b.Indices(), Queue(b.Contents(), strings), calls[i..])
                == QueueAfter(Initial(initialSize), Queue([], []), calls)
    {
      assert calls[i..][1..] == calls[i + 1..];
      FirstCall(b.Indices(), Queue(b.Contents(), strings), calls[i..]);
      strings := Perform(b, calls[i], strings);
    }
    MemoryBound(initialSize, OpsOf(calls));
  }
}
