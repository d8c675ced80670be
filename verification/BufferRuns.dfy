/** Runs of the byte buffer against a flat storage with a size and a head. */
module BufferRuns {
  import opened Basics
  import opened Buffers

  /** The bytes of all chunks, how many of them are the content, and the head. */
  datatype Storage = Storage(bytes: seq<byte>, size: nat, position: nat)

  datatype Op = WriteOp(buf: seq<byte>) | ReadOp(n: nat) | SeekOp(v: nat) | ClearOp

  /** What the caller sees of an operation. */
  datatype Answer = Nothing | Bytes(buf: seq<byte>) | Thrown | Crashed

  predicate Lawful(f: Storage) {
    f.position <= f.size <= |f.bytes|
  }

  function Content(f: Storage): seq<byte>
    requires Lawful(f)
  {
    f.bytes[..f.size]
  }

  ghost function View(ba: ByteArray): (f: Storage)
    requires ba.Valid()
    reads ba, ba.store
    ensures Lawful(f) && Content(f) == ba.Data()
  {
    Storage(ba.Contents(), ba.size, ba.position)
  }

  /** The flat meaning of an operation, for chunks of `b` bytes. What a write allocates beyond what
      it stores is arbitrary; a seek past the content makes the bytes of the storage content that are
      there, and a clear keeps the first chunk's. */
  ghost predicate Follows(f: Storage, b: nat, op: Op, f': Storage, answer: Answer)
    requires b > 0 && Lawful(f)
  {
    match op
    case WriteOp(buf) =>
      && answer == Nothing && Overwrite(f.bytes, f.position, buf) <= f'.bytes
      && f'.position == f.position + |buf| && f'.size == Max(f.size, f'.position)
      && |f'.bytes| == Grown(|f.bytes|, b, f'.position)
    case ReadOp(n) =>
      if n > f.size - f.position then f' == f && answer == Thrown
      else if n == 0 && f.position == |f.bytes| then f' == f && answer == Crashed
      else f' == f.(position := f.position + n) && answer == Bytes(f.bytes[f.position..f.position + n])
    case SeekOp(v) =>
      if v > |f.bytes| then f' == f && answer == Thrown
      else f' == Storage(f.bytes, Max(f.size, v), v) && answer == Nothing
    case ClearOp => b <= |f.bytes| && f' == Storage(f.bytes[..b], 0, 0) && answer == Nothing
  }

  /** Read as content, a write overwrites exactly the bytes at the head. */
  lemma WriteOverwrites(f: Storage, b: nat, buf: seq<byte>, f': Storage, answer: Answer)
    requires b > 0 && Lawful(f) && Follows(f, b, WriteOp(buf), f', answer)
    ensures Lawful(f') && Content(f') == Overwrite(Content(f), f.position, buf)
  {
    OverwriteIs(Content(f), f.position, buf);
    OverwriteIs(f.bytes, f.position, buf);
  }

  method DoRead(ba: ByteArray, n: nat) returns (answer: Answer)
    requires ba.Valid()
    modifies ba`position, ba`cur, ba`index
    ensures ba.Valid() && Follows(old(View(ba)), ba.baseSize, ReadOp(n), View(ba), answer)
  {
    var r := ba.Read(n);
    SliceOfPrefix(ba.Contents(), ba.size, old(ba.position), Min(old(ba.position) + n, ba.size));
    answer := match r case Ok(buf) => Bytes(buf) case OutOfRange => Thrown case NullCursor => Crashed;
  }

  method DoSeek(ba: ByteArray, v: nat) returns (answer: Answer)
    requires ba.Valid()
    modifies ba`position, ba`size, ba`cur, ba`index
    ensures ba.Valid() && Follows(old(View(ba)), ba.baseSize, SeekOp(v), View(ba), answer)
  {
    var ok := ba.SetPosition(v);
    answer := if ok then Nothing else Thrown;
  }

  method DoWrite(ba: ByteArray, buf: seq<byte>)
    requires ba.Valid()
    modifies ba, ba.store
    ensures ba.Valid() && fresh(ba.store - old(ba.store))
    ensures Follows(old(View(ba)), ba.baseSize, WriteOp(buf), View(ba), Nothing)
  {
    ba.Write(buf);
    OverwriteIs(old(ba.Data()), old(ba.position), buf);
    assert ba.size == |ba.Data()|;
  }

  method Do(ba: ByteArray, op: Op) returns (answer: Answer)
    requires ba.Valid()
    modifies ba, ba.store
    ensures ba.Valid() && fresh(ba.store - old(ba.store))
    ensures Follows(old(View(ba)), ba.baseSize, op, View(ba), answer)
  {
    answer := Nothing;
    match op {
      case WriteOp(buf) => DoWrite(ba, buf);
      case ReadOp(n) => answer := DoRead(ba, n);
      case SeekOp(v) => answer := DoSeek(ba, v);
      case ClearOp => ba.Clear();
    }
  }

  /** The flat states of a run: `states[i + 1]` follows from `states[i]` by `ops[i]`. */
  ghost predicate Replays(states: seq<Storage>, b: nat, ops: seq<Op>, answers: seq<Answer>) {
    && b > 0 && |states| == |ops| + 1 && |answers| == |ops|
    && (forall i :: 0 <= i < |states| ==> Lawful(states[i]))
    && (forall i :: 0 <= i < |ops| ==> Follows(states[i], b, ops[i], states[i + 1], answers[i]))
  }

  /** Over any sequence of operations and any chunk size, the chunked buffer answers like a flat
      storage with a size and a head, and ends in its state. */
  method Run(b: nat, ops: seq<Op>) returns (ba: ByteArray, answers: seq<Answer>, ghost states: seq<Storage>)
    requires b > 0
    ensures ba.Valid() && Replays(states, b, ops, answers)
    ensures |states[0].bytes| == b && states[0].size == states[0].position == 0 && states[|ops|] == View(ba)
  {
    ba := new ByteArray(b);
    answers, states := [], [View(ba)];
    while |answers| < |ops|
      invariant |answers| <= |ops| && ba.Valid() && ba.baseSize == b && fresh(ba) && fresh(ba.store)
      invariant Replays(states, b, ops[..|answers|], answers)
      invariant |states[0].bytes| == b && states[0].size == states[0].position == 0 && states[|answers|] == View(ba)
    {
      var i := |answers|;
      var answer := Do(ba, ops[i]);
      assert ops[..i + 1] == ops[..i] + [ops[i]];
      answers := answers + [answer];
      states := states + [View(ba)];
    }
    assert ops[..|ops|] == ops;
  }

  /** A byte of the storage, content or not, stays what it is until a write covers it, or a clear
      drops its chunk. So a seek exposes the byte last written there. */
  lemma {:induction false} BytesStay(states: seq<Storage>, b: nat, ops: seq<Op>, answers: seq<Answer>, p: nat, i: nat,
                                     j: nat)
    requires Replays(states, b, ops, answers) && i <= j <= |ops| && p < |states[i].bytes|
    requires forall k :: i <= k < j && ops[k].ClearOp? ==> p < b
    requires forall k :: i <= k < j && ops[k].WriteOp? ==>
                           !(states[k].position <= p < states[k].position + |ops[k].buf|)
    ensures p < |states[j].bytes| && states[j].bytes[p] == states[i].bytes[p]
    decreases j - i
  {
    if i < j {
      assert Follows(states[i], b, ops[i], states[i + 1], answers[i]);
      if ops[i].WriteOp? {
        OverwriteIs(states[i].bytes, states[i].position, ops[i].buf);
      }
      BytesStay(states, b, ops, answers, p, i + 1, j);
    }
  }
}
