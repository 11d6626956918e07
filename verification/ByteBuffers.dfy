/** The byte buffer: a bounded queue whose consumed prefix is reclaimed lazily. */
module ByteBuffers {

  const COMPACTION_THRESHOLD: nat := 4096

  // ---------------------------------------------------------------- the bounded queue

  datatype Operation = Append(bytes: string) | Consume(count: nat) | Clear

  /** One operation on a queue: what is queued afterwards, and whether it succeeded. */
  function Applied(maxSize: nat, queue: string, op: Operation): (string, bool) {
    match op
    case Append(bytes) => if |queue| + |bytes| > maxSize then (queue, false) else (queue + bytes, true)
    case Consume(count) => if count > |queue| then (queue, false) else (queue[count..], true)
    case Clear => ("", true)
  }

  function AllApplied(maxSize: nat, ops: seq<Operation>): (string, seq<bool>) {
    if ops == [] then ("", [])
    else
      var before := AllApplied(maxSize, ops[..|ops| - 1]);
      var step := Applied(maxSize, before.0, ops[|ops| - 1]);
      (step.0, before.1 + [step.1])
  }

  /** What has gone in and has not been cleared comes out, in order, or is still queued. */
  function Appended(maxSize: nat, ops: seq<Operation>): string {
    if ops == [] then ""
    else
      var before, op := ops[..|ops| - 1], ops[|ops| - 1];
      if op.Append? && Applied(maxSize, AllApplied(maxSize, before).0, op).1 then Appended(maxSize, before) + op.bytes
      else Appended(maxSize, before)
  }

  function Consumed(maxSize: nat, ops: seq<Operation>): string {
    if ops == [] then ""
    else
      var before, op := ops[..|ops| - 1], ops[|ops| - 1];
      var queue := AllApplied(maxSize, before).0;
      if op.Consume? && op.count <= |queue| then Consumed(maxSize, before) + queue[..op.count]
      else if op.Clear? then Consumed(maxSize, before) + queue
      else Consumed(maxSize, before)
  }

  /** First in, first out, and never more than fits. */
  lemma {:induction false} QueueOrder(maxSize: nat, ops: seq<Operation>)
    ensures Appended(maxSize, ops) == Consumed(maxSize, ops) + AllApplied(maxSize, ops).0
    ensures |AllApplied(maxSize, ops).0| <= maxSize
    decreases |ops|
  {
    if ops != [] {
      var before, op := ops[..|ops| - 1], ops[|ops| - 1];
      QueueOrder(maxSize, before);
      var queue, gone := AllApplied(maxSize, before).0, Consumed(maxSize, before);
      if op.Append? {
        assert gone + (queue + op.bytes) == gone + queue + op.bytes;
      } else if op.Consume? && op.count <= |queue| {
        assert gone + queue == gone + queue[..op.count] + queue[op.count..];
      } else if op.Clear? {
        assert gone + queue + "" == gone + queue;
      }
    }
  }

  // ---------------------------------------------------------------- the class

  class ByteBuffer {
    const maxSize: nat
    var storage: string
    var readOffset: nat
    /** Octets consumed so far, and octets moved by compactions that `Consume` made. */
    ghost var consumed: nat
    ghost var moved: nat

    ghost predicate Valid()
      reads this
    {
      && maxSize > 0 && readOffset <= |storage| <= maxSize
      && (readOffset == |storage| ==> readOffset == 0)
      && (readOffset < COMPACTION_THRESHOLD || readOffset * 2 < |storage|)
      && moved + readOffset <= consumed
    }

    ghost function Contents(): string
      reads this
      requires readOffset <= |storage|
    {
      storage[readOffset..]
    }

    constructor (maxSize: nat)
      requires maxSize > 0
      ensures Valid() && Contents() == "" && this.maxSize == maxSize
    {
      this.maxSize, storage, readOffset, consumed, moved := maxSize, "", 0, 0, 0;
    }

    function ReadableSize(): (n: nat)
      requires readOffset <= |storage|
      reads this
      ensures n == |Contents()|
    {
      |storage| - readOffset
    }

    function WritableCapacity(): (n: nat)
      requires Valid()
      reads this
      ensures n + |Contents()| == maxSize
    {
      maxSize - ReadableSize()
    }

    method Compact()
      requires readOffset <= |storage|
      modifies this`storage, this`readOffset
      ensures readOffset == 0 && Contents() == old(Contents()) && |storage| == old(ReadableSize())
    {
      storage := storage[readOffset..];
      readOffset := 0;
    }

    method Append(bytes: string) returns (ok: bool)
      requires Valid()
      modifies this`storage, this`readOffset
      ensures Valid() && (Contents(), ok) == Applied(maxSize, old(Contents()), Operation.Append(bytes))
    {
      if |bytes| > WritableCapacity() {
        return false;
      }
      if readOffset != 0 && |storage| + |bytes| > maxSize {
        Compact();
      }
      assert (storage + bytes)[readOffset..] == storage[readOffset..] + bytes;
      storage := storage + bytes;
      return true;
    }

    /** Compaction waits until it moves no more octets than were consumed since the last one. */
    method Consume(count: nat) returns (ok: bool)
      requires Valid()
      modifies this
      ensures Valid() && (Contents(), ok) == Applied(maxSize, old(Contents()), Operation.Consume(count))
      ensures moved <= consumed == old(consumed) + if ok then count else 0
    {
      if count > ReadableSize() {
        return false;
      }
      assert storage[readOffset + count..] == storage[readOffset..][count..];
      readOffset := readOffset + count;
      consumed := consumed + count;
      if readOffset == |storage| {
        Clear();
      } else if readOffset >= COMPACTION_THRESHOLD && readOffset * 2 >= |storage| {
        moved := moved + ReadableSize();
        Compact();
      }
      return true;
    }

    method Clear()
      requires maxSize > 0 && moved <= consumed
      modifies this`storage, this`readOffset
      ensures Valid() && Contents() == ""
    {
      storage, readOffset := "", 0;
    }

    /** Any run of operations on a fresh buffer does what the bounded queue does. */
    static method Replay(maxSize: nat, ops: seq<Operation>) returns (contents: string, results: seq<bool>)
      requires maxSize > 0
      ensures (contents, results) == AllApplied(maxSize, ops)
    {
      var buffer := new ByteBuffer(maxSize);
      results := [];
      for i := 0 to |ops|
        invariant buffer.Valid() && buffer.maxSize == maxSize && (buffer.Contents(), results) == AllApplied(maxSize, ops[..i])
      {
        assert ops[..i + 1][..i] == ops[..i];
        var ok := true;
        match ops[i] {
          case Append(bytes) => ok := buffer.Append(bytes);
          case Consume(count) => ok := buffer.Consume(count);
          case Clear => buffer.Clear();
        }
        results := results + [ok];
      }
      assert ops[..|ops|] == ops;
      contents := buffer.storage[buffer.readOffset..];
    }
  }
}
