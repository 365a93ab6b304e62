/** The block-chained buffer, and the plain byte queue that it stands for. */
module BlockBuffer {

  import opened Sequences

  newtype byte = x: int | 0 <= x < 256

  datatype Block = Block(data: seq<byte>, readPos: nat, writePos: nat, reserved: bool)

  predicate Well(b: Block) {
    b.readPos <= b.writePos <= |b.data|
  }

  predicate AllWell(blocks: seq<Block>) {
    forall i :: 0 <= i < |blocks| ==> Well(blocks[i])
  }

  /** The bytes of a block that can be read, and the room behind them. */
  function Readable(b: Block): seq<byte>
    requires Well(b)
  {
    b.data[b.readPos..b.writePos]
  }

  function Room(b: Block): seq<byte>
    requires Well(b)
  {
    b.data[b.writePos..]
  }

  function Contents(blocks: seq<Block>): seq<byte>
    requires AllWell(blocks)
  {
    if blocks == [] then [] else Readable(blocks[0]) + Contents(blocks[1..])
  }

  /** The room that has been handed out for writing. */
  function Reserved(blocks: seq<Block>): seq<byte>
    requires AllWell(blocks)
  {
    if blocks == [] then [] else Offered(blocks[0]) + Reserved(blocks[1..])
  }

  function Offered(b: Block): seq<byte>
    requires Well(b)
  {
    if b.reserved then Room(b) else []
  }

  /** Only blocks at the end are reserved, and only the first of them holds anything. */
  predicate Shape(blocks: seq<Block>) {
    forall i, j :: 0 <= i < j < |blocks| && blocks[i].reserved ==>
      blocks[j].reserved && blocks[j].readPos == blocks[j].writePos
  }

  predicate NoneReserved(blocks: seq<Block>) {
    forall i :: 0 <= i < |blocks| ==> !blocks[i].reserved
  }

  // ----- Chains -----

  lemma {:induction false} ContentsAppend(a: seq<Block>, b: seq<Block>)
    requires AllWell(a) && AllWell(b)
    ensures AllWell(a + b) && Contents(a + b) == Contents(a) + Contents(b)
  {
    if a == [] {
      assert a + b == b;
    } else {
      ContentsAppend(a[1..], b);
      assert (a + b)[1..] == a[1..] + b;
      Regroup(Readable(a[0]), Contents(a[1..]), Contents(b));
    }
  }

  lemma ReservedFirst(b: Block, rest: seq<Block>)
    requires Well(b) && AllWell(rest)
    ensures AllWell([b] + rest) && Reserved([b] + rest) == Offered(b) + Reserved(rest)
  {
    assert ([b] + rest)[1..] == rest;
  }

  lemma {:induction false} ReservedAppend(a: seq<Block>, b: seq<Block>)
    requires AllWell(a) && AllWell(b)
    ensures AllWell(a + b) && Reserved(a + b) == Reserved(a) + Reserved(b)
  {
    if a == [] {
      assert a + b == b;
    } else {
      ReservedAppend(a[1..], b);
      ReservedNext(a[0], a[1..], a[1..] + b, Reserved(b));
      assert a == [a[0]] + a[1..];
      assert a + b == [a[0]] + (a[1..] + b);
    }
  }

  lemma ReservedNext(first: Block, rest: seq<Block>, longer: seq<Block>, more: seq<byte>)
    requires Well(first) && AllWell(rest) && AllWell(longer) && Reserved(longer) == Reserved(rest) + more
    ensures Well(first) && AllWell([first] + rest) && AllWell([first] + longer)
    ensures Reserved([first] + longer) == Reserved([first] + rest) + more
  {
    ReservedFirst(first, rest);
    ReservedFirst(first, longer);
    Regroup(Offered(first), Reserved(rest), more);
  }

  lemma {:induction false} NoneReservedRoom(blocks: seq<Block>)
    requires AllWell(blocks) && NoneReserved(blocks)
    ensures Reserved(blocks) == []
  {
    if blocks != [] {
      NoneReservedRoom(blocks[1..]);
    }
  }

  lemma {:induction false} NothingReadable(blocks: seq<Block>)
    requires AllWell(blocks) && forall i :: 0 <= i < |blocks| ==> blocks[i].readPos == blocks[i].writePos
    ensures Contents(blocks) == []
  {
    if blocks != [] {
      NothingReadable(blocks[1..]);
    }
  }

  // ----- Committing -----

  function Min(a: nat, b: nat): nat {
    if a < b then a else b
  }

  function Written(b: Block, m: nat): Block {
    b.(writePos := b.writePos + m)
  }

  /** The chain with the first `n` reserved bytes made readable. */
  function Committed(blocks: seq<Block>, n: nat): seq<Block>
    requires AllWell(blocks)
  {
    if blocks == [] then []
    else if !blocks[0].reserved then [blocks[0]] + Committed(blocks[1..], n)
    else
      var m := Min(n, |Room(blocks[0])|);
      [Written(blocks[0], m)] + Committed(blocks[1..], n - m)
  }

  lemma {:induction false} CommittedIs(blocks: seq<Block>, n: nat)
    requires AllWell(blocks) && Shape(blocks) && n <= |Reserved(blocks)|
    ensures AllWell(Committed(blocks, n)) && |Committed(blocks, n)| == |blocks|
    ensures Contents(Committed(blocks, n)) == Contents(blocks) + Reserved(blocks)[..n]
    decreases |blocks|
  {
    if blocks != [] {
      if !blocks[0].reserved {
        CommittedIs(blocks[1..], n);
        CommittedLater(blocks, n);
      } else {
        CommittedIs(blocks[1..], n - Min(n, |Room(blocks[0])|));
        CommittedNow(blocks, n);
      }
    }
  }

  lemma CommittedLater(blocks: seq<Block>, n: nat)
    requires AllWell(blocks) && blocks != [] && !blocks[0].reserved && n <= |Reserved(blocks[1..])|
    requires var c := Committed(blocks[1..], n);
      AllWell(c) && Contents(c) == Contents(blocks[1..]) + Reserved(blocks[1..])[..n]
    ensures AllWell(Committed(blocks, n)) && Contents(Committed(blocks, n)) == Contents(blocks) + Reserved(blocks)[..n]
  {
    var b, rest := blocks[0], blocks[1..];
    CommittedFirst(b, rest, n);
    Regroup(Readable(b), Contents(rest), Reserved(rest)[..n]);
    Regroup(Reserved(rest), [], []);
  }

  lemma CommittedNow(blocks: seq<Block>, n: nat)
    requires AllWell(blocks) && Shape(blocks) && blocks != [] && blocks[0].reserved && n <= |Reserved(blocks)|
    requires var m := Min(n, |Room(blocks[0])|); var c := Committed(blocks[1..], n - m);
      AllWell(c) && Contents(c) == Contents(blocks[1..]) + Reserved(blocks[1..])[..n - m]
    ensures AllWell(Committed(blocks, n)) && Contents(Committed(blocks, n)) == Contents(blocks) + Reserved(blocks)[..n]
  {
    var b, rest := blocks[0], blocks[1..];
    var m := Min(n, |Room(b)|);
    NothingReadable(rest);
    CommittedFirst(Written(b, m), rest, n - m);
    CommittedHere(b, m, n, Reserved(rest));
    Regroup(Readable(b), [], []);
    Regroup(Reserved(rest)[..n - m], [], []);
  }

  lemma CommittedFirst(b: Block, rest: seq<Block>, n: nat)
    requires Well(b) && AllWell(rest) && AllWell(Committed(rest, n))
    ensures AllWell([b] + Committed(rest, n)) &&
      Contents([b] + Committed(rest, n)) == Readable(b) + Contents(Committed(rest, n))
  {
    assert ([b] + Committed(rest, n))[1..] == Committed(rest, n);
  }

  lemma CommittedHere(b: Block, m: nat, n: nat, more: seq<byte>)
    requires Well(b) && m == Min(n, |Room(b)|) && n <= |Room(b)| + |more|
    ensures Well(Written(b, m)) && Readable(Written(b, m)) + more[..n - m] == Readable(b) + (Room(b) + more)[..n]
  {
    assert Readable(Written(b, m)) == Readable(b) + Room(b)[..m];
    assert (Room(b) + more)[..n] == Room(b)[..m] + more[..n - m];
  }

  lemma {:induction false} CommittedNothing(blocks: seq<Block>)
    requires AllWell(blocks)
    ensures Committed(blocks, 0) == blocks
  {
    if blocks != [] {
      CommittedNothing(blocks[1..]);
    }
  }

  function Released(blocks: seq<Block>): (r: seq<Block>)
    ensures |r| == |blocks| && forall i :: 0 <= i < |r| ==> r[i] == blocks[i].(reserved := false)
  {
    if blocks == [] then [] else [blocks[0].(reserved := false)] + Released(blocks[1..])
  }

  lemma {:induction false} ReleasedIs(blocks: seq<Block>)
    requires AllWell(blocks)
    ensures AllWell(Released(blocks)) && Contents(Released(blocks)) == Contents(blocks) &&
      NoneReserved(Released(blocks))
  {
    if blocks != [] {
      ReleasedIs(blocks[1..]);
      assert Released(blocks)[1..] == Released(blocks[1..]);
    }
  }

  // ----- Writing -----

  function NewBlock(capacity: nat, reserved: bool): (b: Block)
    ensures Well(b) && Readable(b) == [] && |Room(b)| == capacity
  {
    Block(seq(capacity, i => 0), 0, 0, reserved)
  }

  /** The bytes `bytes` put into the room of a block. */
  function Stored(b: Block, bytes: seq<byte>): (r: Block)
    requires Well(b) && |bytes| <= |Room(b)|
    ensures Well(r) && Readable(r) == Readable(b) && Room(r) == bytes + Room(b)[|bytes|..] && r.reserved == b.reserved
    ensures r.readPos == b.readPos && r.writePos == b.writePos
  {
    b.(data := b.data[..b.writePos] + bytes + b.data[b.writePos + |bytes|..])
  }

  lemma StoredWritten(b: Block, bytes: seq<byte>)
    requires Well(b) && |bytes| <= |Room(b)|
    ensures Well(Written(Stored(b, bytes), |bytes|)) &&
      Readable(Written(Stored(b, bytes), |bytes|)) == Readable(b) + bytes
  {
    var r := Stored(b, bytes);
    assert Readable(Written(r, |bytes|)) == Readable(r) + Room(r)[..|bytes|];
  }

  /** What a scattered read puts into the reserved room: the bytes in order, block after block. */
  function Filled(blocks: seq<Block>, bytes: seq<byte>): (r: seq<Block>)
    requires AllWell(blocks) && |bytes| <= |Reserved(blocks)|
    decreases |blocks|
  {
    if blocks == [] then []
    else
      var m := if blocks[0].reserved then Min(|bytes|, |Room(blocks[0])|) else 0;
      [Stored(blocks[0], bytes[..m])] + Filled(blocks[1..], bytes[m..])
  }

  predicate SamePlace(a: Block, b: Block) {
    a.reserved == b.reserved && a.readPos == b.readPos && a.writePos == b.writePos
  }

  lemma {:induction false} FilledSame(blocks: seq<Block>, bytes: seq<byte>)
    requires AllWell(blocks) && |bytes| <= |Reserved(blocks)|
    ensures var r := Filled(blocks, bytes);
      && AllWell(r) && |r| == |blocks| && Contents(r) == Contents(blocks)
      && forall i :: 0 <= i < |blocks| ==> SamePlace(r[i], blocks[i])
    decreases |blocks|
  {
    if blocks != [] {
      var m := if blocks[0].reserved then Min(|bytes|, |Room(blocks[0])|) else 0;
      FilledSame(blocks[1..], bytes[m..]);
      assert Filled(blocks, bytes)[1..] == Filled(blocks[1..], bytes[m..]);
    }
  }

  lemma {:induction false} FilledIs(blocks: seq<Block>, bytes: seq<byte>)
    requires AllWell(blocks) && |bytes| <= |Reserved(blocks)|
    ensures AllWell(Filled(blocks, bytes)) && Reserved(Filled(blocks, bytes)) == bytes + Reserved(blocks)[|bytes|..]
    decreases |blocks|
  {
    FilledSame(blocks, bytes);
    if blocks != [] {
      var b, rest := blocks[0], blocks[1..];
      var m := if b.reserved then Min(|bytes|, |Room(b)|) else 0;
      FilledIs(rest, bytes[m..]);
      ReservedFirst(Stored(b, bytes[..m]), Filled(rest, bytes[m..]));
      FilledHere(b, bytes, m, Reserved(rest));
    }
  }

  lemma FilledHere(b: Block, bytes: seq<byte>, m: nat, more: seq<byte>)
    requires Well(b) && m == (if b.reserved then Min(|bytes|, |Room(b)|) else 0) && |bytes| <= |Offered(b)| + |more|
    ensures Offered(Stored(b, bytes[..m])) + (bytes[m..] + more[|bytes| - m..]) ==
      bytes + (Offered(b) + more)[|bytes|..]
  {
    var o := Offered(b);
    assert Offered(Stored(b, bytes[..m])) == bytes[..m] + o[m..];
    if m < |o| {
      assert bytes[..m] == bytes && bytes[m..] == [];
      assert (o + more)[|bytes|..] == o[m..] + more;
    } else {
      assert o[m..] == [];
      assert bytes == bytes[..m] + bytes[m..];
      assert (o + more)[|bytes|..] == more[|bytes| - m..];
    }
  }

  lemma LastOf(blocks: seq<Block>, b: Block)
    requires AllWell(blocks) && blocks != [] && Well(b)
    ensures var n := |blocks| - 1;
      && AllWell(blocks[n := b]) && Contents(blocks) == Contents(blocks[..n]) + Readable(blocks[n])
      && Contents(blocks[n := b]) == Contents(blocks[..n]) + Readable(b)
  {
    var n := |blocks| - 1;
    ContentsAppend(blocks[..n], [blocks[n]]);
    ContentsAppend(blocks[..n], [b]);
    assert blocks == blocks[..n] + [blocks[n]] && blocks[n := b] == blocks[..n] + [b];
    OneBlock(b);
    OneBlock(blocks[n]);
  }

  lemma OneBlock(b: Block)
    requires Well(b)
    ensures Contents([b]) == Readable(b) && Reserved([b]) == Offered(b)
  {
    assert [b][1..] == [];
  }

  /** Appending to the last block appends to the contents. */
  lemma TailWritten(blocks: seq<Block>, bytes: seq<byte>)
    requires AllWell(blocks) && blocks != [] && |bytes| <= |Room(blocks[|blocks| - 1])|
    ensures var n := |blocks| - 1; var b := Written(Stored(blocks[n], bytes), |bytes|);
      AllWell(blocks[n := b]) && Contents(blocks[n := b]) == Contents(blocks) + bytes
  {
    var n := |blocks| - 1;
    StoredWritten(blocks[n], bytes);
    LastOf(blocks, Written(Stored(blocks[n], bytes), |bytes|));
    Regroup(Contents(blocks[..n]), Readable(blocks[n]), bytes);
  }

  lemma BlockPushed(blocks: seq<Block>, b: Block)
    requires AllWell(blocks) && Well(b) && Readable(b) == []
    ensures AllWell(blocks + [b]) && Contents(blocks + [b]) == Contents(blocks) &&
      Reserved(blocks + [b]) == Reserved(blocks) + Offered(b)
  {
    ContentsAppend(blocks, [b]);
    ReservedAppend(blocks, [b]);
    OneBlock(b);
  }

  // ----- The buffer -----

  class Buffer {
    const blockSize: nat
    var blocks: seq<Block>
    var readable: nat
    var writeReserved: bool
    var reservedBytes: nat
    var reservedBlocks: nat

    constructor (blockSize: nat)
      ensures Valid() && Contents(blocks) == [] && !writeReserved
    {
      this.blockSize := if blockSize < 1 then 1 else blockSize;
      blocks, readable, writeReserved, reservedBytes, reservedBlocks := [], 0, false, 0, 0;
    }

    /** The byte count is the length of the contents, whatever empty blocks the chain holds. */
    ghost predicate Valid()
      reads this
    {
      && blockSize >= 1 && AllWell(blocks) && readable == |Contents(blocks)|
      && if writeReserved then Shape(blocks) && reservedBytes == |Reserved(blocks)| else NoneReserved(blocks)
    }

    method EnsureOneTailBlock(hint: nat)
      requires Valid() && !writeReserved && hint > 0
      modifies `blocks
      ensures Valid() && Contents(blocks) == old(Contents(blocks))
      ensures blocks != [] && |Room(blocks[|blocks| - 1])| > 0
    {
      if blocks != [] && |Room(blocks[|blocks| - 1])| > 0 { return; }
      var b := NewBlock(if blockSize > hint then blockSize else hint, false);
      BlockPushed(blocks, b);
      blocks := blocks + [b];
    }

    method Append(bytes: seq<byte>)
      requires Valid() && !writeReserved
      modifies this
      ensures Valid() && !writeReserved && Contents(blocks) == old(Contents(blocks)) + bytes
    {
      var left := bytes;
      Regroup(Contents(blocks), bytes, []);
      while left != []
        invariant Valid() && !writeReserved && Contents(blocks) + left == old(Contents(blocks)) + bytes
        decreases |left|
      {
        EnsureOneTailBlock(|left|);
        var last := |blocks| - 1;
        var n := Min(|left|, |Room(blocks[last])|);
        TailWritten(blocks, left[..n]);
        Regroup(Contents(blocks), left[..n], left[n..]);
        assert left == left[..n] + left[n..];
        blocks := blocks[last := Written(Stored(blocks[last], left[..n]), n)];
        readable := readable + n;
        left := left[n..];
      }
    }

    method Drain(n: nat)
      requires Valid() && !writeReserved
      modifies this
      ensures Valid() && !writeReserved
      ensures Contents(blocks) == old(Contents(blocks))[Min(n, |old(Contents(blocks))|)..]
    {
      DrainCommitted(Min(n, readable));
    }

    method DrainCommitted(count: nat)
      requires Valid() && !writeReserved && count <= readable
      modifies this
      ensures Valid() && !writeReserved && Contents(blocks) == old(Contents(blocks))[count..]
    {
      var n: nat := count;
      while n > 0
        invariant Valid() && !writeReserved && n <= |Contents(blocks)|
        invariant Contents(blocks)[n..] == old(Contents(blocks))[count..]
        decreases n + |blocks|
      {
        if blocks == [] { break; }
        var m := DrainFront(n);
        n := n - m;
      }
      assert n == 0;
    }

    /** Takes up to `n` bytes off the first block, which goes when it is empty. */
    method DrainFront(n: nat) returns (m: nat)
      requires Valid() && !writeReserved && blocks != [] && 0 < n <= |Contents(blocks)|
      modifies this
      ensures Valid() && !writeReserved && m <= n && Contents(blocks) == old(Contents(blocks))[m..]
      ensures |blocks| < |old(blocks)| || (|blocks| == |old(blocks)| && m > 0)
      ensures old(Contents(blocks))[m..][n - m..] == old(Contents(blocks))[n..]
    {
      var front := blocks[0];
      m := Min(n, |Readable(front)|);
      DrainedFront(blocks, m, n);
      readable := readable - m;
      if m == |Readable(front)| {
        blocks := blocks[1..];
      } else {
        blocks := blocks[0 := front.(readPos := front.readPos + m)];
      }
    }

    method ClearWriteReservation()
      requires AllWell(blocks) && writeReserved
      modifies this
      ensures blocks == Released(old(blocks)) && readable == old(readable) && !writeReserved
    {
      blocks := Released(blocks);
      writeReserved, reservedBytes, reservedBlocks := false, 0, 0;
    }

    method AbortWrite()
      requires Valid()
      modifies this
      ensures Valid() && !writeReserved && Contents(blocks) == old(Contents(blocks))
    {
      if !writeReserved { return; }
      ReleasedIs(blocks);
      ClearWriteReservation();
    }

    /** The first `n` bytes of the reserved room become the last bytes of the contents. */
    method CommitWrite(n: nat)
      requires Valid() && writeReserved && n <= reservedBytes
      modifies this
      ensures Valid() && !writeReserved && Contents(blocks) == old(Contents(blocks)) + old(Reserved(blocks))[..n]
    {
      CommittedIs(blocks, n);
      CommitBlocks(n);
      ReleasedIs(blocks);
      ClearWriteReservation();
    }

    method CommitBlocks(n: nat)
      requires AllWell(blocks) && n <= |Reserved(blocks)|
      modifies `blocks, `readable
      ensures blocks == Committed(old(blocks), n) && readable == old(readable) + n
    {
      ghost var was := blocks;
      var remaining: nat := n;
      var i := 0;
      Progress(was, n, was, 0, n);
      while i < |blocks|
        invariant InProgress(was, n, blocks, i, remaining) && readable == old(readable) + n - remaining
      {
        if blocks[i].reserved {
          if remaining == 0 { break; }
          var m := Min(remaining, |Room(blocks[i])|);
          ReservedStep(was, n, blocks, i, remaining, m);
          blocks := blocks[i := Written(blocks[i], m)];
          readable := readable + m;
          remaining := remaining - m;
        } else {
          UnreservedStep(was, n, blocks, i, remaining);
        }
        i := i + 1;
      }
      AllCommitted(was, n, blocks, i, remaining);
    }

    /** Room for `hint` bytes, or as much as `maxIov` pieces give, at the end of the chain. */
    method EnsureTailWritable(hint: nat, maxIov: nat)
      requires Valid() && !writeReserved && hint > 0 && maxIov > 0
      modifies `blocks
      ensures AllWell(blocks) && Contents(blocks) == old(Contents(blocks)) && Shape(blocks)
      ensures 0 < |Reserved(blocks)| && (maxIov > 1 ==> |Reserved(blocks)| >= hint) && Pieces(blocks) <= maxIov
    {
      var writable, reserved := 0, 0;
      NoneReservedRoom(blocks);
      NoPieces(blocks);
      if blocks != [] && |Room(blocks[|blocks| - 1])| > 0 {
        var last := |blocks| - 1;
        TailReserved(blocks);
        blocks := blocks[last := blocks[last].(reserved := true)];
        writable, reserved := |Room(blocks[last])|, 1;
      }
      while writable < hint && reserved < maxIov
        invariant Preparing(blocks, hint, writable, reserved) && reserved <= maxIov
        invariant Contents(blocks) == old(Contents(blocks))
        decreases maxIov - reserved
      {
        var more := hint - writable;
        var b := NewBlock(if blockSize > more then blockSize else more, true);
        PreparedMore(blocks, hint, writable, reserved, b);
        blocks := blocks + [b];
        writable, reserved := writable + |Room(b)|, reserved + 1;
      }
    }

    /** The pieces of room that a scattered read may fill, by block and length. */
    method PrepareWrite(hint: nat, maxIov: nat) returns (iov: seq<(nat, nat)>)
      requires Valid() && !writeReserved
      modifies this
      ensures Valid() && Contents(blocks) == old(Contents(blocks)) && (writeReserved <==> maxIov > 0)
      ensures maxIov > 0 ==>
        0 < reservedBytes && (maxIov > 1 ==> reservedBytes >= if hint == 0 then blockSize else hint)
      ensures |iov| <= maxIov && Total(iov) == if writeReserved then reservedBytes else 0
      ensures iov == (if writeReserved then PieceList(blocks, |blocks|) else [])
    {
      if maxIov == 0 {
        return [];
      }
      EnsureTailWritable(if hint == 0 then blockSize else hint, maxIov);
      writeReserved := true;
      iov := CollectPieces(maxIov);
    }

    method CollectPieces(maxIov: nat) returns (iov: seq<(nat, nat)>)
      requires AllWell(blocks) && Pieces(blocks) <= maxIov
      modifies `reservedBytes, `reservedBlocks
      ensures reservedBytes == |Reserved(blocks)| == Total(iov) && |iov| <= maxIov && iov == PieceList(blocks, |blocks|)
    {
      iov, reservedBytes, reservedBlocks := [], 0, 0;
      for i := 0 to |blocks|
        invariant Collected(blocks, i, iov, reservedBytes)
      {
        var n := |Room(blocks[i])|;
        CollectStep(blocks, i, iov, reservedBytes);
        if blocks[i].reserved && |iov| < maxIov && n != 0 {
          iov := iov + [(i, n)];
          reservedBytes, reservedBlocks := reservedBytes + n, reservedBlocks + 1;
        }
      }
      assert blocks[..|blocks|] == blocks;
    }

    /** The bytes that arrive in the reserved room. */
    method Fill(bytes: seq<byte>)
      requires Valid() && writeReserved && |bytes| <= reservedBytes
      modifies `blocks
      ensures Valid() && Contents(blocks) == old(Contents(blocks))
      ensures Reserved(blocks)[..|bytes|] == bytes
    {
      FilledSame(blocks, bytes);
      FilledIs(blocks, bytes);
      blocks := Filled(blocks, bytes);
    }

    method DrainAll()
      requires Valid() && !writeReserved
      modifies this
      ensures Valid() && !writeReserved && Contents(blocks) == []
    {
      while blocks != []
        invariant AllWell(blocks) && NoneReserved(blocks) && !writeReserved
        decreases |blocks|
      {
        blocks := blocks[1..];
      }
      readable := 0;
    }
  }

  /** The number of reserved blocks. */
  function Pieces(blocks: seq<Block>): nat {
    if blocks == [] then 0 else Pieces(blocks[..|blocks| - 1]) + if blocks[|blocks| - 1].reserved then 1 else 0
  }

  function Total(iov: seq<(nat, nat)>): nat {
    if iov == [] then 0 else Total(iov[..|iov| - 1]) + iov[|iov| - 1].1
  }

  /** The reserved blocks among the first `n`, in order, each with the length of its room. */
  function PieceList(blocks: seq<Block>, n: nat): seq<(nat, nat)>
    requires AllWell(blocks) && n <= |blocks|
  {
    if n == 0 then []
    else
      PieceList(blocks, n - 1) +
      if Offered(blocks[n - 1]) != [] then [(n - 1, |Room(blocks[n - 1])|)] else []
  }

  lemma TotalStep(iov: seq<(nat, nat)>, p: (nat, nat))
    ensures Total(iov + [p]) == Total(iov) + p.1
  {
    assert (iov + [p])[..|iov|] == iov;
  }

  lemma {:induction false} PiecesPrefix(blocks: seq<Block>, i: nat)
    requires i <= |blocks|
    ensures Pieces(blocks[..i]) <= Pieces(blocks)
  {
    if i == |blocks| {
      assert blocks[..i] == blocks;
    } else {
      PiecesPrefix(blocks[..|blocks| - 1], i);
      assert blocks[..|blocks| - 1][..i] == blocks[..i];
    }
  }

  lemma OfferedStep(blocks: seq<Block>, i: nat)
    requires AllWell(blocks) && i < |blocks|
    ensures Reserved(blocks[..i + 1]) == Reserved(blocks[..i]) + Offered(blocks[i])
  {
    assert blocks[..i + 1] == blocks[..i] + [blocks[i]];
    ReservedAppend(blocks[..i], [blocks[i]]);
    OneBlock(blocks[i]);
  }

  lemma PieceStep(blocks: seq<Block>, i: nat)
    requires i < |blocks|
    ensures Pieces(blocks[..i + 1]) == Pieces(blocks[..i]) + (if blocks[i].reserved then 1 else 0) <= Pieces(blocks)
  {
    assert blocks[..i + 1][..i] == blocks[..i];
    PiecesPrefix(blocks, i + 1);
  }

  /** The pieces of the first `i` blocks. */
  ghost predicate Collected(blocks: seq<Block>, i: nat, iov: seq<(nat, nat)>, bytes: nat) {
    && AllWell(blocks) && i <= |blocks| && iov == PieceList(blocks, i)
    && bytes == |Reserved(blocks[..i])| == Total(iov) && |iov| <= Pieces(blocks[..i]) <= Pieces(blocks)
  }

  lemma CollectStep(blocks: seq<Block>, i: nat, iov: seq<(nat, nat)>, bytes: nat)
    requires Collected(blocks, i, iov, bytes) && i < |blocks|
    ensures var n := |Room(blocks[i])|;
      if blocks[i].reserved && n != 0 then |iov| < Pieces(blocks) && Collected(blocks, i + 1, iov + [(i, n)], bytes + n)
      else Collected(blocks, i + 1, iov, bytes)
  {
    PieceStep(blocks, i);
    OfferedStep(blocks, i);
    TotalStep(iov, (i, |Room(blocks[i])|));
  }

  lemma {:induction false} NoPieces(blocks: seq<Block>)
    requires NoneReserved(blocks)
    ensures Pieces(blocks) == 0
  {
    if blocks != [] {
      NoPieces(blocks[..|blocks| - 1]);
    }
  }

  /** Reserving has come this far: so much room in so many blocks at the end of the chain. */
  ghost predicate Preparing(blocks: seq<Block>, hint: nat, writable: int, reserved: int) {
    && AllWell(blocks) && Shape(blocks) && 0 <= reserved == Pieces(blocks) && 0 <= writable == |Reserved(blocks)|
    && (reserved == 0 ==> NoneReserved(blocks)) &&
      (reserved > 0 ==> blocks != [] && blocks[|blocks| - 1].reserved && writable > 0)
    && (reserved > 1 ==> writable >= hint)
  }

  lemma TailOffered(front: seq<Block>, b: Block)
    requires AllWell(front) && NoneReserved(front) && Well(b) && b.reserved
    ensures AllWell(front + [b]) && Reserved(front + [b]) == Room(b) && Pieces(front + [b]) == 1
  {
    ReservedAppend(front, [b]);
    OneBlock(b);
    NoneReservedRoom(front);
    NoPieces(front);
    assert (front + [b])[..|front|] == front;
  }

  lemma TailReserved(blocks: seq<Block>)
    requires AllWell(blocks) && NoneReserved(blocks) && blocks != [] && |Room(blocks[|blocks| - 1])| > 0
    ensures var n := |blocks| - 1; var b := blocks[n].(reserved := true);
      Preparing(blocks[n := b], 0, |Room(b)|, 1) && Contents(blocks[n := b]) == Contents(blocks)
  {
    var n := |blocks| - 1;
    var b := blocks[n].(reserved := true);
    LastOf(blocks, b);
    assert blocks[n := b] == blocks[..n] + [b];
    TailOffered(blocks[..n], b);
  }

  lemma PreparedMore(blocks: seq<Block>, hint: nat, writable: nat, reserved: nat, b: Block)
    requires Preparing(blocks, hint, writable, reserved) && writable < hint
    requires Well(b) && b.reserved && b.readPos == b.writePos && |Room(b)| >= hint - writable
    ensures Preparing(blocks + [b], hint, writable + |Room(b)|, reserved + 1) &&
      Contents(blocks + [b]) == Contents(blocks)
  {
    BlockPushed(blocks, b);
    assert (blocks + [b])[..|blocks|] == blocks;
  }

  /** The first `i` blocks have been committed and `remaining` bytes are left for the others. */
  ghost predicate InProgress(was: seq<Block>, n: nat, blocks: seq<Block>, i: nat, remaining: nat) {
    && i <= |blocks| == |was| && remaining <= n && blocks[i..] == was[i..] && AllWell(was)
    && blocks[..i] + Committed(was[i..], remaining) == Committed(was, n) && remaining <= |Reserved(was[i..])|
  }

  lemma Progress(was: seq<Block>, n: nat, blocks: seq<Block>, i: nat, remaining: nat)
    requires AllWell(was) && n <= |Reserved(was)| && blocks == was && i == 0 && remaining == n
    ensures InProgress(was, n, blocks, i, remaining)
  {
    assert was[0..] == was;
  }

  lemma UnreservedStep(was: seq<Block>, n: nat, blocks: seq<Block>, i: nat, remaining: nat)
    requires InProgress(was, n, blocks, i, remaining) && i < |blocks| && !blocks[i].reserved
    ensures InProgress(was, n, blocks, i + 1, remaining)
  {
    var rest := was[i..];
    assert rest[0] == blocks[i] && rest[1..] == was[i + 1..] && blocks[i..][1..] == blocks[i + 1..];
    assert blocks[..i + 1] == blocks[..i] + [blocks[i]];
    assert blocks[..i] + ([blocks[i]] + Committed(rest[1..], remaining)) ==
      blocks[..i + 1] + Committed(rest[1..], remaining);
  }

  lemma ReservedStep(was: seq<Block>, n: nat, blocks: seq<Block>, i: nat, remaining: nat, m: nat)
    requires InProgress(was, n, blocks, i, remaining) && i < |blocks| && Well(blocks[i]) && blocks[i].reserved
    requires m == Min(remaining, |Room(blocks[i])|)
    ensures InProgress(was, n, blocks[i := Written(blocks[i], m)], i + 1, remaining - m)
  {
    var rest, b := was[i..], Written(blocks[i], m);
    var next := blocks[i := b];
    assert rest[0] == blocks[i] && rest[1..] == was[i + 1..] && next[i + 1..] == blocks[i..][1..];
    assert next[..i + 1] == blocks[..i] + [b];
    assert blocks[..i] + ([b] + Committed(rest[1..], remaining - m)) ==
      next[..i + 1] + Committed(rest[1..], remaining - m);
  }

  lemma AllCommitted(was: seq<Block>, n: nat, blocks: seq<Block>, i: nat, remaining: nat)
    requires InProgress(was, n, blocks, i, remaining) && (i == |blocks| || remaining == 0)
    ensures blocks == Committed(was, n) && remaining == 0
  {
    if i == |blocks| {
      assert was[i..] == [];
    }
    CommittedNothing(was[i..]);
    assert blocks == blocks[..i] + blocks[i..];
  }

  lemma Skipped(a: seq<byte>, b: seq<byte>, m: nat, n: nat)
    requires m <= |a| && m <= n <= |a| + |b|
    ensures (a + b)[m..] == a[m..] + b && (a + b)[m..][n - m..] == (a + b)[n..]
    ensures m == |a| ==> (a + b)[m..] == b
  {
  }

  lemma DrainedFront(blocks: seq<Block>, m: nat, n: nat)
    requires AllWell(blocks) && blocks != [] && m == Min(n, |Readable(blocks[0])|) && n <= |Contents(blocks)|
    ensures var b := blocks[0].(readPos := blocks[0].readPos + m);
      && AllWell(blocks[1..]) && AllWell(blocks[0 := b])
      && Contents(blocks[0 := b]) == Contents(blocks)[m..]
      && Contents(blocks)[m..][n - m..] == Contents(blocks)[n..]
      && (m == |Readable(blocks[0])| ==> Contents(blocks[1..]) == Contents(blocks)[m..])
  {
    var b := blocks[0].(readPos := blocks[0].readPos + m);
    assert blocks[0 := b][1..] == blocks[1..];
    assert Readable(b) == Readable(blocks[0])[m..];
    Skipped(Readable(blocks[0]), Contents(blocks[1..]), m, n);
  }

  // ----- Any sequence of uses -----

  /**
   A read reserves room, lets the bytes that have arrived into as much of it as they fill, and then makes the first
   `commit` of them readable or aborts.
   */
  datatype Use =
    | Push(bytes: seq<byte>) | Pull(n: nat)
    | Read(hint: nat, maxIov: nat, arrived: seq<byte>, commit: nat, abort: bool)

  /** What a read may count on: no room without pieces, and the room it asked for from two pieces on. */
  predicate Granted(blockSize: nat, use: Use, room: nat) {
    match use
    case Read(hint, maxIov, _, _, _) =>
      (room > 0 <==> maxIov > 0) && (maxIov > 1 ==> room >= if hint == 0 then blockSize else hint)
    case _ => room == 0
  }

  /** A byte queue: bytes go in at the end and come out at the front. */
  function Queued(q: seq<byte>, use: Use, room: nat): seq<byte> {
    match use
    case Push(bytes) => q + bytes
    case Pull(n) => q[Min(n, |q|)..]
    case Read(_, _, arrived, commit, abort) =>
      if abort then q else q + arrived[..Min(commit, Min(|arrived|, room))]
  }

  function Replay(q: seq<byte>, uses: seq<Use>, rooms: seq<nat>): seq<byte>
    requires |uses| == |rooms|
  {
    if uses == [] then q
    else
      var n := |uses| - 1;
      Queued(Replay(q, uses[..n], rooms[..n]), uses[n], rooms[n])
  }

  method UseOnce(buffer: Buffer, use: Use) returns (room: nat)
    requires buffer.Valid() && !buffer.writeReserved
    modifies buffer
    ensures buffer.Valid() && !buffer.writeReserved && Granted(buffer.blockSize, use, room)
    ensures Contents(buffer.blocks) == Queued(old(Contents(buffer.blocks)), use, room)
  {
    room := 0;
    match use {
      case Push(bytes) => buffer.Append(bytes);
      case Pull(n) => buffer.Drain(n);
      case Read(hint, maxIov, arrived, commit, abort) => room := ReadOnce(buffer, hint, maxIov, arrived, commit, abort);
    }
  }

  lemma Shorter(s: seq<byte>, bytes: seq<byte>, m: nat, n: nat)
    requires n <= m <= |s| && m <= |bytes| && s[..m] == bytes[..m]
    ensures s[..n] == bytes[..n]
  {
    assert s[..m][..n] == s[..n] && bytes[..m][..n] == bytes[..n];
  }

  method ReadOnce(buffer: Buffer, hint: nat, maxIov: nat, arrived: seq<byte>, commit: nat, abort: bool)
    returns (room: nat)
    requires buffer.Valid() && !buffer.writeReserved
    modifies buffer
    ensures buffer.Valid() && !buffer.writeReserved
    ensures Granted(buffer.blockSize, Read(hint, maxIov, arrived, commit, abort), room)
    ensures Contents(buffer.blocks) ==
      Queued(old(Contents(buffer.blocks)), Read(hint, maxIov, arrived, commit, abort), room)
  {
    room := 0;
    var iov := buffer.PrepareWrite(hint, maxIov);
    Regroup(Contents(buffer.blocks), [], []);
    if !buffer.writeReserved { return; }
    room := buffer.reservedBytes;
    var filled := Min(|arrived|, room);
    buffer.Fill(arrived[..filled]);
    if abort {
      buffer.AbortWrite();
    } else {
      var n := Min(commit, filled);
      Shorter(Reserved(buffer.blocks), arrived, filled, n);
      buffer.CommitWrite(n);
    }
  }

  /** Every read was granted room as it may expect. */
  predicate AllGranted(blockSize: nat, uses: seq<Use>, rooms: seq<nat>) {
    |rooms| == |uses| && forall i :: 0 <= i < |uses| ==> Granted(blockSize, uses[i], rooms[i])
  }

  /**
   Whatever is done to it in whatever order, the chain of blocks holds what a plain byte queue would hold; how much of
   what arrives a read can take is limited only by the room it is granted.
   */
  method Perform(buffer: Buffer, uses: seq<Use>) returns (rooms: seq<nat>)
    requires buffer.Valid() && !buffer.writeReserved
    modifies buffer
    ensures buffer.Valid() && !buffer.writeReserved && AllGranted(buffer.blockSize, uses, rooms)
    ensures Contents(buffer.blocks) == Replay(old(Contents(buffer.blocks)), uses, rooms)
    ensures buffer.readable == |Replay(old(Contents(buffer.blocks)), uses, rooms)|
  {
    rooms := [];
    for i := 0 to |uses|
      invariant buffer.Valid() && !buffer.writeReserved && AllGranted(buffer.blockSize, uses[..i], rooms)
      invariant Contents(buffer.blocks) == Replay(old(Contents(buffer.blocks)), uses[..i], rooms)
    {
      var room := UseOnce(buffer, uses[i]);
      assert uses[..i + 1][..i] == uses[..i] && (rooms + [room])[..i] == rooms;
      rooms := rooms + [room];
    }
    assert uses[..|uses|] == uses;
  }
}
