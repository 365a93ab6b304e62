/**
 The stream over a submission ring: reads, timed reads, writes and close, and the completions that end them.
 Awaiters are numbered in the order in which they are made; the kernel completes every operation in flight once, in
 any order.
 */
module Stream {

  const NOBODY := -1

  datatype Kind = ReadOp | TimedReadOp | TimeoutOp | WriteOp | CancelOp

  datatype Op = Op(kind: Kind, awaiter: int)

  /**
   `suspended` are the awaiters that gave up control, `scheduled` counts how often each was put on the ready queue, and
   `closes` how often the descriptor was closed. The done flags are those of the pending timed read and pending close.
   */
  datatype Stream = Stream(
    fd: int, closed: bool, pendingRead: int, pendingWrite: int, pendingClose: int,
    readDone: bool, timeoutDone: bool, cancelDone: bool,
    inflight: set<Op>, suspended: set<int>, scheduled: multiset<int>, closes: nat, next: nat)

  /** What happens to a stream. The flags say whether the buffer is empty and whether a submission succeeds. */
  datatype Event =
    | Read(empty: bool, ok: bool) | ReadFor(empty: bool, ok: bool, timeoutOk: bool) | Write(empty: bool, ok: bool)
    | Close(ok: bool) | Complete(op: Op)

  function Opened(fd: nat): Stream {
    Stream(fd, false, NOBODY, NOBODY, NOBODY, false, false, false, {}, {}, multiset{}, 0, 0)
  }

  // ----- Awaiting -----

  /** What an awaiter is told at once: that it is suspended, or its result. A count is the number of bytes moved. */
  datatype Answer = Suspended | BadDescriptor | Busy | NoRoom | Count(n: nat) | Closed

  /** A transfer in the direction in which `pending` is waiting: a closed stream is reported first, a busy one last. */
  function Transfer(s: Stream, pending: int, empty: bool, ok: bool): Answer {
    if s.closed || s.fd < 0 then BadDescriptor
    else if empty then Count(0)
    else if pending != NOBODY then Busy
    else if !ok then NoRoom
    else Suspended
  }

  /** Closing again succeeds unless the first close is still waiting. */
  function Closing(s: Stream, ok: bool): Answer {
    if s.pendingClose != NOBODY then Busy
    else if s.closed || s.fd < 0 || (s.pendingRead == NOBODY && s.pendingWrite == NOBODY) then Closed
    else if !ok then NoRoom
    else Suspended
  }

  function AwaitRead(s: Stream, empty: bool, ok: bool): Stream {
    var a, t := s.next, s.(next := s.next + 1);
    if s.closed || s.fd < 0 || empty || s.pendingRead != NOBODY || !ok then t
    else t.(pendingRead := a, inflight := s.inflight + {Op(ReadOp, a)}, suspended := s.suspended + {a})
  }

  function AwaitReadFor(s: Stream, empty: bool, ok: bool, timeoutOk: bool): Stream {
    var a, t := s.next, s.(next := s.next + 1);
    if s.closed || s.fd < 0 || empty || s.pendingRead != NOBODY || !ok then t
    else
      t.(pendingRead := a, readDone := false, timeoutDone := !timeoutOk, suspended := s.suspended + {a},
         inflight := s.inflight + {Op(TimedReadOp, a)} + if timeoutOk then {Op(TimeoutOp, a)} else {})
  }

  function AwaitWrite(s: Stream, empty: bool, ok: bool): Stream {
    var a, t := s.next, s.(next := s.next + 1);
    if s.closed || s.fd < 0 || empty || s.pendingWrite != NOBODY || !ok then t
    else t.(pendingWrite := a, inflight := s.inflight + {Op(WriteOp, a)}, suspended := s.suspended + {a})
  }

  function AwaitClose(s: Stream, ok: bool): Stream {
    var a, t := s.next, s.(next := s.next + 1);
    if s.pendingClose != NOBODY || s.closed || s.fd < 0 then t
    else if s.pendingRead == NOBODY && s.pendingWrite == NOBODY then CloseFd(t.(closed := true))
    else if !ok then t
    else
      t.(closed := true, pendingClose := a, cancelDone := false,
         inflight := s.inflight + {Op(CancelOp, a)}, suspended := s.suspended + {a})
  }

  function CloseFd(s: Stream): Stream {
    if s.fd < 0 then s else s.(fd := -1, closes := s.closes + 1)
  }

  // ----- Completing -----

  function Schedule(s: Stream, a: int): Stream {
    s.(scheduled := s.scheduled + multiset{a})
  }

  /** A pending close goes through once its cancellation is done and nothing is pending any more. */
  function CloseProgress(s: Stream): Stream {
    if s.pendingClose == NOBODY || !s.cancelDone || s.pendingRead != NOBODY || s.pendingWrite != NOBODY then s
    else Schedule(CloseFd(s.(pendingClose := NOBODY)), s.pendingClose)
  }

  function ReadFinished(s: Stream, a: int): Stream {
    if s.pendingRead == a then CloseProgress(s.(pendingRead := NOBODY)) else s
  }

  function WriteFinished(s: Stream, a: int): Stream {
    if s.pendingWrite == a then CloseProgress(s.(pendingWrite := NOBODY)) else s
  }

  /** The done flags with the completion of `op` in them. */
  function Flagged(s: Stream, op: Op): Stream {
    s.(readDone := s.readDone || op.kind == TimedReadOp, timeoutDone := s.timeoutDone || op.kind == TimeoutOp,
       cancelDone := s.cancelDone || op.kind == CancelOp)
  }

  /** A timed read is finished by whichever of its two completions comes second. */
  function Hooked(s: Stream, op: Op): Stream {
    var t := Flagged(s, op);
    match op.kind
    case ReadOp => ReadFinished(t, op.awaiter)
    case WriteOp => WriteFinished(t, op.awaiter)
    case CancelOp => CloseProgress(t)
    case _ => if t.readDone && t.timeoutDone then ReadFinished(t, op.awaiter) else t
  }

  /** Whether the hook leaves a continuation to schedule. */
  predicate Resumes(s: Stream, op: Op) {
    var t := Flagged(s, op);
    op.kind == ReadOp || op.kind == WriteOp || (op.kind != CancelOp && t.readDone && t.timeoutDone)
  }

  function Completed(s: Stream, op: Op): Stream {
    var t := s.(inflight := s.inflight - {op});
    if Resumes(t, op) then Schedule(Hooked(t, op), op.awaiter) else Hooked(t, op)
  }

  function Step(s: Stream, e: Event): Stream {
    match e
    case Read(empty, ok) => AwaitRead(s, empty, ok)
    case ReadFor(empty, ok, timeoutOk) => AwaitReadFor(s, empty, ok, timeoutOk)
    case Write(empty, ok) => AwaitWrite(s, empty, ok)
    case Close(ok) => AwaitClose(s, ok)
    case Complete(op) => if op in s.inflight then Completed(s, op) else s
  }

  function Exec(fd: nat, run: seq<Event>): Stream {
    if run == [] then Opened(fd) else Step(Exec(fd, run[..|run| - 1]), run[|run| - 1])
  }

  // ----- What every event keeps -----

  ghost predicate Waiting(s: Stream, a: int) {
    a == s.pendingRead || a == s.pendingWrite || a == s.pendingClose
  }

  /** The operations of a pending read that are still in flight. */
  ghost predicate ReadInFlight(s: Stream) {
    var a := s.pendingRead;
    || (Op(ReadOp, a) in s.inflight && Op(TimedReadOp, a) !in s.inflight && Op(TimeoutOp, a) !in s.inflight)
    || (&& Op(ReadOp, a) !in s.inflight && !(s.readDone && s.timeoutDone)
        && (Op(TimedReadOp, a) in s.inflight <==> !s.readDone) && (Op(TimeoutOp, a) in s.inflight <==> !s.timeoutDone))
  }

  ghost predicate Backed(s: Stream) {
    && (s.pendingRead != NOBODY ==> ReadInFlight(s))
    && (s.pendingWrite != NOBODY ==> Op(WriteOp, s.pendingWrite) in s.inflight)
    && (s.pendingClose != NOBODY ==> (s.cancelDone <==> Op(CancelOp, s.pendingClose) !in s.inflight))
  }

  /** A close whose cancellation is done waits for something. */
  ghost predicate CloseBlocked(s: Stream) {
    s.pendingClose != NOBODY && s.cancelDone ==> s.pendingRead != NOBODY || s.pendingWrite != NOBODY
  }

  /** Whose operation it is. */
  ghost predicate Claimed(s: Stream, op: Op) {
    && op.awaiter != NOBODY
    && match op.kind
       case ReadOp => s.pendingRead == op.awaiter
       case TimedReadOp => s.pendingRead == op.awaiter
       case TimeoutOp => s.pendingRead == op.awaiter
       case WriteOp => s.pendingWrite == op.awaiter
       case CancelOp => s.pendingClose == op.awaiter
  }

  ghost predicate Descriptor(s: Stream) {
    && (s.fd < 0 ==> s.closed && s.pendingRead == NOBODY && s.pendingWrite == NOBODY && s.pendingClose == NOBODY)
    && (s.pendingClose != NOBODY ==> s.closed) && s.closes == (if s.fd < 0 then 1 else 0)
    && (s.closed && s.pendingClose == NOBODY ==> s.fd < 0)
  }

  ghost predicate Numbered(s: Stream) {
    && -1 <= s.pendingRead < s.next && -1 <= s.pendingWrite < s.next && -1 <= s.pendingClose < s.next
    && (s.pendingRead != NOBODY ==>
      s.pendingRead in s.suspended && s.pendingRead != s.pendingWrite && s.pendingRead != s.pendingClose)
    && (s.pendingWrite != NOBODY ==> s.pendingWrite in s.suspended && s.pendingWrite != s.pendingClose)
    && (s.pendingClose != NOBODY ==> s.pendingClose in s.suspended)
    && (forall a :: a in s.suspended ==> 0 <= a < s.next)
  }

  /** Everyone who is not waiting has been scheduled once, except `owed`, who is about to be. */
  ghost predicate ScheduledOnce(s: Stream, owed: int) {
    && (forall a :: a in s.scheduled ==> a in s.suspended)
    && (forall a :: a in s.suspended ==> s.scheduled[a] == if Waiting(s, a) || a == owed then 0 else 1)
  }

  /** The state while a completion is being handled. */
  ghost predicate Handling(s: Stream, owed: int) {
    && Backed(s) && Descriptor(s) && Numbered(s) && ScheduledOnce(s, owed)
    && (forall op :: op in s.inflight ==> Claimed(s, op))
    && (owed != NOBODY ==> owed in s.suspended && !Waiting(s, owed))
  }

  ghost predicate Inv(s: Stream) {
    Handling(s, NOBODY) && CloseBlocked(s)
  }

  lemma NextUnused(s: Stream)
    requires Inv(s)
    ensures forall kind :: Op(kind, s.next) !in s.inflight
    ensures s.next !in s.suspended && s.next !in s.scheduled
  {
    forall kind ensures Op(kind, s.next) !in s.inflight {
      assert Op(kind, s.next) in s.inflight ==> Claimed(s, Op(kind, s.next));
    }
  }

  /** A reader joins those who wait. */
  lemma ReaderScheduled(s: Stream, s': Stream)
    requires Inv(s) && s.pendingRead == NOBODY && s'.pendingRead == s.next
    requires s'.pendingWrite == s.pendingWrite && s'.pendingClose == s.pendingClose
    requires s'.suspended == s.suspended + {s.next} && s'.scheduled == s.scheduled
    ensures ScheduledOnce(s', NOBODY)
  {
    NextUnused(s);
    assert s.scheduled[s.next] == 0;
    assert forall a :: a in s.suspended ==> a != s.next && (Waiting(s', a) <==> Waiting(s, a));
  }

  lemma AwaitReadKeeps(s: Stream, empty: bool, ok: bool)
    requires Inv(s)
    ensures Inv(AwaitRead(s, empty, ok))
  {
    NextUnused(s);
    if Transfer(s, s.pendingRead, empty, ok) == Suspended {
      ReaderScheduled(s, AwaitRead(s, empty, ok));
    }
  }

  lemma AwaitReadForKeeps(s: Stream, empty: bool, ok: bool, timeoutOk: bool)
    requires Inv(s)
    ensures Inv(AwaitReadFor(s, empty, ok, timeoutOk))
  {
    NextUnused(s);
    if Transfer(s, s.pendingRead, empty, ok) == Suspended {
      ReaderScheduled(s, AwaitReadFor(s, empty, ok, timeoutOk));
    }
  }

  lemma AwaitWriteKeeps(s: Stream, empty: bool, ok: bool)
    requires Inv(s)
    ensures Inv(AwaitWrite(s, empty, ok))
  {
  }

  lemma AwaitCloseKeeps(s: Stream, ok: bool)
    requires Inv(s)
    ensures Inv(AwaitClose(s, ok))
  {
  }

  lemma CloseProgressKeeps(s: Stream, owed: int)
    requires Handling(s, owed)
    ensures Handling(CloseProgress(s), owed) && CloseBlocked(CloseProgress(s))
  {
  }

  lemma ScheduleKeeps(s: Stream, a: int)
    requires a != NOBODY && Handling(s, a) && CloseBlocked(s)
    ensures Inv(Schedule(s, a))
  {
  }

  lemma ReadClears(s: Stream)
    requires s.pendingRead != NOBODY && Descriptor(s) && Numbered(s) && ScheduledOnce(s, NOBODY)
    requires Backed(s.(pendingRead := NOBODY)) && forall op :: op in s.inflight ==>
      Claimed(s.(pendingRead := NOBODY), op)
    ensures Inv(Schedule(ReadFinished(s, s.pendingRead), s.pendingRead))
  {
    var a, t := s.pendingRead, s.(pendingRead := NOBODY);
    assert Handling(t, a);
    CloseProgressKeeps(t, a);
    ScheduleKeeps(CloseProgress(t), a);
  }

  lemma WriteClears(s: Stream)
    requires s.pendingWrite != NOBODY && Descriptor(s) && Numbered(s) && ScheduledOnce(s, NOBODY)
    requires Backed(s.(pendingWrite := NOBODY)) && forall op :: op in s.inflight ==>
      Claimed(s.(pendingWrite := NOBODY), op)
    ensures Inv(Schedule(WriteFinished(s, s.pendingWrite), s.pendingWrite))
  {
    var a, t := s.pendingWrite, s.(pendingWrite := NOBODY);
    assert Handling(t, a);
    CloseProgressKeeps(t, a);
    ScheduleKeeps(CloseProgress(t), a);
  }

  lemma HalfKeeps(s: Stream)
    requires s.pendingRead != NOBODY && Descriptor(s) && Numbered(s) && ScheduledOnce(s, NOBODY) && CloseBlocked(s)
    requires Backed(s.(pendingRead := NOBODY)) && forall op :: op in s.inflight ==> Claimed(s, op)
    requires var a := s.pendingRead;
      && Op(ReadOp, a) !in s.inflight
      && (Op(TimedReadOp, a) in s.inflight <==> !s.readDone) && (Op(TimeoutOp, a) in s.inflight <==> !s.timeoutDone)
    ensures Inv(if s.readDone && s.timeoutDone then Schedule(ReadFinished(s, s.pendingRead), s.pendingRead) else s)
  {
    if s.readDone && s.timeoutDone {
      forall op | op in s.inflight ensures Claimed(s.(pendingRead := NOBODY), op) {
        assert Claimed(s, op);
      }
      ReadClears(s);
    }
  }

  lemma ReadCompletedKeeps(s: Stream, op: Op)
    requires Inv(s) && op in s.inflight && op.kind == ReadOp
    ensures Inv(Completed(s, op))
  {
    assert Claimed(s, op);
    var t := s.(inflight := s.inflight - {op});
    forall o | o in t.inflight ensures Claimed(t.(pendingRead := NOBODY), o) {
      assert Claimed(s, o);
    }
    ReadClears(t);
  }

  lemma WriteCompletedKeeps(s: Stream, op: Op)
    requires Inv(s) && op in s.inflight && op.kind == WriteOp
    ensures Inv(Completed(s, op))
  {
    assert Claimed(s, op);
    var t := s.(inflight := s.inflight - {op});
    forall o | o in t.inflight ensures Claimed(t.(pendingWrite := NOBODY), o) {
      assert Claimed(s, o);
    }
    WriteClears(t);
  }

  lemma HalfCompletedKeeps(s: Stream, op: Op)
    requires Inv(s) && op in s.inflight && (op.kind == TimedReadOp || op.kind == TimeoutOp)
    ensures Inv(Completed(s, op))
  {
    assert Claimed(s, op);
    var t := s.(inflight := s.inflight - {op});
    if op.kind == TimedReadOp {
      HalfKeeps(t.(readDone := true));
    } else {
      HalfKeeps(t.(timeoutDone := true));
    }
  }

  lemma CancelCompletedKeeps(s: Stream, op: Op)
    requires Inv(s) && op in s.inflight && op.kind == CancelOp
    ensures Inv(Completed(s, op))
  {
    assert Claimed(s, op);
    CloseProgressKeeps(s.(inflight := s.inflight - {op}, cancelDone := true), NOBODY);
  }

  lemma CompletedKeeps(s: Stream, op: Op)
    requires Inv(s) && op in s.inflight
    ensures Inv(Completed(s, op))
  {
    match op.kind
    case ReadOp => ReadCompletedKeeps(s, op);
    case WriteOp => WriteCompletedKeeps(s, op);
    case CancelOp => CancelCompletedKeeps(s, op);
    case _ => HalfCompletedKeeps(s, op);
  }

  lemma StepKeeps(s: Stream, e: Event)
    requires Inv(s)
    ensures Inv(Step(s, e))
  {
    match e
    case Read(empty, ok) => AwaitReadKeeps(s, empty, ok);
    case ReadFor(empty, ok, timeoutOk) => AwaitReadForKeeps(s, empty, ok, timeoutOk);
    case Write(empty, ok) => AwaitWriteKeeps(s, empty, ok);
    case Close(ok) => AwaitCloseKeeps(s, ok);
    case Complete(op) => if op in s.inflight { CompletedKeeps(s, op); }
  }

  lemma {:induction false} ExecInv(fd: nat, run: seq<Event>)
    ensures Inv(Exec(fd, run))
  {
    if run != [] {
      ExecInv(fd, run[..|run| - 1]);
      StepKeeps(Exec(fd, run[..|run| - 1]), run[|run| - 1]);
    }
  }

  // ----- The theorems -----

  lemma PendingBacked(s: Stream)
    requires Inv(s) && s.inflight == {}
    ensures s.pendingRead == s.pendingWrite == s.pendingClose == NOBODY
  {
  }

  /**
   In every run a suspended awaiter is scheduled at most once; once nothing is in flight, each was scheduled exactly
   once.
   */
  lemma EveryAwaiterOnce(fd: nat, run: seq<Event>, a: int)
    ensures var s := Exec(fd, run);
      && s.scheduled[a] <= 1 && (s.scheduled[a] == 1 ==> a in s.suspended)
      && (a in s.suspended && s.inflight == {} ==> s.scheduled[a] == 1)
  {
    ExecInv(fd, run);
    var s := Exec(fd, run);
    if s.inflight == {} {
      PendingBacked(s);
    }
  }

  /** An awaiter that has been scheduled has no operation in flight: a timed read waits for both of its completions. */
  lemma NothingInFlightBehind(fd: nat, run: seq<Event>, op: Op)
    ensures var s := Exec(fd, run);
      op in s.inflight ==> op.awaiter in s.suspended && s.scheduled[op.awaiter] == 0
  {
    ExecInv(fd, run);
    var s := Exec(fd, run);
    if op in s.inflight {
      assert Claimed(s, op);
    }
  }

  /** The descriptor is closed at most once, and no operation is in flight on it then or ever after. */
  lemma ClosedOnceAndQuiet(fd: nat, run: seq<Event>)
    ensures var s := Exec(fd, run);
      s.closes <= 1 && (s.closes == 1 <==> s.fd < 0) && (s.fd < 0 ==> s.inflight == {})
  {
    ExecInv(fd, run);
    var s := Exec(fd, run);
    if s.fd < 0 {
      assert forall op :: !Claimed(s, op);
      assert forall op :: op !in s.inflight;
    }
  }

  /** A stream that has been closed gives its descriptor back, once, as soon as nothing is in flight any more. */
  lemma ClosedInTheEnd(fd: nat, run: seq<Event>)
    ensures var s := Exec(fd, run); s.closed && s.inflight == {} ==> s.fd < 0 && s.closes == 1
  {
    ExecInv(fd, run);
    var s := Exec(fd, run);
    if s.inflight == {} {
      PendingBacked(s);
    }
  }

  lemma ExecMore(fd: nat, run: seq<Event>, e: Event)
    ensures Exec(fd, run + [e]) == Step(Exec(fd, run), e)
  {
    assert (run + [e])[..|run|] == run;
  }

  /** A close that is answered at once with success leaves the descriptor closed. */
  lemma AnsweredClosed(fd: nat, run: seq<Event>, ok: bool)
    requires Closing(Exec(fd, run), ok) == Closed
    ensures Exec(fd, run + [Close(ok)]).fd < 0
  {
    ExecInv(fd, run);
    ExecMore(fd, run, Close(ok));
  }

  /** Awaiter `a` waits for its close, or the descriptor is closed, or it has never waited. */
  ghost predicate Closer(s: Stream, a: int) {
    a < s.next && (a in s.suspended ==> s.pendingClose == a || s.fd < 0)
  }

  lemma CloserStays(s: Stream, e: Event, a: int)
    requires Inv(s) && a != NOBODY && Closer(s, a)
    ensures Closer(Step(s, e), a)
  {
  }

  lemma {:induction false} CloserThroughout(fd: nat, run: seq<Event>, i: nat)
    requires i < |run| && run[i].Close?
    ensures Closer(Exec(fd, run), Exec(fd, run[..i]).next)
    decreases |run|
  {
    var front := run[..|run| - 1];
    ExecInv(fd, front);
    if i < |run| - 1 {
      CloserThroughout(fd, front, i);
      assert front[..i] == run[..i];
      CloserStays(Exec(fd, front), run[|run| - 1], Exec(fd, run[..i]).next);
    } else {
      NextUnused(Exec(fd, front));
    }
  }

  /** A close that had to wait is resumed only when the descriptor is closed. */
  lemma ResumedClosed(fd: nat, run: seq<Event>, i: nat)
    requires i < |run| && run[i].Close? && Exec(fd, run[..i]).next in Exec(fd, run).scheduled
    ensures Exec(fd, run).fd < 0
  {
    CloserThroughout(fd, run, i);
    ExecInv(fd, run);
  }

  /**
   An awaiter is resumed as soon as nothing of it is in flight, except that a close waits for the transfers that it has
   cancelled.
   */
  lemma ResumedWhenDone(fd: nat, run: seq<Event>, a: int)
    requires var s := Exec(fd, run); a in s.suspended && forall op :: op in s.inflight ==> op.awaiter != a
    ensures var s := Exec(fd, run);
      s.scheduled[a] == 1 || (a == s.pendingClose && exists op :: op in s.inflight && op.kind != CancelOp)
  {
    ExecInv(fd, run);
    var s := Exec(fd, run);
    assert Op(WriteOp, a).awaiter == a && Op(CancelOp, a).awaiter == a;
    assert Op(ReadOp, a).awaiter == a && Op(TimedReadOp, a).awaiter == a && Op(TimeoutOp, a).awaiter == a;
    PendingInFlight(s);
  }

  // ----- What is submitted -----

  predicate IsRead(op: Op) {
    op.kind == ReadOp || op.kind == TimedReadOp || op.kind == TimeoutOp
  }

  ghost predicate Reading(s: Stream) {
    exists op :: op in s.inflight && IsRead(op)
  }

  ghost predicate Writing(s: Stream) {
    exists op :: op in s.inflight && op.kind == WriteOp
  }

  lemma PendingInFlight(s: Stream)
    requires Inv(s)
    ensures (s.pendingRead != NOBODY <==> Reading(s)) && (s.pendingWrite != NOBODY <==> Writing(s))
  {
    if s.pendingRead != NOBODY {
      var a := s.pendingRead;
      assert IsRead(Op(ReadOp, a)) && IsRead(Op(TimedReadOp, a)) && IsRead(Op(TimeoutOp, a));
    }
    if s.pendingWrite != NOBODY {
      assert Op(WriteOp, s.pendingWrite) in s.inflight;
    }
    assert forall op :: op in s.inflight ==> Claimed(s, op);
  }

  /** The awaiter that comes next is suspended with these operations in flight, or answered at once. */
  ghost predicate Submits(s: Stream, s': Stream, waits: bool, ops: set<Op>) {
    && s'.next == s.next + 1 && s'.scheduled == s.scheduled
    && s'.inflight == (if waits then s.inflight + ops else s.inflight)
    && s'.suspended == if waits then s.suspended + {s.next} else s.suspended
  }

  /**
   A transfer is submitted exactly if the stream has not been closed, there is something to move, no transfer in that
   direction is in flight and the ring has room; a timed read together with its timeout, if that has room too.
   */
  lemma TransferSubmits(fd: nat, run: seq<Event>, empty: bool, ok: bool, timeoutOk: bool)
    ensures var s := Exec(fd, run);
      var a, may := s.next, !s.closed && !empty && ok;
      && Submits(s, Exec(fd, run + [Read(empty, ok)]), may && !Reading(s), {Op(ReadOp, a)})
      && Submits(s, Exec(fd, run + [Write(empty, ok)]), may && !Writing(s), {Op(WriteOp, a)})
      && Submits(s, Exec(fd, run + [ReadFor(empty, ok, timeoutOk)]), may && !Reading(s),
                 {Op(TimedReadOp, a)} + if timeoutOk then {Op(TimeoutOp, a)} else {})
  {
    ExecInv(fd, run);
    PendingInFlight(Exec(fd, run));
    ExecMore(fd, run, Read(empty, ok));
    ExecMore(fd, run, Write(empty, ok));
    ExecMore(fd, run, ReadFor(empty, ok, timeoutOk));
    ReadForSubmits(Exec(fd, run), empty, ok, timeoutOk);
  }

  lemma ReadForSubmits(s: Stream, empty: bool, ok: bool, timeoutOk: bool)
    ensures Submits(s, AwaitReadFor(s, empty, ok, timeoutOk),
                    !s.closed && s.fd >= 0 && !empty && ok && s.pendingRead == NOBODY,
                    {Op(TimedReadOp, s.next)} + if timeoutOk then {Op(TimeoutOp, s.next)} else {})
  {
    var t := if timeoutOk then {Op(TimeoutOp, s.next)} else {};
    assert s.inflight + {Op(TimedReadOp, s.next)} + t == s.inflight + ({Op(TimedReadOp, s.next)} + t);
  }

  /**
   A close cancels exactly if it is the first, something is in flight and the ring has room. The stream is closed from
   then on; without room it is as open as before, and with nothing in flight it is closed at once.
   */
  lemma CloseSubmits(fd: nat, run: seq<Event>, ok: bool)
    ensures var s, s' := Exec(fd, run), Exec(fd, run + [Close(ok)]);
      var busy := Reading(s) || Writing(s);
      && Submits(s, s', !s.closed && busy && ok, {Op(CancelOp, s.next)})
      && (s'.closed <==> s.closed || !busy || ok) && (s'.fd < 0 <==> s.fd < 0 || (!s.closed && !busy))
  {
    ExecInv(fd, run);
    PendingInFlight(Exec(fd, run));
    ExecMore(fd, run, Close(ok));
  }

  // ----- The stream object -----

  class LUringStream {
    var fd: int
    var closed: bool
    var pendingRead: int
    var pendingWrite: int
    var pendingClose: int
    var readDone: bool
    var timeoutDone: bool
    var cancelDone: bool
    var next: nat
    /** What the loop and the kernel hold on behalf of the stream. */
    ghost var inflight: set<Op>
    ghost var suspended: set<int>
    ghost var scheduled: multiset<int>
    ghost var closes: nat

    constructor (fd: nat)
      ensures View() == Opened(fd)
    {
      this.fd, closed, next := fd, false, 0;
      pendingRead, pendingWrite, pendingClose := NOBODY, NOBODY, NOBODY;
      readDone, timeoutDone, cancelDone := false, false, false;
      inflight, suspended, scheduled, closes := {}, {}, multiset{}, 0;
    }

    ghost function View(): Stream
      reads this
    {
      Stream(fd, closed, pendingRead, pendingWrite, pendingClose, readDone, timeoutDone, cancelDone,
             inflight, suspended, scheduled, closes, next)
    }

    /** Hands an operation to the loop, which may have no room for it. */
    method Submit(op: Op, room: bool) returns (ok: bool)
      modifies `inflight
      ensures ok == room && inflight == if room then old(inflight) + {op} else old(inflight)
    {
      ok := room;
      if room {
        inflight := inflight + {op};
      }
    }

    method SuspendRead(empty: bool, room: bool) returns (answer: Answer)
      requires next !in suspended
      modifies this
      ensures View() == AwaitRead(old(View()), empty, room)
      ensures answer == Transfer(old(View()), old(pendingRead), empty, room)
      ensures answer == Suspended <==> old(next) in suspended - old(suspended)
    {
      var self := next;
      next := next + 1;
      if closed || fd < 0 { return BadDescriptor; }
      if empty { return Count(0); }
      if pendingRead != NOBODY { return Busy; }
      pendingRead := self;
      var submitted := Submit(Op(ReadOp, self), room);
      if !submitted {
        pendingRead := NOBODY;
        return NoRoom;
      }
      suspended := suspended + {self};
      return Suspended;
    }

    method SuspendReadFor(empty: bool, room: bool, timeoutRoom: bool) returns (answer: Answer)
      requires next !in suspended
      modifies this
      ensures View() == AwaitReadFor(old(View()), empty, room, timeoutRoom)
      ensures answer == Transfer(old(View()), old(pendingRead), empty, room)
      ensures answer == Suspended <==> old(next) in suspended - old(suspended)
    {
      var self := next;
      next := next + 1;
      if closed || fd < 0 { return BadDescriptor; }
      if empty { return Count(0); }
      if pendingRead != NOBODY { return Busy; }
      var submitted := SubmitLinked(self, room, timeoutRoom);
      return if submitted then Suspended else NoRoom;
    }

    /** Submits the read and the timeout linked to it, which it can do without. */
    method SubmitLinked(self: int, room: bool, timeoutRoom: bool) returns (submitted: bool)
      requires pendingRead == NOBODY
      modifies this
      ensures submitted == room
      ensures View() ==
        if !room then old(View())
        else old(View()).(pendingRead := self, readDone := false, timeoutDone := !timeoutRoom,
                          suspended := old(suspended) + {self},
                          inflight := old(inflight) + {Op(TimedReadOp, self)} +
                                      if timeoutRoom then {Op(TimeoutOp, self)} else {})
    {
      pendingRead := self;
      submitted := Submit(Op(TimedReadOp, self), room);
      if !submitted {
        pendingRead := NOBODY;
        return;
      }
      readDone, timeoutDone := false, false;
      var timed := Submit(Op(TimeoutOp, self), timeoutRoom);
      if !timed {
        timeoutDone := true;
      }
      suspended := suspended + {self};
      assert inflight == old(inflight) + {Op(TimedReadOp, self)} + (if timeoutRoom then {Op(TimeoutOp, self)} else {});
    }

    method SuspendWrite(empty: bool, room: bool) returns (answer: Answer)
      requires next !in suspended
      modifies this
      ensures View() == AwaitWrite(old(View()), empty, room)
      ensures answer == Transfer(old(View()), old(pendingWrite), empty, room)
      ensures answer == Suspended <==> old(next) in suspended - old(suspended)
    {
      var self := next;
      next := next + 1;
      if closed || fd < 0 { return BadDescriptor; }
      if empty { return Count(0); }
      if pendingWrite != NOBODY { return Busy; }
      pendingWrite := self;
      var submitted := Submit(Op(WriteOp, self), room);
      if !submitted {
        pendingWrite := NOBODY;
        return NoRoom;
      }
      suspended := suspended + {self};
      return Suspended;
    }

    method SuspendClose(room: bool) returns (answer: Answer)
      requires next !in suspended
      modifies this
      ensures View() == AwaitClose(old(View()), room)
      ensures answer == Closing(old(View()), room)
      ensures answer == Closed && old(Inv(View())) ==> fd < 0 && (old(fd) >= 0 ==> closes == old(closes) + 1)
      ensures answer == Suspended <==> old(next) in suspended - old(suspended)
    {
      var self := next;
      next := next + 1;
      if pendingClose != NOBODY { return Busy; }
      if closed || fd < 0 { return Closed; }
      closed := true;
      if pendingRead == NOBODY && pendingWrite == NOBODY {
        CloseDescriptor();
        return Closed;
      }
      var submitted := CancelFirst(self, room);
      return if submitted then Suspended else NoRoom;
    }

    /** Cancels whatever is in flight and leaves the closing to the last completion. */
    method CancelFirst(self: int, room: bool) returns (suspends: bool)
      requires closed && pendingClose == NOBODY
      modifies this
      ensures suspends == room
      ensures View() ==
        if !room then old(View()).(closed := false)
        else old(View()).(pendingClose := self, cancelDone := false,
                          inflight := old(inflight) + {Op(CancelOp, self)}, suspended := old(suspended) + {self})
    {
      pendingClose := self;
      var submitted := Submit(Op(CancelOp, self), room);
      if !submitted {
        pendingClose, closed := NOBODY, false;
        return false;
      }
      cancelDone := false;
      suspended := suspended + {self};
      return true;
    }

    method CloseDescriptor()
      modifies `fd, `closes
      ensures View() == CloseFd(old(View()))
    {
      if fd >= 0 {
        fd, closes := -1, closes + 1;
      }
    }

    method NotifyCloseProgress()
      modifies this
      ensures View() == CloseProgress(old(View()))
    {
      if pendingClose == NOBODY || !cancelDone { return; }
      if pendingRead != NOBODY || pendingWrite != NOBODY { return; }
      var closer := pendingClose;
      pendingClose := NOBODY;
      CloseDescriptor();
      scheduled := scheduled + multiset{closer};
    }

    /** The hook of an untimed read. */
    method OnRead(awaiter: int)
      modifies this
      ensures View() == (if old(pendingRead) == awaiter then CloseProgress(old(View()).(pendingRead := NOBODY))
        else old(View()))
    {
      if pendingRead == awaiter {
        pendingRead := NOBODY;
        NotifyCloseProgress();
      }
    }

    /** The hook of a write. */
    method OnWrite(awaiter: int)
      modifies this
      ensures View() == if old(pendingWrite) == awaiter then CloseProgress(old(View()).(pendingWrite := NOBODY))
        else old(View())
    {
      if pendingWrite == awaiter {
        pendingWrite := NOBODY;
        NotifyCloseProgress();
      }
    }

    /** A completion from the ring: the operation's hook runs, and the continuation it leaves behind is scheduled. */
    method HandleCompletion(op: Op)
      requires op in inflight
      modifies this
      ensures View() == Completed(old(View()), op)
    {
      inflight := inflight - {op};
      var resumes := RunHook(op);
      if resumes {
        scheduled := scheduled + multiset{op.awaiter};
      }
    }

    /** Runs the operation's hook and tells whether it leaves a continuation behind. */
    method RunHook(op: Op) returns (resumes: bool)
      modifies this
      ensures resumes <==> Resumes(old(View()), op)
      ensures View() == Hooked(old(View()), op)
    {
      resumes := true;
      match op.kind {
        case ReadOp => OnRead(op.awaiter);
        case WriteOp => OnWrite(op.awaiter);
        case CancelOp =>
          cancelDone := true;
          NotifyCloseProgress();
          resumes := false;
        case _ => resumes := OnTimed(op);
      }
    }

    /** The hooks of a timed read and of its timeout. */
    method OnTimed(op: Op) returns (resumes: bool)
      requires op.kind == TimedReadOp || op.kind == TimeoutOp
      modifies this
      ensures resumes <==> Resumes(old(View()), op)
      ensures View() == Hooked(old(View()), op)
    {
      if op.kind == TimedReadOp {
        readDone := true;
      } else {
        timeoutDone := true;
      }
      resumes := FinishIfReady(op.awaiter);
    }

    method FinishIfReady(awaiter: int) returns (resumes: bool)
      modifies this
      ensures resumes <==> old(readDone && timeoutDone)
      ensures View() ==
        if !resumes || old(pendingRead) != awaiter then old(View())
        else CloseProgress(old(View()).(pendingRead := NOBODY))
    {
      if !readDone || !timeoutDone { return false; }
      if pendingRead == awaiter {
        pendingRead := NOBODY;
        NotifyCloseProgress();
      }
      return true;
    }
  }
}
