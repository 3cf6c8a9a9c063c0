/** The receiver thread's own code: arming, completions, reclaiming and polling.  Submission
    ring, completion queue and the two shared queues are fields; the kernel's and the decoder's
    parts of the system are ghost. */
module UringReceivers {
  import opened Types
  import opened Folding
  import opened Wire
  import opened Buffers

  /** Buffers whose completions carried no data: armed again at once. */
  function Refused(cq: seq<Cqe>): seq<nat> {
    if cq == [] then [] else (if cq[0].res > 0 then [] else [cq[0].id]) + Refused(cq[1..])
  }

  /** Reclaiming one buffer arms it. */
  lemma {:induction false} ReclaimOne(s: System)
    requires Sound(s) && s.receiver.Idle? && s.ret != []
    ensures var u := Step(Step(s, Reclaim), Rearm); var id := s.ret[0];
      && Sound(u) && id < |s.armed| && !s.armed[id]
      && u == Arm(s.(ret := s.ret[1..]), id)
      && u == s.(ret := s.ret[1..], sq := s.sq + [id], armed := s.armed[id := true], pendingSqes := s.pendingSqes + 1)
  {
    var t := Step(s, Reclaim);
    StepKeeps(s, Reclaim);
    StepKeeps(t, Rearm);
    ArmKeeps(t, t.(receiver := Idle), s.ret[0]);
    assert t.(receiver := Idle) == s.(ret := s.ret[1..]);
  }

  /** The completion at hand belongs to a buffer, and the raw queue has room for it. */
  lemma {:induction false} CompletionFits(s: System)
    requires Sound(s) && s.cq != []
    ensures s.cq[0].id < |s.armed| && |s.raw| < RAW_CAPACITY
  {
    CqHead(s.cq);
    assert s.cq[0].id in multiset(CqIds(s.cq));
    Apart(s, s.cq[0].id);
    NoneTwice(s);
  }

  /** Handling one completion posts its data or arms its buffer again. */
  lemma {:induction false} CompleteOne(s: System)
    requires Sound(s) && s.receiver.Idle? && s.cq != []
    ensures var u := Step(Step(s, Take), Handle); var e := s.cq[0];
      && Sound(u) && e.id < |s.armed|
      && u == (var t := s.(cq := s.cq[1..], armed := s.armed[e.id := false]);
               if e.res > 0 then t.(raw := s.raw + [Chunk(e.id, e.res)])
               else Arm(t.(errors := s.errors + if e.res < 0 then 1 else 0), e.id))
      && (e.res <= 0 ==> u.sq == s.sq + [e.id])
      && u.errors == s.errors + (if e.res < 0 then 1 else 0)
  {
    var t, e := Step(s, Take), s.cq[0];
    CompletionFits(s);
    StepKeeps(s, Take);
    StepKeeps(t, Handle);
    if e.res <= 0 {
      RefusedKeeps(t);
    }
  }

  predicate IsKernels(a: Action) { a.Scribble? || a.Deliver? || a.Refuse? }

  class UringReceiver {
    const bufArmed: array<bool>
    var sq: seq<nat>
    var pendingSqes: nat
    var flight: seq<nat>
    var cq: seq<Cqe>
    var raw: seq<Chunk>
    var ret: seq<nat>
    var errorsSeen: nat
    var cqesProcessed: nat
    ghost var bufs: seq<seq<Byte>>
    ghost var received: seq<seq<Byte>>
    ghost var decoder: Option<Chunk>
    ghost var decoded: seq<seq<Byte>>

    /** The whole system, the receiver being between two of its calls. */
    ghost function State(): System
      reads this, bufArmed
    {
      System(bufs, bufArmed[..], sq, pendingSqes, flight, cq, Idle, raw, decoder, ret, errorsSeen, received, decoded)
    }

    /** Every buffer starts unarmed, is armed once, and is submitted. */
    constructor (ghost memory: seq<seq<Byte>>)
      requires BufsOk(memory)
      ensures State() == Start(memory) && Sound(State()) && cqesProcessed == 0 && fresh(bufArmed)
    {
      bufArmed := new bool[NUM_BUFS](_ => false);
      sq, pendingSqes, flight, cq, raw, ret := [], 0, [], [], [], [];
      errorsSeen, cqesProcessed := 0, 0;
      bufs, received, decoder, decoded := memory, [], None, [];
      new;
      ArmAllBuffers();
      StartIsSound(memory);
    }

    method ArmAllBuffers()
      requires bufArmed.Length == NUM_BUFS && sq == [] && pendingSqes == 0
      modifies this`sq, this`pendingSqes, this`errorsSeen, this`flight, bufArmed
      ensures sq == [] && pendingSqes == 0 && errorsSeen == old(errorsSeen)
      ensures flight == old(flight) + AllIds(NUM_BUFS) && bufArmed[..] == seq(NUM_BUFS, _ => true)
    {
      var i := 0;
      while i < NUM_BUFS
        invariant 0 <= i <= NUM_BUFS && pendingSqes == |sq| == i && errorsSeen == old(errorsSeen) && flight == old(flight)
        invariant forall j :: 0 <= j < i ==> sq[j] == j && bufArmed[j]
      {
        ArmBuf(i);
        i := i + 1;
      }
      assert sq == AllIds(NUM_BUFS);
      flight, sq, pendingSqes := flight + sq, [], 0;
    }

    /** Prepare one receive entry for buffer `id`: with room in the submission ring it is queued
        last, its flag set and no error counted; without room only the error is. */
    method ArmBuf(id: nat)
      requires id < bufArmed.Length
      modifies this`sq, this`pendingSqes, this`errorsSeen, bufArmed
      ensures |old(sq)| < RING_DEPTH ==>
        && sq == old(sq) + [id] && pendingSqes == old(pendingSqes) + 1 && errorsSeen == old(errorsSeen)
        && bufArmed[..] == old(bufArmed[..])[id := true]
      ensures |old(sq)| >= RING_DEPTH ==>
        && sq == old(sq) && pendingSqes == old(pendingSqes) && errorsSeen == old(errorsSeen) + 1
        && bufArmed[..] == old(bufArmed[..])
    {
      if |sq| >= RING_DEPTH {
        errorsSeen := errorsSeen + 1;
        return;
      }
      sq := sq + [id];
      bufArmed[id] := true;
      pendingSqes := pendingSqes + 1;
    }

    /** Arm the first buffer the decoder gave back. */
    method ReclaimBuffer()
      requires Sound(State()) && ret != []
      modifies this`sq, this`pendingSqes, this`errorsSeen, this`ret, bufArmed
      ensures State() == Step(Step(old(State()), Reclaim), Rearm) && Sound(State())
      ensures ret == old(ret)[1..] && sq == old(sq) + [old(ret)[0]] && errorsSeen == old(errorsSeen)
    {
      ghost var s := State();
      ReclaimOne(s);
      NoneTwice(s);
      var id := ret[0];
      ret := ret[1..];
      if id < bufArmed.Length && !bufArmed[id] {
        ArmBuf(id);
      }
    }

    /** Arm every buffer the decoder gave back. */
    method ReclaimBuffers()
      requires Sound(State())
      modifies this`sq, this`pendingSqes, this`errorsSeen, this`ret, bufArmed
      ensures Sound(State()) && ret == [] && errorsSeen == old(errorsSeen)
      ensures sq == old(sq) + old(ret)
    {
      while ret != []
        invariant Sound(State()) && sq + ret == old(sq) + old(ret) && errorsSeen == old(errorsSeen)
        decreases |ret|
      {
        AppendTwice(sq, [ret[0]], ret[1..]);
        assert ret == [ret[0]] + ret[1..];
        ReclaimBuffer();
      }
    }

    /** Take the oldest completion off the queue; its buffer is no longer in flight. */
    method TakeCqe() returns (e: Cqe)
      requires cq != [] && cq[0].id < bufArmed.Length
      modifies this`cq, this`cqesProcessed, bufArmed
      ensures e == old(cq)[0] && cqesProcessed == old(cqesProcessed) + 1
      ensures State() == old(State()).(cq := old(cq)[1..], armed := old(bufArmed[..])[e.id := false])
    {
      cqesProcessed := cqesProcessed + 1;
      e := cq[0];
      cq := cq[1..];
      bufArmed[e.id] := false;
    }

    /** Post a completion's data to the decoder, or arm its buffer again. */
    method FinishCqe(e: Cqe)
      requires e.id < bufArmed.Length && |sq| < RING_DEPTH
      modifies this`sq, this`pendingSqes, this`errorsSeen, this`raw, bufArmed
      ensures State() == if e.res > 0 then old(State()).(raw := old(raw) + [Chunk(e.id, e.res)])
                         else Arm(old(State()).(errors := old(errorsSeen) + if e.res < 0 then 1 else 0), e.id)
    {
      if e.res > 0 {
        raw := raw + [Chunk(e.id, e.res)];
      } else {
        if e.res < 0 {
          errorsSeen := errorsSeen + 1;
        }
        ArmBuf(e.id);
      }
    }

    /** Handle the oldest completion. */
    method ProcessCqe()
      requires Sound(State()) && cq != []
      modifies this`sq, this`pendingSqes, this`errorsSeen, this`raw, this`cq, this`cqesProcessed, bufArmed
      ensures State() == Step(Step(old(State()), Take), Handle) && Sound(State())
      ensures cq == old(cq)[1..] && raw == old(raw) + Chunks([old(cq)[0]]) && sq == old(sq) + Refused([old(cq)[0]])
      ensures cqesProcessed == old(cqesProcessed) + 1
      ensures errorsSeen == old(errorsSeen) + if old(cq)[0].res < 0 then 1 else 0
    {
      CompleteOne(State());
      NoneTwice(State());
      PartsOf(cq[0], raw, sq);
      var e := TakeCqe();
      FinishCqe(e);
    }

    /** Hand every prepared entry to the kernel. */
    method SubmitPending()
      requires Sound(State())
      modifies this`sq, this`pendingSqes, this`flight
      ensures Sound(State()) && sq == [] && flight == old(flight) + old(sq)
    {
      Open(State());
      StepKeeps(State(), Submit);
      if pendingSqes > 0 {
        flight, sq, pendingSqes := flight + sq, [], 0;
      } else {
        assert flight + sq == flight;
      }
    }

    /** The kernel's own step, at any time; `more` is what it adds to the completion queue. */
    method KernelStep(a: Action) returns (more: seq<Cqe>)
      requires Sound(State()) && IsKernels(a)
      modifies this`bufs, this`flight, this`cq, this`received
      ensures State() == Step(old(State()), a) && Sound(State()) && cq == old(cq) + more
    {
      StepKeeps(State(), a);
      more := [];
      if a.Scribble? {
        if a.i < |flight| {
          bufs := Landed(bufs, flight[a.i], a.data);
        }
      } else if a.Deliver? {
        if a.i < |flight| && 0 < |a.data| <= BUF_SIZE {
          more := [Cqe(flight[a.i], |a.data|)];
          bufs, received := Landed(bufs, flight[a.i], a.data), received + [a.data];
          flight := Without(flight, a.i);
        }
      } else if a.i < |flight| && a.res <= 0 {
        more := [Cqe(flight[a.i], a.res)];
        flight := Without(flight, a.i);
      }
      assert cq + [] == cq;
      cq := cq + more;
    }

    method KernelSteps(actions: seq<Action>) returns (more: seq<Cqe>)
      requires Sound(State()) && forall i :: 0 <= i < |actions| ==> IsKernels(actions[i])
      modifies this`bufs, this`flight, this`cq, this`received
      ensures Sound(State()) && cq == old(cq) + more
    {
      more := [];
      var i := 0;
      while i < |actions|
        invariant 0 <= i <= |actions| && Sound(State()) && cq == old(cq) + more
      {
        var one := KernelStep(actions[i]);
        AppendTwice(old(cq), more, one);
        more, i := more + one, i + 1;
      }
    }

    /** Handle completions until there are none.  `late[j]` is what the kernel does before the
        `j`-th look at the queue; `arrived` are the completions that came in meanwhile. */
    method DrainCompletions(late: seq<seq<Action>>) returns (processed: nat, ghost arrived: seq<Cqe>)
      requires Sound(State()) && AllKernels(late)
      modifies this`sq, this`pendingSqes, this`errorsSeen, this`raw, this`cq, this`cqesProcessed, bufArmed
      modifies this`bufs, this`flight, this`received
      ensures Sound(State()) && cq == [] && processed == |old(cq)| + |arrived|
      ensures raw == old(raw) + Chunks(old(cq) + arrived) && sq == old(sq) + Refused(old(cq) + arrived)
      ensures late == [] ==> arrived == [] && flight == old(flight)
    {
      processed, arrived := 0, [];
      var j := 0;
      assert old(cq) + [] == cq;
      while j < |late| || cq != []
        invariant 0 <= j <= |late| && Sound(State()) && processed + |cq| == |old(cq)| + |arrived|
        invariant Handled(old(raw), old(sq), old(cq) + arrived, raw, sq, cq)
        invariant late == [] ==> arrived == [] && flight == old(flight)
        decreases |late| - j, |cq|
      {
        if j < |late| {
          ghost var was := cq;
          var more := KernelSteps(late[j]);
          MoreArrive(old(raw), old(sq), old(cq) + arrived, raw, sq, was, more);
          AppendTwice(old(cq), arrived, more);
          arrived, j := arrived + more, j + 1;
        }
        if cq == [] {
          break;
        }
        HandledOne(old(raw), old(sq), old(cq) + arrived, raw, sq, cq);
        ProcessCqe();
        processed := processed + 1;
      }
    }

    /** Re-arm returned buffers, submit, and post every completion there is or that comes in
        while the queue is drained. */
    method Poll(late: seq<seq<Action>>) returns (processed: nat, ghost arrived: seq<Cqe>)
      requires Sound(State()) && AllKernels(late)
      modifies this, bufArmed
      ensures Sound(State())
      ensures ret == [] && cq == [] && processed == |old(cq)| + |arrived|
      ensures raw == old(raw) + Chunks(old(cq) + arrived)
      ensures sq == Refused(old(cq) + arrived)
      ensures late == [] ==> arrived == [] && flight == old(flight) + (old(sq) + old(ret))
    {
      ReclaimBuffers();
      SubmitPending();
      processed, arrived := DrainCompletions(late);
    }
  }

  lemma {:induction false} PartsOf(e: Cqe, raw: seq<Chunk>, sq: seq<nat>)
    ensures e.res > 0 ==> Chunks([e]) == [Chunk(e.id, e.res)] && sq + Refused([e]) == sq
    ensures e.res <= 0 ==> raw + Chunks([e]) == raw && Refused([e]) == [e.id]
  {
    assert [e][1..] == [];
  }

  ghost predicate AllKernels(late: seq<seq<Action>>) {
    forall j, i :: 0 <= j < |late| && 0 <= i < |late[j]| ==> IsKernels(late[j][i])
  }

  /** Some completions handled, the rest of `cq0` still queued. */
  ghost predicate Handled(raw0: seq<Chunk>, sq0: seq<nat>, cq0: seq<Cqe>, raw: seq<Chunk>, sq: seq<nat>, cq: seq<Cqe>) {
    raw + Chunks(cq) == raw0 + Chunks(cq0) && sq + Refused(cq) == sq0 + Refused(cq0)
  }

  lemma {:induction false} HandledOne(raw0: seq<Chunk>, sq0: seq<nat>, cq0: seq<Cqe>, raw: seq<Chunk>, sq: seq<nat>, cq: seq<Cqe>)
    requires Handled(raw0, sq0, cq0, raw, sq, cq) && cq != []
    ensures Handled(raw0, sq0, cq0, raw + Chunks([cq[0]]), sq + Refused([cq[0]]), cq[1..])
  {
    HeadOfQueue(cq);
  }

  /** Completions that come in behind both. */
  lemma {:induction false} MoreArrive(
      raw0: seq<Chunk>, sq0: seq<nat>, cq0: seq<Cqe>, raw: seq<Chunk>, sq: seq<nat>, cq: seq<Cqe>, more: seq<Cqe>)
    requires Handled(raw0, sq0, cq0, raw, sq, cq)
    ensures Handled(raw0, sq0, cq0 + more, raw, sq, cq + more)
  {
    ChunksAppend(cq0, more);
    ChunksAppend(cq, more);
    RefusedAppend(cq0, more);
    RefusedAppend(cq, more);
    AppendTwice(raw, Chunks(cq), Chunks(more));
    AppendTwice(raw0, Chunks(cq0), Chunks(more));
    AppendTwice(sq, Refused(cq), Refused(more));
    AppendTwice(sq0, Refused(cq0), Refused(more));
  }

  lemma {:induction false} RefusedAppend(a: seq<Cqe>, b: seq<Cqe>)
    ensures Refused(a + b) == Refused(a) + Refused(b)
  {
    if a == [] {
      assert a + b == b;
    } else {
      assert (a + b)[1..] == a[1..] + b;
      RefusedAppend(a[1..], b);
    }
  }

  lemma {:induction false} HeadOfQueue(cq: seq<Cqe>)
    requires cq != []
    ensures Chunks(cq) == Chunks([cq[0]]) + Chunks(cq[1..]) && Refused(cq) == Refused([cq[0]]) + Refused(cq[1..])
  {
    assert [cq[0]][1..] == [];
  }
}
