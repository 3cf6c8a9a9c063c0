/** The life of the receive buffers: armed by the receiver, filled by the kernel, queued to the
    decoder, returned, armed again.  Receiver, kernel and decoder take steps in any order. */
module Buffers {
  import opened Types
  import opened Folding
  import opened Wire

  const NUM_BUFS: nat := 64
  const BUF_SIZE: nat := 4096
  const RING_DEPTH: nat := 256
  const RAW_CAPACITY: nat := 65536
  const RETURN_CAPACITY: nat := 1024

  datatype Cqe = Cqe(id: nat, res: int)

  /** Bytes `0..len` of buffer `id`. */
  datatype Chunk = Chunk(id: nat, len: nat)

  /** What the receiver has in its hands between two of its steps. */
  datatype Receiver = Idle | Reclaimed(id: nat) | Completed(cqe: Cqe)

  /** `sq` holds entries prepared but not submitted, `flight` what the kernel works on.
      `received` and `decoded` are the data the kernel delivered and the decoder read. */
  datatype System = System(
    bufs: seq<seq<Byte>>, armed: seq<bool>,
    sq: seq<nat>, pendingSqes: nat, flight: seq<nat>, cq: seq<Cqe>,
    receiver: Receiver, raw: seq<Chunk>, decoder: Option<Chunk>, ret: seq<nat>, errors: nat,
    received: seq<seq<Byte>>, decoded: seq<seq<Byte>>)

  datatype Action =
    | Reclaim | Rearm | Submit | Take | Handle
    | Scribble(i: nat, data: seq<Byte>) | Deliver(i: nat, data: seq<Byte>) | Refuse(i: nat, res: int)
    | Pick | Return

  /** `id`'s entry in the submission ring; when the ring has no room the buffer is dropped. */
  function Arm(s: System, id: nat): System {
    if |s.sq| >= RING_DEPTH || id >= |s.armed| then s.(errors := s.errors + 1)
    else s.(armed := s.armed[id := true], sq := s.sq + [id], pendingSqes := s.pendingSqes + 1)
  }

  function Without<T>(s: seq<T>, i: nat): seq<T>
    requires i < |s|
  {
    s[..i] + s[i + 1..]
  }

  /** Data lands at the front of a buffer. */
  function Landed(bufs: seq<seq<Byte>>, id: nat, data: seq<Byte>): seq<seq<Byte>> {
    if id < |bufs| && |data| <= |bufs[id]| then bufs[id := data + bufs[id][|data|..]] else bufs
  }

  function Bytes(bufs: seq<seq<Byte>>, p: Chunk): seq<Byte> {
    if p.id < |bufs| && p.len <= |bufs[p.id]| then bufs[p.id][..p.len] else []
  }

  function Disarm(armed: seq<bool>, id: nat): seq<bool> {
    if id < |armed| then armed[id := false] else armed
  }

  /** One step of the receiver, the kernel or the decoder; an impossible step changes nothing,
      and so does a push to a full queue, which spins. */
  function Step(s: System, a: Action): System {
    match a
    case Reclaim =>
      if s.receiver.Idle? && s.ret != [] then s.(receiver := Reclaimed(s.ret[0]), ret := s.ret[1..]) else s
    case Rearm =>
      if !s.receiver.Reclaimed? then s
      else
        var id := s.receiver.id;
        var t := s.(receiver := Idle);
        if id < |s.armed| && !s.armed[id] then Arm(t, id) else t
    case Submit =>
      if s.receiver.Idle? then s.(flight := s.flight + s.sq, sq := [], pendingSqes := 0) else s
    case Take =>
      if s.receiver.Idle? && s.cq != [] then
        s.(receiver := Completed(s.cq[0]), cq := s.cq[1..], armed := Disarm(s.armed, s.cq[0].id))
      else s
    case Handle =>
      if !s.receiver.Completed? then s
      else
        var e := s.receiver.cqe;
        if e.res > 0 then
          if |s.raw| >= RAW_CAPACITY then s
          else s.(receiver := Idle, raw := s.raw + [Chunk(e.id, e.res)])
        else
          Arm(s.(receiver := Idle, errors := s.errors + if e.res < 0 then 1 else 0), e.id)
    case Scribble(i, data) =>
      if i < |s.flight| then s.(bufs := Landed(s.bufs, s.flight[i], data)) else s
    case Deliver(i, data) =>
      if i < |s.flight| && 0 < |data| <= BUF_SIZE then
        s.(bufs := Landed(s.bufs, s.flight[i], data), flight := Without(s.flight, i),
           cq := s.cq + [Cqe(s.flight[i], |data|)], received := s.received + [data])
      else s
    case Refuse(i, res) =>
      if i < |s.flight| && res <= 0 then
        s.(flight := Without(s.flight, i), cq := s.cq + [Cqe(s.flight[i], res)])
      else s
    case Pick =>
      if s.decoder.None? && s.raw != [] then s.(decoder := Some(s.raw[0]), raw := s.raw[1..]) else s
    case Return =>
      if s.decoder.Some? && |s.ret| < RETURN_CAPACITY then
        s.(decoder := None, ret := s.ret + [s.decoder.value.id],
           decoded := s.decoded + [Bytes(s.bufs, s.decoder.value)])
      else s
  }

  function Run(s: System, actions: seq<Action>): System {
    Steps(Step, s, actions)
  }

  function AllIds(n: nat): (ids: seq<nat>)
    ensures |ids| == n
  {
    seq(n, i requires 0 <= i < n => i)
  }

  /** After construction every buffer is armed and submitted. */
  function Start(bufs: seq<seq<Byte>>): System {
    System(bufs, seq(NUM_BUFS, _ => true), [], 0, AllIds(NUM_BUFS), [], Idle, [], None, [], 0, [], [])
  }

  // ------------------------------------------------------------------ places

  function CqIds(cq: seq<Cqe>): (ids: seq<nat>)
    ensures |ids| == |cq|
  {
    seq(|cq|, i requires 0 <= i < |cq| => cq[i].id)
  }

  function ChunkIds(raw: seq<Chunk>): (ids: seq<nat>)
    ensures |ids| == |raw|
  {
    seq(|raw|, i requires 0 <= i < |raw| => raw[i].id)
  }

  function ReceiverIds(r: Receiver): seq<nat> {
    match r
    case Idle => []
    case Reclaimed(id) => [id]
    case Completed(e) => [e.id]
  }

  function DecoderIds(d: Option<Chunk>): seq<nat> {
    if d.Some? then [d.value.id] else []
  }

  /** Buffers between arming and the handling of their completion. */
  ghost function Kernel(s: System): multiset<nat> {
    multiset(s.sq) + multiset(s.flight) + multiset(CqIds(s.cq))
  }

  /** Buffers on the way to the decoder, at it, or on the way back. */
  ghost function User(s: System): multiset<nat> {
    multiset(ReceiverIds(s.receiver)) + multiset(ChunkIds(s.raw)) + multiset(DecoderIds(s.decoder)) + multiset(s.ret)
  }

  // --------------------------------------------------------------- invariant

  function Expected(id: nat): nat { if id < NUM_BUFS then 1 else 0 }

  /** Buffer `id` is in exactly one place, and its flag says on which side. */
  ghost predicate Placed(kernel: multiset<nat>, user: multiset<nat>, armed: seq<bool>, id: nat) {
    && kernel[id] + user[id] == Expected(id)
    && (id < |armed| ==> (armed[id] <==> kernel[id] > 0))
  }

  /** Every buffer is, and there are no others.  A proof names the ids it needs. */
  ghost predicate Shared(kernel: multiset<nat>, user: multiset<nat>, armed: seq<bool>) {
    && |kernel| + |user| == NUM_BUFS
    && |armed| == NUM_BUFS
    && forall id: nat {:trigger Placed(kernel, user, armed, id)} :: Placed(kernel, user, armed, id)
  }

  ghost predicate SettledAt(s: System, id: nat) {
    && Placed(Kernel(s), User(s), s.armed, id)
    && |Kernel(s)| + |User(s)| == NUM_BUFS
    && |s.armed| == NUM_BUFS
    && s.pendingSqes == |s.sq|
  }

  /** Every buffer has one owner, and the receiver's flags and count agree.  Said id by id, so
      that the solver unfolds it only where a proof asks. */
  ghost predicate Settled(s: System) {
    forall id: nat {:trigger SettledAt(s, id)} :: SettledAt(s, id)
  }

  lemma {:induction false} Open(s: System)
    requires Settled(s)
    ensures Shared(Kernel(s), User(s), s.armed) && s.pendingSqes == |s.sq|
  {
    assert SettledAt(s, 0);
    forall id: nat ensures Placed(Kernel(s), User(s), s.armed, id) {
      assert SettledAt(s, id);
    }
  }

  ghost predicate BufsOk(bufs: seq<seq<Byte>>) {
    |bufs| == NUM_BUFS && forall i :: 0 <= i < |bufs| ==> |bufs[i]| == BUF_SIZE
  }

  /** Completions that carry data, as pieces of their buffers. */
  function Chunks(cq: seq<Cqe>): seq<Chunk> {
    if cq == [] then []
    else (if cq[0].res > 0 then [Chunk(cq[0].id, cq[0].res)] else []) + Chunks(cq[1..])
  }

  function ReceiverChunks(r: Receiver): seq<Chunk> {
    if r.Completed? then Chunks([r.cqe]) else []
  }

  function DecoderChunks(d: Option<Chunk>): seq<Chunk> {
    if d.Some? then [d.value] else []
  }

  /** Delivered data the decoder has not read yet, oldest first. */
  function Pending(s: System): seq<Chunk> {
    DecoderChunks(s.decoder) + s.raw + ReceiverChunks(s.receiver) + Chunks(s.cq)
  }

  function Contents(bufs: seq<seq<Byte>>, ps: seq<Chunk>): (data: seq<seq<Byte>>)
    ensures |data| == |ps|
  {
    seq(|ps|, i requires 0 <= i < |ps| => Bytes(bufs, ps[i]))
  }

  /** What was delivered is what was decoded followed by what still lies in the buffers. */
  ghost predicate Faithful(s: System) {
    s.received == s.decoded + Contents(s.bufs, Pending(s))
  }

  // --------------------------------------------------------- one step keeps it

  lemma {:induction false} OneEach(n: nat, id: nat)
    ensures multiset(AllIds(n))[id] == if id < n then 1 else 0
  {
    if n > 0 {
      OneEach(n - 1, id);
      assert AllIds(n) == AllIds(n - 1) + [n - 1];
    }
  }

  lemma {:induction false} HeadOff<T>(s: seq<T>)
    requires s != []
    ensures multiset(s) == multiset{s[0]} + multiset(s[1..])
  {
    assert s == [s[0]] + s[1..];
  }

  lemma {:induction false} TakenOut<T>(s: seq<T>, i: nat)
    requires i < |s|
    ensures multiset(s) == multiset{s[i]} + multiset(Without(s, i))
  {
    assert s == s[..i] + [s[i]] + s[i + 1..];
  }

  lemma {:induction false} RawHead(raw: seq<Chunk>)
    requires raw != []
    ensures multiset(ChunkIds(raw)) == multiset([raw[0].id]) + multiset(ChunkIds(raw[1..]))
  {
    assert ChunkIds(raw) == [raw[0].id] + ChunkIds(raw[1..]);
  }

  lemma {:induction false} RawLast(raw: seq<Chunk>, p: Chunk)
    ensures multiset(ChunkIds(raw + [p])) == multiset(ChunkIds(raw)) + multiset([p.id])
  {
    assert ChunkIds(raw + [p]) == ChunkIds(raw) + [p.id];
  }

  lemma {:induction false} CqHead(cq: seq<Cqe>)
    requires cq != []
    ensures multiset(CqIds(cq)) == multiset([cq[0].id]) + multiset(CqIds(cq[1..]))
  {
    assert CqIds(cq) == [cq[0].id] + CqIds(cq[1..]);
  }

  lemma {:induction false} CqLast(cq: seq<Cqe>, e: Cqe)
    ensures multiset(CqIds(cq + [e])) == multiset(CqIds(cq)) + multiset([e.id])
  {
    assert CqIds(cq + [e]) == CqIds(cq) + [e.id];
  }

  /** Each side's buffers exist, and none is on both sides. */
  lemma {:induction false} Apart(s: System, id: nat)
    requires Settled(s)
    ensures |s.armed| == NUM_BUFS
    ensures id in Kernel(s) ==> id < NUM_BUFS && id !in User(s) && Kernel(s)[id] == 1 && s.armed[id]
    ensures id in User(s) ==> id < NUM_BUFS && id !in Kernel(s) && User(s)[id] == 1 && !s.armed[id]
  {
    assert SettledAt(s, id);
  }

  /** No queue holds more than all buffers. */
  lemma {:induction false} Few(s: System)
    requires Settled(s)
    ensures |s.sq| + |s.flight| + |s.cq| + |ReceiverIds(s.receiver)| + |s.raw| + |DecoderIds(s.decoder)| + |s.ret| == NUM_BUFS
  {
    Open(s);
    assert |Kernel(s)| == |s.sq| + |s.flight| + |s.cq|;
    assert |User(s)| == |ReceiverIds(s.receiver)| + |s.raw| + |DecoderIds(s.decoder)| + |s.ret|;
  }

  /** One buffer crosses from the users' side to the kernel's. */
  lemma {:induction false} ToKernel(kernel: multiset<nat>, user: multiset<nat>, armed: seq<bool>, id: nat)
    requires Shared(kernel, user + multiset{id}, armed)
    ensures id < NUM_BUFS && !armed[id]
    ensures Shared(kernel + multiset{id}, user, armed[id := true])
  {
    assert Placed(kernel, user + multiset{id}, armed, id);
    var kernel', armed' := kernel + multiset{id}, armed[id := true];
    forall x: nat ensures Placed(kernel', user, armed', x) {
      assert Placed(kernel, user + multiset{id}, armed, x);
    }
  }

  /** One buffer crosses from the kernel's side to the users'. */
  lemma {:induction false} ToUser(kernel: multiset<nat>, user: multiset<nat>, armed: seq<bool>, id: nat)
    requires Shared(kernel + multiset{id}, user, armed)
    ensures id < NUM_BUFS
    ensures Shared(kernel, user + multiset{id}, armed[id := false])
  {
    assert Placed(kernel + multiset{id}, user, armed, id);
    var user', armed' := user + multiset{id}, armed[id := false];
    forall x: nat ensures Placed(kernel, user', armed', x) {
      assert Placed(kernel + multiset{id}, user, armed, x);
    }
  }

  /** Arming a buffer the receiver holds: the entry is queued, the flag set, no error counted. */
  lemma {:induction false} ArmKeeps(s: System, t: System, id: nat)
    requires Settled(s) && ReceiverIds(s.receiver) == [id]
    requires t == s.(receiver := Idle, errors := t.errors)
    ensures id < |s.armed| && !s.armed[id]
    ensures Arm(t, id) == t.(armed := t.armed[id := true], sq := t.sq + [id], pendingSqes := t.pendingSqes + 1)
    ensures Settled(Arm(t, id))
  {
    Few(s);
    Open(s);
    assert User(s) == User(t) + multiset{id} && Kernel(t) == Kernel(s);
    ToKernel(Kernel(s), User(t), s.armed, id);
    assert Kernel(Arm(t, id)) == Kernel(s) + multiset{id} && User(Arm(t, id)) == User(t);
    Settles(Arm(t, id));
  }

  /** Moves within the kernel's side and within the users' side. */
  lemma {:induction false} SameSides(s: System, u: System)
    requires Settled(s)
    requires Kernel(u) == Kernel(s) && User(u) == User(s) && u.armed == s.armed
    requires (u.sq == s.sq && u.pendingSqes == s.pendingSqes) || (u.sq == [] && u.pendingSqes == 0)
    ensures Settled(u)
  {
    Open(s);
    Settles(u);
  }

  lemma {:induction false} Settles(s: System)
    requires Shared(Kernel(s), User(s), s.armed) && s.pendingSqes == |s.sq|
    ensures Settled(s)
  {
    forall id: nat ensures SettledAt(s, id) {
      assert Placed(Kernel(s), User(s), s.armed, id);
    }
  }

  lemma {:induction false} TakeKeeps(s: System)
    requires Settled(s) && s.receiver.Idle? && s.cq != []
    ensures s.cq[0].id < NUM_BUFS
    ensures Settled(Step(s, Take))
  {
    var u, id := Step(s, Take), s.cq[0].id;
    Open(s);
    CqHead(s.cq);
    assert Kernel(s) == Kernel(u) + multiset{id};
    ToUser(Kernel(u), User(s), s.armed, id);
    assert User(u) == User(s) + multiset{id};
    Settles(u);
  }

  lemma {:induction false} KernelKeeps(s: System, i: nat, res: int, u: System)
    requires Settled(s) && i < |s.flight|
    requires u == s.(bufs := u.bufs, received := u.received,
                     flight := Without(s.flight, i), cq := s.cq + [Cqe(s.flight[i], res)])
    ensures Settled(u)
  {
    TakenOut(s.flight, i);
    CqLast(s.cq, Cqe(s.flight[i], res));
    assert Kernel(u) == Kernel(s);
    SameSides(s, u);
  }

  lemma {:induction false} ReclaimKeeps(s: System)
    requires Settled(s)
    ensures Settled(Step(s, Reclaim))
  {
    if s.receiver.Idle? && s.ret != [] {
      HeadOff(s.ret);
      SameSides(s, Step(s, Reclaim));
    }
  }

  lemma {:induction false} SubmitKeeps(s: System)
    requires Settled(s)
    ensures Settled(Step(s, Submit))
  {
    if s.receiver.Idle? {
      SameSides(s, Step(s, Submit));
    }
  }

  lemma {:induction false} RearmKeeps(s: System)
    requires Settled(s)
    ensures Settled(Step(s, Rearm))
  {
    if s.receiver.Reclaimed? {
      ArmKeeps(s, s.(receiver := Idle), s.receiver.id);
    }
  }

  /** A completion with data moves from the receiver's hands to the raw queue. */
  lemma {:induction false} PostKeeps(s: System)
    requires Settled(s) && s.receiver.Completed? && s.receiver.cqe.res > 0 && |s.raw| < RAW_CAPACITY
    ensures Settled(Step(s, Handle))
  {
    var u, e := Step(s, Handle), s.receiver.cqe;
    RawLast(s.raw, Chunk(e.id, e.res));
    assert ReceiverIds(s.receiver) == [e.id] && ReceiverIds(u.receiver) == [] && u.decoder == s.decoder && u.ret == s.ret;
    Regroup(multiset([e.id]), multiset(ChunkIds(s.raw)), multiset(DecoderIds(s.decoder)), multiset(s.ret));
    assert User(u) == User(s);
    SameSides(s, u);
  }

  lemma {:induction false} Regroup<T>(a: multiset<T>, b: multiset<T>, c: multiset<T>, d: multiset<T>)
    ensures a + b + c + d == multiset([]) + (b + a) + c + d
    ensures d + (a + b) + multiset([]) + c == d + b + a + c
  {
  }

  lemma {:induction false} HandleKeeps(s: System)
    requires Settled(s)
    ensures Settled(Step(s, Handle))
  {
    if s.receiver.Completed? {
      if s.receiver.cqe.res <= 0 {
        RefusedKeeps(s);
      } else if |s.raw| < RAW_CAPACITY {
        PostKeeps(s);
      }
    }
  }

  /** A completion without data: its buffer is armed again at once. */
  lemma {:induction false} RefusedKeeps(s: System)
    requires Settled(s) && s.receiver.Completed? && s.receiver.cqe.res <= 0
    ensures var e := s.receiver.cqe; var t := s.(receiver := Idle, errors := s.errors + if e.res < 0 then 1 else 0);
      && Step(s, Handle) == Arm(t, e.id) && Arm(t, e.id).sq == s.sq + [e.id] && Arm(t, e.id).errors == t.errors
    ensures Settled(Step(s, Handle))
  {
    var e := s.receiver.cqe;
    ArmKeeps(s, s.(receiver := Idle, errors := s.errors + if e.res < 0 then 1 else 0), e.id);
  }

  lemma {:induction false} PickKeeps(s: System)
    requires Settled(s)
    ensures Settled(Step(s, Pick))
  {
    if s.decoder.None? && s.raw != [] {
      var u, id := Step(s, Pick), s.raw[0].id;
      RawHead(s.raw);
      Regroup(multiset([id]), multiset(ChunkIds(u.raw)), multiset(s.ret), multiset(ReceiverIds(s.receiver)));
      assert User(u) == User(s);
      SameSides(s, u);
    }
  }

  lemma {:induction false} ReturnKeeps(s: System)
    requires Settled(s)
    ensures Settled(Step(s, Return))
  {
    if s.decoder.Some? && |s.ret| < RETURN_CAPACITY {
      SameSides(s, Step(s, Return));
    }
  }

  lemma {:induction false} EveryStepKeepsOwners(s: System, a: Action)
    requires Settled(s)
    ensures Settled(Step(s, a))
  {
    match a
    case Reclaim => ReclaimKeeps(s);
    case Rearm => RearmKeeps(s);
    case Submit => SubmitKeeps(s);
    case Take => if s.receiver.Idle? && s.cq != [] { TakeKeeps(s); }
    case Handle => HandleKeeps(s);
    case Scribble(_, _) => SameSides(s, Step(s, a));
    case Deliver(i, data) =>
      if i < |s.flight| && 0 < |data| <= BUF_SIZE { KernelKeeps(s, i, |data|, Step(s, a)); }
    case Refuse(i, res) =>
      if i < |s.flight| && res <= 0 { KernelKeeps(s, i, res, Step(s, a)); }
    case Pick => PickKeeps(s);
    case Return => ReturnKeeps(s);
  }

  // ------------------------------------------------------------ data integrity

  lemma {:induction false} ChunksAppend(a: seq<Cqe>, b: seq<Cqe>)
    ensures Chunks(a + b) == Chunks(a) + Chunks(b)
  {
    if a == [] {
      assert a + b == b;
    } else {
      assert (a + b)[1..] == a[1..] + b;
      ChunksAppend(a[1..], b);
    }
  }

  lemma {:induction false} ChunksFrom(cq: seq<Cqe>, p: Chunk)
    requires p in Chunks(cq)
    ensures p.id in CqIds(cq)
  {
    if p in Chunks(cq[1..]) {
      ChunksFrom(cq[1..], p);
      var j :| 0 <= j < |cq| - 1 && CqIds(cq[1..])[j] == p.id;
      assert CqIds(cq)[j + 1] == p.id;
    } else {
      assert CqIds(cq)[0] == p.id;
    }
  }

  /** Pending data lies in a completed buffer or in one on the users' side. */
  lemma {:induction false} PendingWhere(s: System, p: Chunk)
    requires p in Pending(s)
    ensures p.id in multiset(CqIds(s.cq)) || p.id in User(s)
  {
    if p in Chunks(s.cq) {
      ChunksFrom(s.cq, p);
    } else if p in s.raw {
      var j :| 0 <= j < |s.raw| && s.raw[j] == p;
      assert ChunkIds(s.raw)[j] == p.id;
      assert p.id in multiset(ChunkIds(s.raw));
    } else if p in ReceiverChunks(s.receiver) {
      ChunksFrom([s.receiver.cqe], p);
      assert CqIds([s.receiver.cqe]) == [s.receiver.cqe.id];
      assert p.id in multiset(ReceiverIds(s.receiver));
    } else {
      assert p in DecoderChunks(s.decoder);
      assert p.id in multiset(DecoderIds(s.decoder));
    }
  }

  /** Data waiting for the decoder lies in no buffer the kernel works on. */
  lemma {:induction false} PendingIsSafe(s: System, i: nat, p: Chunk)
    requires Settled(s) && i < |s.flight| && p in Pending(s)
    ensures p.id != s.flight[i]
  {
    var id := s.flight[i];
    assert multiset(s.flight)[id] > 0;
    assert id in Kernel(s);
    Apart(s, id);
    PendingWhere(s, p);
    assert Kernel(s)[id] >= multiset(s.flight)[id] + multiset(CqIds(s.cq))[id];
  }

  /** The kernel's writes do not touch pending data. */
  lemma {:induction false} LandingSpares(s: System, i: nat, data: seq<Byte>)
    requires Settled(s) && i < |s.flight|
    ensures Contents(Landed(s.bufs, s.flight[i], data), Pending(s)) == Contents(s.bufs, Pending(s))
  {
    var ps := Pending(s);
    forall j | 0 <= j < |ps|
      ensures Bytes(Landed(s.bufs, s.flight[i], data), ps[j]) == Bytes(s.bufs, ps[j])
    {
      PendingIsSafe(s, i, ps[j]);
    }
  }

  lemma {:induction false} ContentsAppend(bufs: seq<seq<Byte>>, a: seq<Chunk>, b: seq<Chunk>)
    ensures Contents(bufs, a + b) == Contents(bufs, a) + Contents(bufs, b)
  {
  }

  /** A step that leaves the pending data and the logs alone. */
  lemma {:induction false} StillFaithful(s: System, u: System)
    requires Faithful(s) && u.received == s.received && u.decoded == s.decoded
    requires Pending(u) == Pending(s) && Contents(u.bufs, Pending(s)) == Contents(s.bufs, Pending(s))
    ensures Faithful(u)
  {
  }

  /** A delivery is pending behind everything else. */
  lemma {:induction false} DeliveryPends(s: System, i: nat, data: seq<Byte>)
    requires i < |s.flight| && 0 < |data| <= BUF_SIZE
    ensures Pending(Step(s, Deliver(i, data))) == Pending(s) + [Chunk(s.flight[i], |data|)]
  {
    var e := Cqe(s.flight[i], |data|);
    ChunksAppend(s.cq, [e]);
    assert Chunks([e]) == [Chunk(e.id, e.res)];
  }

  lemma {:induction false} DeliverIsFaithful(s: System, i: nat, data: seq<Byte>)
    requires Settled(s) && BufsOk(s.bufs) && Faithful(s) && i < |s.flight| && 0 < |data| <= BUF_SIZE
    ensures Faithful(Step(s, Deliver(i, data)))
  {
    var id := s.flight[i];
    var bufs := Landed(s.bufs, id, data);
    assert id in multiset(s.flight);
    Apart(s, id);
    DeliveryPends(s, i, data);
    LandingSpares(s, i, data);
    ContentsAppend(bufs, Pending(s), [Chunk(id, |data|)]);
    LandedReads(s.bufs, id, data);
    AppendTwice(s.decoded, Contents(s.bufs, Pending(s)), [data]);
  }

  lemma {:induction false} LandedReads(bufs: seq<seq<Byte>>, id: nat, data: seq<Byte>)
    requires id < |bufs| && |data| <= |bufs[id]|
    ensures Contents(Landed(bufs, id, data), [Chunk(id, |data|)]) == [data]
  {
    assert (data + bufs[id][|data|..])[..|data|] == data;
  }

  lemma {:induction false} ReturnIsFaithful(s: System)
    requires Faithful(s) && s.decoder.Some? && |s.ret| < RETURN_CAPACITY
    ensures Faithful(Step(s, Return))
  {
    var u, p := Step(s, Return), s.decoder.value;
    ReturnPends(s, u);
    ContentsAppend(s.bufs, [p], Pending(u));
    AppendTwice(s.decoded, Contents(s.bufs, [p]), Contents(s.bufs, Pending(u)));
    assert u.decoded == s.decoded + Contents(s.bufs, [p]);
  }

  lemma {:induction false} ReturnPends(s: System, u: System)
    requires s.decoder.Some? && u.decoder.None? && u.raw == s.raw && u.receiver == s.receiver && u.cq == s.cq
    ensures Pending(s) == [s.decoder.value] + Pending(u)
  {
    FrontOff([s.decoder.value], s.raw, ReceiverChunks(s.receiver), Chunks(s.cq));
  }

  lemma {:induction false} FrontOff<T>(a: seq<T>, b: seq<T>, c: seq<T>, d: seq<T>)
    ensures a + b + c + d == a + ([] + b + c + d)
  {
  }

  lemma {:induction false} TakeMoves(s: System)
    requires s.receiver.Idle? && s.cq != []
    ensures Pending(Step(s, Take)) == Pending(s)
  {
    ChunksAppend([s.cq[0]], s.cq[1..]);
    assert [s.cq[0]] + s.cq[1..] == s.cq;
    var front := DecoderChunks(s.decoder) + s.raw;
    AppendTwice(front, Chunks([s.cq[0]]), Chunks(s.cq[1..]));
    assert front + [] == front;
  }

  lemma {:induction false} HandleMoves(s: System)
    requires s.receiver.Completed?
    ensures Pending(Step(s, Handle)) == Pending(s)
  {
    var e, u := s.receiver.cqe, Step(s, Handle);
    if e.res > 0 {
      if |s.raw| < RAW_CAPACITY {
        var c := Chunk(e.id, e.res);
        assert Chunks([e]) == [c] && u.raw == s.raw + [c];
        AppendTwice(DecoderChunks(s.decoder), s.raw, [c]);
        assert DecoderChunks(s.decoder) + u.raw + [] == DecoderChunks(s.decoder) + u.raw;
      }
    } else {
      assert Chunks([e]) == [] && u.raw == s.raw && u.cq == s.cq && u.decoder == s.decoder && u.receiver == Idle;
    }
  }

  lemma {:induction false} RefuseMoves(s: System, i: nat, res: int)
    requires i < |s.flight| && res <= 0
    ensures Pending(Step(s, Refuse(i, res))) == Pending(s)
  {
    var e := Cqe(s.flight[i], res);
    ChunksAppend(s.cq, [e]);
    assert Chunks([e]) == [];
  }

  /** Moving data along the pipeline keeps its order. */
  lemma {:induction false} MovesKeepPending(s: System, a: Action)
    requires a.Reclaim? || a.Rearm? || a.Submit? || a.Take? || a.Handle? || a.Refuse? || a.Pick?
    ensures Pending(Step(s, a)) == Pending(s)
  {
    match a
    case Take => if s.receiver.Idle? && s.cq != [] { TakeMoves(s); }
    case Handle => if s.receiver.Completed? { HandleMoves(s); }
    case Refuse(i, res) => if i < |s.flight| && res <= 0 { RefuseMoves(s, i, res); }
    case Pick => if s.decoder.None? && s.raw != [] { PickMoves(s); }
    case _ => ArmingMoves(s, a);
  }

  lemma {:induction false} PickMoves(s: System)
    requires s.decoder.None? && s.raw != []
    ensures Pending(Step(s, Pick)) == Pending(s)
  {
    assert s.raw == [s.raw[0]] + s.raw[1..];
    assert [] + s.raw == [s.raw[0]] + s.raw[1..];
  }

  /** Reclaiming, arming and submitting move no data. */
  lemma {:induction false} ArmingMoves(s: System, a: Action)
    requires a.Reclaim? || a.Rearm? || a.Submit?
    ensures Pending(Step(s, a)) == Pending(s)
  {
    var u := Step(s, a);
    assert u.decoder == s.decoder && u.raw == s.raw && u.cq == s.cq;
    assert ReceiverChunks(u.receiver) == ReceiverChunks(s.receiver);
  }

  /** Steps other than the kernel's writes and the decoder's reads touch neither data nor logs. */
  lemma {:induction false} MovesKeepData(s: System, a: Action)
    requires !a.Scribble? && !a.Deliver? && !a.Return?
    ensures var u := Step(s, a); u.bufs == s.bufs && u.received == s.received && u.decoded == s.decoded
  {
  }

  lemma {:induction false} StepIsFaithful(s: System, a: Action)
    requires Settled(s) && BufsOk(s.bufs) && Faithful(s)
    ensures Faithful(Step(s, a))
  {
    match a
    case Scribble(i, data) =>
      if i < |s.flight| {
        LandingSpares(s, i, data);
        StillFaithful(s, s.(bufs := Landed(s.bufs, s.flight[i], data)));
      }
    case Deliver(i, data) =>
      if i < |s.flight| && 0 < |data| <= BUF_SIZE { DeliverIsFaithful(s, i, data); }
    case Return =>
      if s.decoder.Some? && |s.ret| < RETURN_CAPACITY { ReturnIsFaithful(s); }
    case _ =>
      MovesKeepPending(s, a);
      MovesKeepData(s, a);
      StillFaithful(s, Step(s, a));
  }

  // -------------------------------------------------------------- every run

  ghost predicate Sound(s: System) {
    Settled(s) && BufsOk(s.bufs) && Faithful(s)
  }

  lemma {:induction false} StepKeepsBufs(s: System, a: Action)
    requires BufsOk(s.bufs)
    ensures BufsOk(Step(s, a).bufs)
  {
  }

  lemma {:induction false} StepKeeps(s: System, a: Action)
    requires Sound(s)
    ensures Sound(Step(s, a))
  {
    StepIsFaithful(s, a);
    EveryStepKeepsOwners(s, a);
    StepKeepsBufs(s, a);
  }

  lemma {:induction false} StartIsSound(bufs: seq<seq<Byte>>)
    requires BufsOk(bufs)
    ensures Sound(Start(bufs))
  {
    var s := Start(bufs);
    assert User(s) == multiset{};
    assert Kernel(s) == multiset(AllIds(NUM_BUFS));
    forall id: nat ensures Placed(Kernel(s), User(s), s.armed, id) {
      OneEach(NUM_BUFS, id);
    }
    Settles(s);
    assert Pending(s) == [];
  }

  lemma {:induction false} RunIsSound(bufs: seq<seq<Byte>>, actions: seq<Action>)
    requires BufsOk(bufs)
    ensures Sound(Run(Start(bufs), actions))
  {
    if actions == [] {
      StartIsSound(bufs);
    } else {
      RunIsSound(bufs, actions[..|actions| - 1]);
      StepKeeps(Run(Start(bufs), actions[..|actions| - 1]), actions[|actions| - 1]);
    }
  }

  /** Every buffer is in exactly one place, and the armed flag says on which side. */
  ghost predicate OnePlaceEach(s: System) {
    && |s.armed| == NUM_BUFS
    && forall id: nat :: id < NUM_BUFS ==>
         Kernel(s)[id] + User(s)[id] == 1 && (s.armed[id] <==> id in Kernel(s))
  }

  /** A buffer being decoded, waiting to be decoded, or just returned is not armed. */
  ghost predicate NotArmed(s: System) {
    && |s.armed| == NUM_BUFS
    && (s.decoder.Some? ==> s.decoder.value.id < NUM_BUFS && !s.armed[s.decoder.value.id])
    && (forall i :: 0 <= i < |s.raw| ==> s.raw[i].id < NUM_BUFS && !s.armed[s.raw[i].id])
    && (s.receiver.Reclaimed? ==> s.receiver.id < NUM_BUFS && !s.armed[s.receiver.id])
  }

  /** No queue is ever full, so no push spins and no buffer is dropped. */
  ghost predicate NeverFull(s: System) {
    |s.raw| < RAW_CAPACITY && |s.ret| < RETURN_CAPACITY && |s.sq| < RING_DEPTH
  }

  lemma {:induction false} UsersAreUnarmed(s: System)
    requires Settled(s)
    ensures NotArmed(s)
  {
    Open(s);
    if s.decoder.Some? {
      assert s.decoder.value.id in multiset(DecoderIds(s.decoder));
      Apart(s, s.decoder.value.id);
    }
    forall i | 0 <= i < |s.raw|
      ensures s.raw[i].id < NUM_BUFS && !s.armed[s.raw[i].id]
    {
      assert ChunkIds(s.raw)[i] == s.raw[i].id;
      assert s.raw[i].id in multiset(ChunkIds(s.raw));
      Apart(s, s.raw[i].id);
    }
    if s.receiver.Reclaimed? {
      assert s.receiver.id in multiset(ReceiverIds(s.receiver));
      Apart(s, s.receiver.id);
    }
  }

  lemma {:induction false} NoneTwice(s: System)
    requires Settled(s)
    ensures OnePlaceEach(s) && NeverFull(s)
  {
    Few(s);
    Open(s);
    forall id: nat | id < NUM_BUFS
      ensures Kernel(s)[id] + User(s)[id] == 1 && (s.armed[id] <==> id in Kernel(s))
    {
      assert Placed(Kernel(s), User(s), s.armed, id);
    }
  }

  /** A turn of the decoder: it reads the oldest delivered data it has not read yet and hands that
      buffer back; always possible when something is queued, and nothing else changes. */
  lemma {:induction false} DecoderTurn(s: System)
    requires Sound(s) && s.decoder.None? && s.raw != []
    ensures |s.decoded| < |s.received|
    ensures Step(Step(s, Pick), Return)
         == s.(raw := s.raw[1..], ret := s.ret + [s.raw[0].id], decoded := s.decoded + [s.received[|s.decoded|]])
  {
    NoneTwice(s);
    NextData(s);
  }

  lemma {:induction false} NextData(s: System)
    requires Faithful(s) && s.decoder.None? && s.raw != []
    ensures |s.decoded| < |s.received| && s.received[|s.decoded|] == Bytes(s.bufs, s.raw[0])
  {
    var ps := Pending(s);
    assert ps[0] == s.raw[0];
    assert Contents(s.bufs, ps)[0] == Bytes(s.bufs, ps[0]);
  }

  /** In every run of receiver, kernel and decoder: each buffer is in one place, a buffer with
      data for the decoder is not armed, no queue fills up, and the decoder reads the delivered
      data, in order and unaltered. */
  lemma {:induction false} BuffersCirculate(bufs: seq<seq<Byte>>, actions: seq<Action>)
    requires BufsOk(bufs)
    ensures var s := Run(Start(bufs), actions);
      OnePlaceEach(s) && NotArmed(s) && NeverFull(s) && s.received == s.decoded + Contents(s.bufs, Pending(s))
  {
    RunIsSound(bufs, actions);
    NoneTwice(Run(Start(bufs), actions));
    UsersAreUnarmed(Run(Start(bufs), actions));
  }
}
