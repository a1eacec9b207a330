/**
  * The keysign worker, bifrost/tss/tss_signer.go: its queues over whole runs, and the replies of a
  * batch. What the local TSS server answers is given.
  */
module KeysignServer {
  import opened Outcome
  import opened Keysign
  import opened Ordering

  // ---------- replies ----------

  datatype Sig = Sig(msg: string, r: string, s: string, recovery: string)

  datatype Reason = AlgoUnknown | HeightUnknown | ServerFailed | NoSignature | Blamed

  datatype Answer = Signed(sig: Sig) | Failed(reason: Reason)

  datatype Reply = Reply(task: Task, answer: Answer)

  /** How a request ends: no block height, an error, or a response with its count of blamed nodes. */
  datatype Server = NoHeight | Error | Response(status: int, blamed: nat, sigs: seq<Sig>)

  function FirstFor(sigs: seq<Sig>, msg: string): Option<Sig> {
    if sigs == [] then None else if sigs[0].msg == msg then Some(sigs[0]) else FirstFor(sigs[1..], msg)
  }

  function AnswerFor(t: Task, server: Server): Answer {
    match server
    case NoHeight => Failed(HeightUnknown)
    case Error => Failed(ServerFailed)
    case Response(status, blamed, sigs) =>
      if status != 1 || blamed > 0 then Failed(Blamed)
      else match FirstFor(sigs, t.msg) case Some(sig) => Signed(sig) case None => Failed(NoSignature)
  }

  function Serve(server: Server): Task -> Answer { t => AnswerFor(t, server) }

  function FailWith(reason: Reason): Task -> Answer { _ => Failed(reason) }

  /** A task is told a signature only of its own message, and always when there is one. */
  lemma {:induction false} FirstForIff(sigs: seq<Sig>, msg: string)
    ensures FirstFor(sigs, msg).Some? <==> exists sig :: sig in sigs && sig.msg == msg
    ensures FirstFor(sigs, msg).Some? ==> FirstFor(sigs, msg).value in sigs && FirstFor(sigs, msg).value.msg == msg
  {
    if sigs != [] {
      FirstForIff(sigs[1..], msg);
      assert sigs == [sigs[0]] + sigs[1..];
    }
  }

  function ReplyAll(ts: seq<Task>, f: Task -> Answer): seq<Reply> {
    if ts == [] then [] else [Reply(ts[0], f(ts[0]))] + ReplyAll(ts[1..], f)
  }

  lemma {:induction false} ReplyAllSnoc(ts: seq<Task>, f: Task -> Answer, i: nat)
    requires i < |ts|
    ensures ReplyAll(ts[..i + 1], f) == ReplyAll(ts[..i], f) + [Reply(ts[i], f(ts[i]))]
  {
    if i > 0 {
      ReplyAllSnoc(ts[1..], f, i - 1);
      TakeTail(ts, i + 1);
      TakeTail(ts, i);
    }
  }

  lemma TakeTail(ts: seq<Task>, i: nat)
    requires 0 < i <= |ts|
    ensures ts[..i][1..] == ts[1..][..i - 1]
  {
  }

  /** setTssKeySignTasksFail. */
  method FailAll(tasks: seq<Task>, reason: Reason) returns (replies: seq<Reply>)
    ensures replies == ReplyAll(tasks, FailWith(reason))
  {
    replies := [];
    var i := 0;
    while i < |tasks|
      invariant 0 <= i <= |tasks| && replies == ReplyAll(tasks[..i], FailWith(reason))
    {
      ReplyAllSnoc(tasks, FailWith(reason), i);
      replies := replies + [Reply(tasks[i], Failed(reason))];
      i := i + 1;
    }
    assert tasks[..i] == tasks;
  }

  /** toLocalTSSSigner: every way out replies to every task, once and in order. */
  method ToLocalSigner(tasks: seq<Task>, server: Server) returns (replies: seq<Reply>)
    ensures replies == ReplyAll(tasks, Serve(server))
  {
    ghost var f := Serve(server);
    match server {
      case NoHeight =>
        replies := FailAll(tasks, HeightUnknown);
        SameReplies(tasks, FailWith(HeightUnknown), f);
      case Error =>
        replies := FailAll(tasks, ServerFailed);
        SameReplies(tasks, FailWith(ServerFailed), f);
      case Response(status, blamed, sigs) =>
        if status == 1 && blamed == 0 {
          replies := [];
          var i := 0;
          while i < |tasks|
            invariant 0 <= i <= |tasks| && replies == ReplyAll(tasks[..i], f)
          {
            ReplyAllSnoc(tasks, f, i);
            var sig := FindSignature(sigs, tasks[i].msg);
            replies := replies + [Reply(tasks[i], if sig.Some? then Signed(sig.value) else Failed(NoSignature))];
            i := i + 1;
          }
          assert tasks[..i] == tasks;
        } else {
          replies := FailAll(tasks, Blamed);
          SameReplies(tasks, FailWith(Blamed), f);
        }
    }
  }

  lemma {:induction false} SameReplies(ts: seq<Task>, f: Task -> Answer, g: Task -> Answer)
    requires forall t :: t in ts ==> f(t) == g(t)
    ensures ReplyAll(ts, f) == ReplyAll(ts, g)
  {
    if ts != [] {
      assert ts[0] in ts;
      SameReplies(ts[1..], f, g);
    }
  }

  method FindSignature(sigs: seq<Sig>, msg: string) returns (sig: Option<Sig>)
    ensures sig == FirstFor(sigs, msg)
  {
    var i := 0;
    assert sigs[0..] == sigs;
    while i < |sigs|
      invariant 0 <= i <= |sigs| && FirstFor(sigs, msg) == FirstFor(sigs[i..], msg)
    {
      assert sigs[i..][1..] == sigs[i + 1..];
      if sigs[i].msg == msg { return Some(sigs[i]); }
      i := i + 1;
    }
    return None;
  }

  // ---------- one batch ----------

  function UnknownCount(ts: seq<Task>): nat {
    if ts == [] then 0 else UnknownCount(ts[..|ts| - 1]) + (if ts[|ts| - 1].algo.Unknown? then 1 else 0)
  }

  function Repeated(rs: seq<Reply>, n: nat): seq<Reply> {
    if n == 0 then [] else Repeated(rs, n - 1) + rs
  }

  /** An unknown algorithm fails the whole batch, once per such task, and the rest is still signed. */
  function BatchReplies(batch: seq<Task>, secp: Server, ed: Server): seq<Reply> {
    Repeated(ReplyAll(batch, FailWith(AlgoUnknown)), UnknownCount(batch))
    + ReplyAll(OfAlgo(batch, Secp256k1), Serve(secp))
    + ReplyAll(OfAlgo(batch, Ed25519), Serve(ed))
  }

  method SendBatch(batch: seq<Task>, secp: Server, ed: Server) returns (replies: seq<Reply>)
    ensures replies == BatchReplies(batch, secp, ed)
  {
    var secpTasks: seq<Task>, edTasks: seq<Task> := [], [];
    replies := [];
    var i := 0;
    while i < |batch|
      invariant 0 <= i <= |batch|
      invariant secpTasks == OfAlgo(batch[..i], Secp256k1) && edTasks == OfAlgo(batch[..i], Ed25519)
      invariant replies == Repeated(ReplyAll(batch, FailWith(AlgoUnknown)), UnknownCount(batch[..i]))
    {
      OfAlgoSnoc(batch, Secp256k1, i);
      OfAlgoSnoc(batch, Ed25519, i);
      UnknownSnoc(batch, i);
      hide OfAlgo, UnknownCount, ReplyAll;
      match batch[i].algo {
        case Secp256k1 => secpTasks := secpTasks + [batch[i]];
        case Ed25519 => edTasks := edTasks + [batch[i]];
        case Unknown(_) =>
          var fails := FailAll(batch, AlgoUnknown);
          replies := replies + fails;
      }
      i := i + 1;
    }
    assert batch[..i] == batch;
    var a, b := [], [];
    if |secpTasks| > 0 { a := ToLocalSigner(secpTasks, secp); }
    if |edTasks| > 0 { b := ToLocalSigner(edTasks, ed); }
    replies := replies + a + b;
  }

  lemma UnknownSnoc(ts: seq<Task>, i: nat)
    requires i < |ts|
    ensures UnknownCount(ts[..i + 1]) == UnknownCount(ts[..i]) + if ts[i].algo.Unknown? then 1 else 0
  {
    assert ts[..i + 1][..i] == ts[..i];
  }

  lemma {:induction false} OfAlgoSnoc(ts: seq<Task>, algo: Algo, i: nat)
    requires i < |ts|
    ensures OfAlgo(ts[..i + 1], algo) == OfAlgo(ts[..i], algo) + (if ts[i].algo == algo then [ts[i]] else [])
  {
    if i > 0 {
      OfAlgoSnoc(ts[1..], algo, i - 1);
      TakeTail(ts, i + 1);
      TakeTail(ts, i);
    }
  }

  function RepliesTo(rs: seq<Reply>, t: Task): nat {
    if rs == [] then 0 else (if rs[0].task == t then 1 else 0) + RepliesTo(rs[1..], t)
  }

  lemma {:induction false} RepliesConcat(a: seq<Reply>, b: seq<Reply>, t: Task)
    ensures RepliesTo(a + b, t) == RepliesTo(a, t) + RepliesTo(b, t)
  {
    if a == [] {
      assert a + b == b;
    } else {
      RepliesConcat(a[1..], b, t);
      assert (a + b)[1..] == a[1..] + b;
    }
  }

  lemma {:induction false} RepliesPerTask(ts: seq<Task>, f: Task -> Answer, t: Task)
    ensures RepliesTo(ReplyAll(ts, f), t) == multiset(ts)[t]
  {
    if ts != [] {
      RepliesPerTask(ts[1..], f, t);
      assert ts == [ts[0]] + ts[1..];
    }
  }

  lemma {:induction false} RepliesRepeated(rs: seq<Reply>, n: nat, t: Task)
    ensures RepliesTo(Repeated(rs, n), t) == n * RepliesTo(rs, t)
  {
    if n == 0 {
      return;
    }
    RepliesRepeated(rs, n - 1, t);
    assert Repeated(rs, n) == Repeated(rs, n - 1) + rs;
    hide Repeated, RepliesTo;
    RepliesConcat(Repeated(rs, n - 1), rs, t);
    var r := RepliesTo(rs, t);
    assert n * r == (n - 1) * r + r;
  }

  /** With u tasks of unknown algorithm, those get u replies each and the others u + 1. */
  lemma RepliesExact(batch: seq<Task>, secp: Server, ed: Server, t: Task)
    requires multiset(batch)[t] == 1
    ensures RepliesTo(BatchReplies(batch, secp, ed), t) == UnknownCount(batch) + if t.algo.Unknown? then 0 else 1
  {
    var fails, u := ReplyAll(batch, FailWith(AlgoUnknown)), UnknownCount(batch);
    var a, b := OfAlgo(batch, Secp256k1), OfAlgo(batch, Ed25519);
    var failed, signed, signedEd := Repeated(fails, u), ReplyAll(a, Serve(secp)), ReplyAll(b, Serve(ed));
    hide *;
    BatchParts(batch, secp, ed);
    RepliesConcat(failed + signed, signedEd, t);
    RepliesConcat(failed, signed, t);
    RepliesRepeated(fails, u, t);
    RepliesPerTask(batch, FailWith(AlgoUnknown), t);
    RepliesPerTask(a, Serve(secp), t);
    RepliesPerTask(b, Serve(ed), t);
    OfAlgoCount(batch, Secp256k1, t);
    OfAlgoCount(batch, Ed25519, t);
  }

  lemma BatchParts(batch: seq<Task>, secp: Server, ed: Server)
    ensures BatchReplies(batch, secp, ed)
         == Repeated(ReplyAll(batch, FailWith(AlgoUnknown)), UnknownCount(batch))
            + ReplyAll(OfAlgo(batch, Secp256k1), Serve(secp)) + ReplyAll(OfAlgo(batch, Ed25519), Serve(ed))
  {
  }

  /** A task of a known algorithm gets exactly one reply exactly when the batch has no unknown one. */
  lemma OneReplyIff(batch: seq<Task>, secp: Server, ed: Server, t: Task)
    requires multiset(batch)[t] == 1 && !t.algo.Unknown?
    ensures RepliesTo(BatchReplies(batch, secp, ed), t) == 1 <==> forall x :: x in batch ==> !x.algo.Unknown?
  {
    RepliesExact(batch, secp, ed, t);
    NoUnknownIff(batch);
  }

  lemma {:induction false} ReplyAllHas(ts: seq<Task>, f: Task -> Answer, t: Task)
    requires t in ts
    ensures Reply(t, f(t)) in ReplyAll(ts, f)
  {
    if ts[0] != t {
      assert ts == [ts[0]] + ts[1..];
      ReplyAllHas(ts[1..], f, t);
    }
  }

  /** Among the replies is the answer of the server for the task's own algorithm and message. */
  lemma OwnReply(batch: seq<Task>, secp: Server, ed: Server, t: Task)
    requires t in batch && !t.algo.Unknown?
    ensures Reply(t, AnswerFor(t, if t.algo.Secp256k1? then secp else ed)) in BatchReplies(batch, secp, ed)
  {
    OfAlgoCount(batch, t.algo, t);
    assert t in multiset(OfAlgo(batch, t.algo));
    ReplyAllHas(OfAlgo(batch, t.algo), Serve(if t.algo.Secp256k1? then secp else ed), t);
  }

  /** The reply that reaches the caller: its channel is empty when the first one is sent. */
  function FirstReply(rs: seq<Reply>, t: Task): Option<Answer> {
    if rs == [] then None else if rs[0].task == t then Some(rs[0].answer) else FirstReply(rs[1..], t)
  }

  lemma {:induction false} FirstConcat(a: seq<Reply>, b: seq<Reply>, t: Task)
    ensures FirstReply(a + b, t) == if FirstReply(a, t).Some? then FirstReply(a, t) else FirstReply(b, t)
  {
    if a == [] {
      assert a + b == b;
    } else {
      FirstConcat(a[1..], b, t);
      assert (a + b)[1..] == a[1..] + b;
    }
  }

  lemma {:induction false} FirstOfAll(ts: seq<Task>, f: Task -> Answer, t: Task)
    ensures FirstReply(ReplyAll(ts, f), t) == if t in ts then Some(f(t)) else None
  {
    if ts != [] {
      FirstOfAll(ts[1..], f, t);
      assert ts == [ts[0]] + ts[1..];
    }
  }

  lemma {:induction false} FirstRepeated(rs: seq<Reply>, n: nat, t: Task)
    ensures FirstReply(Repeated(rs, n), t) == if n == 0 then None else FirstReply(rs, t)
  {
    if n > 0 {
      FirstRepeated(rs, n - 1, t);
      FirstConcat(Repeated(rs, n - 1), rs, t);
    }
  }

  lemma OfAlgoHas(ts: seq<Task>, algo: Algo, t: Task)
    ensures t in OfAlgo(ts, algo) <==> t in ts && t.algo == algo
  {
    OfAlgoCount(ts, algo, t);
    assert t in OfAlgo(ts, algo) <==> t in multiset(OfAlgo(ts, algo));
    assert t in ts <==> t in multiset(ts);
  }

  /**
    * What the caller is told: the answer for its own message and algorithm if all algorithms of the
    * batch are known, and otherwise that an algorithm is unknown, though the task may be signed.
    */
  lemma CallerIsTold(batch: seq<Task>, secp: Server, ed: Server, t: Task)
    requires t in batch
    ensures FirstReply(BatchReplies(batch, secp, ed), t)
         == Some(if UnknownCount(batch) > 0 then Failed(AlgoUnknown) else AnswerFor(t, if t.algo.Secp256k1? then secp else ed))
  {
    var fails, u := ReplyAll(batch, FailWith(AlgoUnknown)), UnknownCount(batch);
    var a, b := OfAlgo(batch, Secp256k1), OfAlgo(batch, Ed25519);
    FirstConcat(Repeated(fails, u) + ReplyAll(a, Serve(secp)), ReplyAll(b, Serve(ed)), t);
    FirstConcat(Repeated(fails, u), ReplyAll(a, Serve(secp)), t);
    FirstRepeated(fails, u, t);
    FirstOfAll(batch, FailWith(AlgoUnknown), t);
    FirstOfAll(a, Serve(secp), t);
    FirstOfAll(b, Serve(ed), t);
    OfAlgoHas(batch, Secp256k1, t);
    OfAlgoHas(batch, Ed25519, t);
    NoUnknownIff(batch);
    hide FirstReply, ReplyAll, Repeated, OfAlgo, UnknownCount;
  }

  lemma {:induction false} NoUnknownIff(ts: seq<Task>)
    ensures UnknownCount(ts) == 0 <==> forall x :: x in ts ==> !x.algo.Unknown?
  {
    if ts != [] {
      var n := |ts| - 1;
      NoUnknownIff(ts[..n]);
      assert ts == ts[..n] + [ts[n]];
    }
  }

  // ---------- the queues ----------

  type Queues = map<string, seq<Task>>

  function Queued(qs: Queues, t: Task): nat { if t.pool in qs then multiset(qs[t.pool])[t] else 0 }

  function Enqueued(qs: Queues, t: Task): Queues {
    qs[t.pool := (if t.pool in qs then qs[t.pool] else []) + [t]]
  }

  function Batches(qs: Queues): Queues { map k | k in qs && qs[k] != [] :: Taken(qs[k]) }

  /** Empty queues are deleted. */
  function AfterTick(qs: Queues): Queues { map k | k in qs && qs[k] != [] :: Left(qs[k]) }

  class KeySign {
    var tasks: Queues

    constructor ()
      ensures tasks == map[]
    {
      tasks := map[];
    }

    method Enqueue(t: Task)
      modifies this
      ensures tasks == Enqueued(old(tasks), t)
    {
      if t.pool !in tasks {
        assert [] + [t] == [t];
        tasks := tasks[t.pool := [t]];
      } else {
        tasks := tasks[t.pool := tasks[t.pool] + [t]];
      }
    }

    /** One tick, over the keys in any order. */
    method Tick() returns (batches: Queues)
      modifies this
      ensures tasks == AfterTick(old(tasks)) && batches == Batches(old(tasks))
    {
      var keys := tasks.Keys;
      batches := map[];
      while keys != {}
        invariant Midway(old(tasks), keys, tasks, batches)
        decreases |keys|
      {
        hide Taken, Left, Midway;
        var k :| k in keys;
        MidStep(old(tasks), keys, tasks, batches, k);
        keys := keys - {k};
        var v := tasks[k];
        if |v| == 0 {
          tasks := tasks - {k};
        } else {
          var batch, rest := TakeBatch(v);
          batches := batches[k := batch];
          tasks := tasks[k := rest];
        }
      }
      MidEnd(old(tasks), tasks, batches);
    }
  }

  /** A tick that still has `keys` to visit. */
  ghost predicate Midway(before: Queues, keys: set<string>, now: Queues, batches: Queues) {
    && keys <= before.Keys
    && (forall k :: k in now <==> k in before && (k in keys || before[k] != []))
    && (forall k :: k in now ==> now[k] == if k in keys then before[k] else Left(before[k]))
    && (forall k :: k in batches <==> k in before && k !in keys && before[k] != [])
    && (forall k :: k in batches ==> batches[k] == Taken(before[k]))
  }

  lemma MidStep(before: Queues, keys: set<string>, now: Queues, batches: Queues, k: string)
    requires Midway(before, keys, now, batches) && k in keys
    ensures k in now && k in before && now[k] == before[k]
    ensures before[k] == [] ==> Midway(before, keys - {k}, now - {k}, batches)
    ensures before[k] != [] ==> Midway(before, keys - {k}, now[k := Left(before[k])], batches[k := Taken(before[k])])
  {
    hide Taken, Left;
  }

  lemma MidEnd(before: Queues, now: Queues, batches: Queues)
    requires Midway(before, {}, now, batches)
    ensures now == AfterTick(before) && batches == Batches(before)
  {
    hide Taken, Left;
  }

  method TakeBatch(q: seq<Task>) returns (batch: seq<Task>, rest: seq<Task>)
    ensures batch == Taken(q) && rest == Left(q)
  {
    var v, total := q, |q|;
    if total > MAX_BATCH {
      total := MAX_BATCH;
      v := StableSort(v, MsgLess);
    }
    return v[..total], v[total..];
  }

  // ---------- runs ----------

  datatype State = State(queues: Queues, arrived: multiset<Task>, sent: multiset<Task>)

  datatype Step = Arrive(t: Task) | Tick

  ghost predicate ByPool(qs: Queues) {
    forall k, t :: k in qs && t in qs[k] ==> t.pool == k
  }

  /** All tasks of a map of batches. */
  ghost function Union(qs: Queues): multiset<Task>
    decreases |qs|
  {
    if |qs| == 0 then multiset{}
    else
      var k :| k in qs;
      multiset(qs[k]) + Union(qs - {k})
  }

  lemma {:induction false} UnionCount(qs: Queues, t: Task)
    requires ByPool(qs)
    ensures Union(qs)[t] == Queued(qs, t)
    decreases |qs|
  {
    if |qs| > 0 {
      var k :| k in qs && Union(qs) == multiset(qs[k]) + Union(qs - {k});
      UnionCount(qs - {k}, t);
      if k != t.pool {
        assert t !in qs[k];
      }
    }
  }

  ghost function Apply(s: State, step: Step): State {
    match step
    case Arrive(t) => s.(queues := Enqueued(s.queues, t), arrived := s.arrived + multiset{t})
    case Tick => s.(queues := AfterTick(s.queues), sent := s.sent + Union(Batches(s.queues)))
  }

  ghost function Exec(s: State, steps: seq<Step>): State
    decreases |steps|
  {
    if steps == [] then s else Exec(Apply(s, steps[0]), steps[1..])
  }

  ghost predicate Balanced(s: State) {
    ByPool(s.queues) && forall t :: s.arrived[t] == s.sent[t] + Queued(s.queues, t)
  }

  lemma TickCounts(qs: Queues, t: Task)
    requires ByPool(qs)
    ensures ByPool(Batches(qs)) && ByPool(AfterTick(qs))
    ensures Queued(qs, t) == Queued(Batches(qs), t) + Queued(AfterTick(qs), t)
  {
    forall k, x | k in qs && (x in Taken(qs[k]) || x in Left(qs[k])) ensures x.pool == k {
      TickPartitions(qs[k]);
      assert x in multiset(Ordered(qs[k]));
    }
    if t.pool in qs {
      TickPartitions(qs[t.pool]);
    }
  }

  lemma ArriveCounts(qs: Queues, x: Task, t: Task)
    requires ByPool(qs)
    ensures ByPool(Enqueued(qs, x)) && Queued(Enqueued(qs, x), t) == Queued(qs, t) + if t == x then 1 else 0
  {
  }

  lemma StepBalances(s: State, step: Step)
    requires Balanced(s)
    ensures Balanced(Apply(s, step))
  {
    var u := Apply(s, step);
    forall t ensures ByPool(u.queues) && u.arrived[t] == u.sent[t] + Queued(u.queues, t) {
      assert s.arrived[t] == s.sent[t] + Queued(s.queues, t);
      hide Queued, ByPool, Enqueued, Batches, AfterTick, Union;
      match step {
        case Arrive(x) => ArriveCounts(s.queues, x, t);
        case Tick =>
          TickCounts(s.queues, t);
          UnionCount(Batches(s.queues), t);
      }
    }
    assert ByPool(u.queues) by { var t := Task(0, "", Secp256k1, ""); assert u.arrived[t] == u.sent[t] + Queued(u.queues, t); }
  }

  /** Over any run no task is lost or sent twice: it is queued, or it was sent, as often as it came. */
  lemma {:induction false} NoneLostOrTwice(s: State, steps: seq<Step>)
    requires Balanced(s)
    ensures Balanced(Exec(s, steps))
    decreases |steps|
  {
    hide Balanced, Apply;
    if steps != [] {
      StepBalances(s, steps[0]);
      NoneLostOrTwice(Apply(s, steps[0]), steps[1..]);
    }
  }
}
