/**
  * TSS batching, bifrost/tss/tss_signer.go: the task queues per pool key, what one tick sends, how
  * a batch is split by algorithm, and the replies the tasks get.
  */
module Keysign {
  import opened Ordering

  datatype Algo = Secp256k1 | Ed25519 | Unknown(name: string)

  /** `id` stands for the task's own reply channel. */
  datatype Task = Task(id: nat, pool: string, algo: Algo, msg: string)

  const MAX_BATCH := 15

  // ---------- one tick, one queue ----------

  predicate MsgLess(a: Task, b: Task) { LexLess(a.msg, b.msg) }

  /** Long queues are sorted by message first. */
  function Ordered(q: seq<Task>): (r: seq<Task>)
    ensures multiset(r) == multiset(q) && |r| == |q|
  {
    if |q| > MAX_BATCH then StableSort(q, MsgLess) else q
  }

  function BatchSize(q: seq<Task>): nat { if |q| > MAX_BATCH then MAX_BATCH else |q| }

  function Taken(q: seq<Task>): seq<Task> { Ordered(q)[..BatchSize(q)] }

  function Left(q: seq<Task>): seq<Task> { Ordered(q)[BatchSize(q)..] }

  /** No task of the queue is lost or duplicated, and a tick takes all it may. */
  lemma TickPartitions(q: seq<Task>)
    ensures multiset(Taken(q)) + multiset(Left(q)) == multiset(q)
    ensures |Taken(q)| == (if |q| > MAX_BATCH then MAX_BATCH else |q|)
  {
    assert Ordered(q) == Taken(q) + Left(q);
  }

  // ---------- the same messages on every node ----------

  function Messages(ts: seq<Task>): seq<string> {
    if ts == [] then [] else [ts[0].msg] + Messages(ts[1..])
  }

  lemma {:induction false} MessagesAt(ts: seq<Task>, i: nat)
    requires i < |ts|
    ensures |Messages(ts)| == |ts| && Messages(ts)[i] == ts[i].msg
  {
    if i > 0 {
      MessagesAt(ts[1..], i - 1);
    } else if |ts| > 1 {
      MessagesAt(ts[1..], 0);
    }
  }

  lemma {:induction false} MessagesConcat(a: seq<Task>, b: seq<Task>)
    ensures Messages(a + b) == Messages(a) + Messages(b)
  {
    if a == [] {
      assert a + b == b;
    } else {
      var rest := a[1..];
      MessagesConcat(rest, b);
      assert Messages(a + b) == [a[0].msg] + Messages(rest + b) by { assert (a + b)[1..] == rest + b; }
    }
  }

  lemma DropAt<T>(s: seq<T>, k: nat)
    requires k < |s|
    ensures multiset(s[..k] + s[k + 1..]) == multiset(s) - multiset{s[k]}
  {
    assert s == s[..k] + [s[k]] + s[k + 1..];
  }

  lemma DropFirst<T>(s: seq<T>)
    requires s != []
    ensures multiset(s[1..]) == multiset(s) - multiset{s[0]}
  {
    DropAt(s, 0);
    assert s[..0] + s[1..] == s[1..];
  }

  lemma Find<T>(s: seq<T>, x: T) returns (k: nat)
    requires x in multiset(s)
    ensures k < |s| && s[k] == x
  {
    k :| 0 <= k < |s| && s[k] == x;
  }

  lemma NoneLeft<T>(s: seq<T>)
    requires multiset(s) == multiset{}
    ensures s == []
  {
    assert |multiset(s)| == 0;
  }

  lemma {:induction false} PermutedMessages(a: seq<Task>, b: seq<Task>)
    requires multiset(a) == multiset(b)
    ensures multiset(Messages(a)) == multiset(Messages(b))
  {
    if a == [] {
      NoneLeft(b);
    } else {
      assert a[0] in multiset(a);
      var k := Find(b, a[0]);
      DropFirst(a);
      DropAt(b, k);
      PermutedMessages(a[1..], b[..k] + b[k + 1..]);
      assert Messages(a) == [a[0].msg] + Messages(a[1..]);
      hide Messages;
      MessagesWithout(b, k);
    }
  }

  lemma MessagesWithout(b: seq<Task>, k: nat)
    requires k < |b|
    ensures multiset(Messages(b)) == multiset{b[k].msg} + multiset(Messages(b[..k] + b[k + 1..]))
  {
    hide Messages;
    SplitAt(b, k);
    var front, t, back := b[..k], b[k], b[k + 1..];
    MessagesConcat(front, [t] + back);
    MessagesCons(t, back);
    MessagesConcat(front, back);
    PutBack(Messages(front), t.msg, Messages(back));
  }

  lemma SplitAt(b: seq<Task>, k: nat)
    requires k < |b|
    ensures b == b[..k] + ([b[k]] + b[k + 1..])
  {
  }

  lemma MessagesCons(t: Task, ts: seq<Task>)
    ensures Messages([t] + ts) == [t.msg] + Messages(ts)
  {
  }

  lemma PutBack(a: seq<string>, m: string, c: seq<string>)
    ensures multiset(a + ([m] + c)) == multiset{m} + multiset(a + c)
  {
  }

  ghost predicate Ascending(s: seq<string>) {
    forall i, j :: 0 <= i < j < |s| ==> !LexLess(s[j], s[i])
  }

  lemma SameHead(s: seq<string>, t: seq<string>)
    requires Ascending(s) && Ascending(t) && multiset(s) == multiset(t) && s != [] && t != []
    ensures s[0] == t[0]
  {
    assert s[0] in multiset(s) && t[0] in multiset(t);
    var i := Find(s, t[0]);
    var j := Find(t, s[0]);
    LexTotal(s[0], t[0]);
  }

  /** Ascending sequences with the same elements, repetitions counted, are equal. */
  lemma {:induction false} AscendingUnique(s: seq<string>, t: seq<string>)
    requires Ascending(s) && Ascending(t) && multiset(s) == multiset(t)
    ensures s == t
    decreases |s|
  {
    if s == [] {
      NoneLeft(t);
    } else if t == [] {
      NoneLeft(s);
    } else {
      SameHead(s, t);
      DropFirst(s);
      DropFirst(t);
      AscendingUnique(s[1..], t[1..]);
      assert s == [s[0]] + s[1..] && t == [t[0]] + t[1..];
    }
  }

  lemma MsgWeakOrder()
    ensures WeakOrder(MsgLess)
  {
    forall a: Task, b: Task | MsgLess(a, b) ensures !MsgLess(b, a) {
      LexAsymmetric(a.msg, b.msg);
    }
    forall a: Task, b: Task, c: Task | MsgLess(a, c) ensures MsgLess(a, b) || MsgLess(b, c) {
      LexTotal(a.msg, b.msg);
      if LexLess(b.msg, a.msg) {
        LexTransitive(b.msg, a.msg, c.msg);
      }
    }
  }

  lemma SortedMessages(q: seq<Task>)
    ensures Ascending(Messages(StableSort(q, MsgLess)))
  {
    MsgWeakOrder();
    SortSorted(q, MsgLess);
    var t := StableSort(q, MsgLess);
    forall i, j | 0 <= i < j < |Messages(t)| ensures !LexLess(Messages(t)[j], Messages(t)[i]) {
      if t != [] { MessagesAt(t, 0); }
      MessagesAt(t, i);
      MessagesAt(t, j);
      assert !MsgLess(t[j], t[i]);
    }
  }

  lemma {:induction false} MessagesTake(ts: seq<Task>, n: nat)
    requires n <= |ts|
    ensures |Messages(ts)| == |ts| && Messages(ts[..n]) == Messages(ts)[..n]
  {
    if ts != [] {
      MessagesTake(ts[1..], if n > 0 then n - 1 else 0);
      if n > 0 {
        assert ts[..n][1..] == ts[1..][..n - 1];
      }
    }
  }

  /**
    * Two nodes with the same queue, in whatever arrival order, pick the same messages: the same
    * sequence when the queue is too long for one batch.
    */
  lemma SameMessages(q: seq<Task>, p: seq<Task>)
    requires multiset(q) == multiset(p)
    ensures multiset(Messages(Taken(q))) == multiset(Messages(Taken(p)))
    ensures |q| > MAX_BATCH ==> Messages(Taken(q)) == Messages(Taken(p))
  {
    assert |q| == |multiset(q)| == |p|;
    if |q| > MAX_BATCH {
      var s, t := StableSort(q, MsgLess), StableSort(p, MsgLess);
      SortedMessages(q);
      SortedMessages(p);
      PermutedMessages(s, t);
      AscendingUnique(Messages(s), Messages(t));
      MessagesTake(s, MAX_BATCH);
      MessagesTake(t, MAX_BATCH);
    } else {
      assert Taken(q) == q && Taken(p) == p;
      PermutedMessages(q, p);
    }
  }

  // ---------- splitting by algorithm ----------

  function OfAlgo(ts: seq<Task>, algo: Algo): seq<Task> {
    if ts == [] then [] else (if ts[0].algo == algo then [ts[0]] else []) + OfAlgo(ts[1..], algo)
  }

  lemma {:induction false} OfAlgoCount(ts: seq<Task>, algo: Algo, t: Task)
    ensures multiset(OfAlgo(ts, algo))[t] == if t.algo == algo then multiset(ts)[t] else 0
  {
    if ts != [] {
      OfAlgoCount(ts[1..], algo, t);
      assert ts == [ts[0]] + ts[1..];
    }
  }
}
