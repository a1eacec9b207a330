/**
  * When nodes that got the same tasks in different orders send the same requests: the split by
  * algorithm comes after the cut, so tasks with one message and two algorithms at the cut matter.
  */
module KeysignOrder {
  import opened Ordering
  import opened Keysign

  // ---------- the tasks of one message ----------

  function At(ts: seq<Task>, msg: string): seq<Task> {
    if ts == [] then []
    else At(ts[..|ts| - 1], msg) + (if ts[|ts| - 1].msg == msg then [ts[|ts| - 1]] else [])
  }

  lemma AtSnoc(ts: seq<Task>, t: Task, msg: string)
    ensures At(ts + [t], msg) == At(ts, msg) + (if t.msg == msg then [t] else [])
  {
    assert (ts + [t])[..|ts|] == ts;
  }

  lemma {:induction false} AtConcat(a: seq<Task>, b: seq<Task>, msg: string)
    ensures At(a + b, msg) == At(a, msg) + At(b, msg)
  {
    if b == [] {
      assert a + b == a;
      return;
    }
    var init, last := b[..|b| - 1], b[|b| - 1];
    AtConcat(a, init, msg);
    assert a + b == (a + init) + [last] && b == init + [last];
    hide At;
    AtSnoc(a + init, last, msg);
    AtSnoc(init, last, msg);
  }

  lemma {:induction false} AtIn(ts: seq<Task>, msg: string, t: Task)
    ensures t in At(ts, msg) <==> t in ts && t.msg == msg
  {
    if ts != [] {
      AtIn(ts[..|ts| - 1], msg, t);
      assert ts == ts[..|ts| - 1] + [ts[|ts| - 1]];
    }
  }

  lemma {:induction false} AtAll(ts: seq<Task>, msg: string)
    requires forall t :: t in ts ==> t.msg == msg
    ensures At(ts, msg) == ts
  {
    if ts != [] {
      AtAll(ts[..|ts| - 1], msg);
      assert ts == ts[..|ts| - 1] + [ts[|ts| - 1]];
    }
  }

  lemma AtNone(ts: seq<Task>, msg: string)
    requires forall t :: t in ts ==> t.msg != msg
    ensures At(ts, msg) == []
  {
    HasMember(At(ts, msg));
    forall t ensures t !in At(ts, msg) { AtIn(ts, msg, t); }
  }

  lemma {:induction false} InsertAt(s: seq<Task>, x: Task, msg: string)
    ensures At(Insert(s, x, MsgLess), msg) == At(s + [x], msg)
  {
    hide Insert, At, MsgLess;
    InsertUnfolds(s, x);
    if s != [] && MsgLess(x, s[|s| - 1]) {
      var init, last := s[..|s| - 1], s[|s| - 1];
      InsertAt(init, x, msg);
      assert s == init + [last];
      InsertedAt(init, last, x, Insert(init, x, MsgLess), msg);
    }
  }

  lemma InsertUnfolds(s: seq<Task>, x: Task)
    ensures Insert(s, x, MsgLess)
         == if s != [] && MsgLess(x, s[|s| - 1]) then Insert(s[..|s| - 1], x, MsgLess) + [s[|s| - 1]] else s + [x]
  {
    if s == [] { assert s + [x] == [x]; }
  }

  lemma InsertedAt(init: seq<Task>, last: Task, x: Task, t: seq<Task>, msg: string)
    requires MsgLess(x, last) && At(t, msg) == At(init + [x], msg)
    ensures At(t + [last], msg) == At(init + [last] + [x], msg)
  {
    LexAsymmetric(x.msg, x.msg);
    hide At;
    AtSnoc(t, last, msg);
    AtSnoc(init, x, msg);
    AtSnoc(init, last, msg);
    AtSnoc(init + [last], x, msg);
  }

  /** Sorting keeps the arrival order of equal messages. */
  lemma {:induction false} SortAt(q: seq<Task>, msg: string)
    ensures At(StableSort(q, MsgLess), msg) == At(q, msg)
  {
    if q != [] {
      var init, last := q[..|q| - 1], q[|q| - 1];
      SortAt(init, msg);
      InsertAt(StableSort(init, MsgLess), last, msg);
      AtSnoc(StableSort(init, MsgLess), last, msg);
    }
  }

  // ---------- counting one message of one request ----------

  function Num(ts: seq<Task>, algo: Algo, msg: string): nat { |OfAlgo(At(ts, msg), algo)| }

  lemma {:induction false} OfAlgoConcat(a: seq<Task>, b: seq<Task>, algo: Algo)
    ensures OfAlgo(a + b, algo) == OfAlgo(a, algo) + OfAlgo(b, algo)
  {
    if a == [] {
      assert a + b == b;
      return;
    }
    var head, rest := if a[0].algo == algo then [a[0]] else [], a[1..];
    OfAlgoConcat(rest, b, algo);
    assert OfAlgo(a + b, algo) == head + OfAlgo(rest + b, algo) by { assert (a + b)[1..] == rest + b; }
    assert OfAlgo(a, algo) == head + OfAlgo(rest, algo);
    hide OfAlgo;
    Regroup(head, OfAlgo(rest, algo), OfAlgo(b, algo));
  }

  lemma Regroup(a: seq<Task>, b: seq<Task>, c: seq<Task>)
    ensures a + (b + c) == (a + b) + c
  {
  }

  lemma NumConcat(a: seq<Task>, b: seq<Task>, algo: Algo, msg: string)
    ensures Num(a + b, algo, msg) == Num(a, algo, msg) + Num(b, algo, msg)
  {
    AtConcat(a, b, msg);
    OfAlgoConcat(At(a, msg), At(b, msg), algo);
  }

  lemma {:induction false} NumIsCount(ts: seq<Task>, algo: Algo, msg: string)
    ensures multiset(Messages(OfAlgo(ts, algo)))[msg] == Num(ts, algo, msg)
  {
    if ts == [] {
    } else {
      var head, rest := [ts[0]], ts[1..];
      NumIsCount(rest, algo, msg);
      assert ts == head + rest;
      OfAlgoConcat(head, rest, algo);
      MessagesConcat(OfAlgo(head, algo), OfAlgo(rest, algo));
      NumConcat(head, rest, algo, msg);
      NumOne(ts[0], algo, msg);
    }
  }

  lemma NumOne(t: Task, algo: Algo, msg: string)
    ensures Num([t], algo, msg) == (if t.algo == algo && t.msg == msg then 1 else 0)
    ensures Messages(OfAlgo([t], algo)) == if t.algo == algo then [t.msg] else []
  {
    OfAlgoOne(t, algo);
    AtSnoc([], t, msg);
    assert [] + [t] == [t];
    MessagesCons(t, []);
  }

  lemma OfAlgoOne(t: Task, algo: Algo)
    ensures OfAlgo([t], algo) == if t.algo == algo then [t] else []
  {
    assert [t][1..] == [];
  }

  lemma {:induction false} AtLength(ts: seq<Task>, msg: string)
    ensures multiset(Messages(ts))[msg] == |At(ts, msg)|
  {
    if ts == [] {
      return;
    }
    var init, last := ts[..|ts| - 1], ts[|ts| - 1];
    AtLength(init, msg);
    assert ts == init + [last];
    hide At, Messages;
    AtSnoc(init, last, msg);
    MessagesConcat(init, [last]);
    MessagesOne(last);
  }

  lemma MessagesOne(t: Task)
    ensures Messages([t]) == [t.msg]
  {
  }

  lemma NumPermuted(p: seq<Task>, q: seq<Task>, algo: Algo, msg: string)
    requires multiset(p) == multiset(q)
    ensures Num(p, algo, msg) == Num(q, algo, msg)
  {
    var a, b := OfAlgo(p, algo), OfAlgo(q, algo);
    forall t ensures multiset(a)[t] == multiset(b)[t] {
      OfAlgoCount(p, algo, t);
      OfAlgoCount(q, algo, t);
    }
    assert multiset(a) == multiset(b);
    PermutedMessages(a, b);
    NumIsCount(p, algo, msg);
    NumIsCount(q, algo, msg);
  }

  // ---------- around the cut ----------

  /** The message at the cut has tasks on both sides of it, and tasks of two algorithms. */
  ghost predicate TieAtCut(q: seq<Task>) {
    |q| > MAX_BATCH && Ordered(q)[MAX_BATCH].msg == CutMsg(q)
    && exists t, u :: t in q && u in q && t.msg == CutMsg(q) && u.msg == CutMsg(q) && t.algo != u.algo
  }

  lemma OrderedParts(q: seq<Task>, algo: Algo, msg: string)
    ensures Ordered(q) == Taken(q) + Left(q)
    ensures At(q, msg) == At(Taken(q), msg) + At(Left(q), msg)
    ensures Num(q, algo, msg) == Num(Taken(q), algo, msg) + Num(Left(q), algo, msg)
  {
    assert Ordered(q) == Taken(q) + Left(q);
    SortAt(q, msg);
    AtConcat(Taken(q), Left(q), msg);
    NumConcat(Taken(q), Left(q), algo, msg);
    assert At(Ordered(q), msg) == At(q, msg);
  }

  /** The message at the cut. */
  function CutMsg(q: seq<Task>): string
    requires |q| > MAX_BATCH
  {
    Ordered(q)[MAX_BATCH - 1].msg
  }

  /** Messages below the one at the cut are all sent, */
  lemma Below(q: seq<Task>, msg: string)
    requires |q| > MAX_BATCH && LexLess(msg, CutMsg(q))
    ensures At(Left(q), msg) == []
  {
    var s := Ordered(q);
    forall t | t in Left(q) ensures t.msg != msg {
      var j :| MAX_BATCH <= j < |s| && s[j] == t;
      OrderedAscends(q, MAX_BATCH - 1, j);
    }
    AtNone(Left(q), msg);
  }

  /** messages above it are not, */
  lemma Above(q: seq<Task>, msg: string)
    requires |q| > MAX_BATCH && LexLess(CutMsg(q), msg)
    ensures At(Taken(q), msg) == []
  {
    var s := Ordered(q);
    forall t | t in Taken(q) ensures t.msg != msg {
      var j :| 0 <= j < MAX_BATCH && s[j] == t;
      if j == MAX_BATCH - 1 { LexAsymmetric(msg, msg); } else { OrderedAscends(q, j, MAX_BATCH - 1); }
    }
    AtNone(Taken(q), msg);
  }

  /** and that message is all sent if the next one differs. */
  lemma Whole(q: seq<Task>)
    requires |q| > MAX_BATCH && Ordered(q)[MAX_BATCH].msg != CutMsg(q)
    ensures At(Left(q), CutMsg(q)) == []
  {
    var s := Ordered(q);
    LexTotal(CutMsg(q), s[MAX_BATCH].msg);
    OrderedAscends(q, MAX_BATCH - 1, MAX_BATCH);
    forall t | t in Left(q) ensures t.msg != CutMsg(q) {
      var j :| MAX_BATCH <= j < |s| && s[j] == t;
      if j > MAX_BATCH { OrderedAscends(q, MAX_BATCH, j); }
    }
    AtNone(Left(q), CutMsg(q));
  }

  lemma OrderedAscends(q: seq<Task>, i: nat, j: nat)
    requires |q| > MAX_BATCH && i < j < |q|
    ensures !LexLess(Ordered(q)[j].msg, Ordered(q)[i].msg)
  {
    var s := StableSort(q, MsgLess);
    SortedMessages(q);
    MessagesAt(s, i);
    MessagesAt(s, j);
  }

  /** Both queues have the same message at every place, and as many of each before the cut. */
  lemma SameCut(q: seq<Task>, p: seq<Task>, msg: string)
    requires multiset(q) == multiset(p) && |q| > MAX_BATCH
    ensures |p| == |q| && |At(Taken(q), msg)| == |At(Taken(p), msg)|
    ensures forall i :: 0 <= i < |q| ==> Ordered(q)[i].msg == Ordered(p)[i].msg
  {
    assert |q| == |multiset(q)| == |p|;
    var s, t := StableSort(q, MsgLess), StableSort(p, MsgLess);
    SortedMessages(q);
    SortedMessages(p);
    PermutedMessages(s, t);
    AscendingUnique(Messages(s), Messages(t));
    forall i | 0 <= i < |q| ensures Ordered(q)[i].msg == Ordered(p)[i].msg {
      MessagesAt(s, i);
      MessagesAt(t, i);
    }
    SameMessages(q, p);
    AtLength(Taken(q), msg);
    AtLength(Taken(p), msg);
  }

  // ---------- no tie: the same requests ----------

  lemma SameNum(q: seq<Task>, p: seq<Task>, algo: Algo, msg: string)
    requires multiset(q) == multiset(p) && |q| > MAX_BATCH && !TieAtCut(q)
    ensures Num(Taken(q), algo, msg) == Num(Taken(p), algo, msg)
  {
    hide Num, TieAtCut;
    SameCut(q, p, msg);
    LexTotal(msg, CutMsg(q));
    if msg == CutMsg(q) && Ordered(q)[MAX_BATCH].msg == msg {
      SameTied(q, p, algo);
    } else {
      NumPermuted(q, p, algo, msg);
      Untied(q, algo, msg);
      Untied(p, algo, msg);
    }
  }

  /** Any other message is sent whole or not at all. */
  lemma Untied(q: seq<Task>, algo: Algo, msg: string)
    requires |q| > MAX_BATCH && (msg == CutMsg(q) ==> Ordered(q)[MAX_BATCH].msg != msg)
    ensures Num(Taken(q), algo, msg) == if LexLess(CutMsg(q), msg) then 0 else Num(q, algo, msg)
  {
    hide Num, Taken, Left, CutMsg;
    LexTotal(msg, CutMsg(q));
    OrderedParts(q, algo, msg);
    if LexLess(CutMsg(q), msg) {
      Above(q, msg);
      NumNone(Taken(q), algo, msg);
    } else {
      if msg == CutMsg(q) { Whole(q); } else { Below(q, msg); }
      NumNone(Left(q), algo, msg);
    }
  }

  lemma NumNone(ts: seq<Task>, algo: Algo, msg: string)
    requires At(ts, msg) == []
    ensures Num(ts, algo, msg) == 0
  {
  }

  lemma SameTied(q: seq<Task>, p: seq<Task>, algo: Algo)
    requires multiset(q) == multiset(p) && |q| > MAX_BATCH && !TieAtCut(q) && Ordered(q)[MAX_BATCH].msg == CutMsg(q)
    ensures Num(Taken(q), algo, CutMsg(q)) == Num(Taken(p), algo, CutMsg(q))
  {
    var b := CutMsg(q);
    SameCut(q, p, b);
    var one := Ordered(q)[MAX_BATCH - 1];
    assert one in multiset(Ordered(q)) && one in q;
    OneAlgo(q, b, one.algo, algo);
    forall t | t in p && t.msg == b ensures t.algo == one.algo {
      assert t in multiset(p) && t in q;
    }
    OneAlgo(p, b, one.algo, algo);
  }

  lemma OneAlgo(q: seq<Task>, msg: string, beta: Algo, algo: Algo)
    requires forall t :: t in q && t.msg == msg ==> t.algo == beta
    ensures Num(Taken(q), algo, msg) == if algo == beta then |At(Taken(q), msg)| else 0
  {
    var ts := At(Taken(q), msg);
    forall t | t in ts ensures t.algo == beta {
      AtIn(Taken(q), msg, t);
      assert t in multiset(Ordered(q)) && t in multiset(q);
    }
    OfAlgoAll(ts, beta, algo);
  }

  lemma {:induction false} OfAlgoAll(ts: seq<Task>, beta: Algo, algo: Algo)
    requires forall t :: t in ts ==> t.algo == beta
    ensures OfAlgo(ts, algo) == if algo == beta then ts else []
  {
    if ts != [] {
      assert ts[0] in ts && ts == [ts[0]] + ts[1..];
      OfAlgoAll(ts[1..], beta, algo);
    }
  }

  // ---------- a tie: two orders with different requests ----------

  function NotAlgo(ts: seq<Task>, algo: Algo): seq<Task> {
    if ts == [] then [] else (if ts[0].algo == algo then [] else [ts[0]]) + NotAlgo(ts[1..], algo)
  }

  function NotAt(ts: seq<Task>, msg: string): seq<Task> {
    if ts == [] then []
    else NotAt(ts[..|ts| - 1], msg) + (if ts[|ts| - 1].msg == msg then [] else [ts[|ts| - 1]])
  }

  lemma {:induction false} AlgoSplit(ts: seq<Task>, algo: Algo)
    ensures multiset(OfAlgo(ts, algo)) + multiset(NotAlgo(ts, algo)) == multiset(ts)
    ensures (forall t :: t in OfAlgo(ts, algo) ==> t.algo == algo && t in ts)
    ensures (forall t :: t in NotAlgo(ts, algo) ==> t.algo != algo && t in ts)
    ensures (forall t :: t in ts && t.algo != algo ==> t in NotAlgo(ts, algo))
    ensures (forall t :: t in ts && t.algo == algo ==> t in OfAlgo(ts, algo))
  {
    if ts != [] {
      AlgoSplit(ts[1..], algo);
      assert ts == [ts[0]] + ts[1..];
    }
  }

  lemma {:induction false} MsgSplit(ts: seq<Task>, msg: string)
    ensures multiset(At(ts, msg)) + multiset(NotAt(ts, msg)) == multiset(ts)
    ensures forall t :: t in NotAt(ts, msg) ==> t.msg != msg
  {
    if ts == [] {
      return;
    }
    var init, last := ts[..|ts| - 1], ts[|ts| - 1];
    MsgSplit(init, msg);
    assert ts == init + [last];
    hide At, NotAt;
    AtSnoc(init, last, msg);
    NotAtSnoc(init, last, msg);
    Weigh(At(init, msg), NotAt(init, msg), init, last);
  }

  lemma Weigh(a: seq<Task>, b: seq<Task>, c: seq<Task>, t: Task)
    requires multiset(a) + multiset(b) == multiset(c)
    ensures multiset(a + [t]) + multiset(b + []) == multiset(c + [t]) && multiset(a + []) + multiset(b + [t]) == multiset(c + [t])
  {
  }

  lemma NotAtSnoc(ts: seq<Task>, t: Task, msg: string)
    ensures NotAt(ts + [t], msg) == NotAt(ts, msg) + (if t.msg == msg then [] else [t])
  {
    assert (ts + [t])[..|ts|] == ts;
  }

  /** An arrival order with `x` and then `y` first; both hold only `msg`, `z` does not hold it. */
  lemma CutOf(x: seq<Task>, y: seq<Task>, z: seq<Task>, msg: string)
    requires |x + y + z| > MAX_BATCH
    requires (forall t :: t in x ==> t.msg == msg) && (forall t :: t in y ==> t.msg == msg) && (forall t :: t in z ==> t.msg != msg)
    ensures var got := At(Taken(x + y + z), msg);
            |got| <= |x| + |y| && got == (x + y)[..|got|]
  {
    var p := x + y + z;
    AtAll(x, msg);
    AtAll(y, msg);
    AtNone(z, msg);
    AtConcat(x, y, msg);
    AtConcat(x + y, z, msg);
    OrderedParts(p, Secp256k1, msg);
    hide At, Taken, Left;
    assert (x + y) + [] == x + y;
  }

  lemma FirstOf(x: seq<Task>, y: seq<Task>, c: nat, algo: Algo)
    requires c <= |x| + |y| && (forall t :: t in x ==> t.algo == algo) && (forall t :: t in y ==> t.algo != algo)
    ensures |OfAlgo((x + y)[..c], algo)| == (if c <= |x| then c else |x|)
    ensures |OfAlgo((y + x)[..c], algo)| == (if c <= |y| then 0 else c - |y|)
  {
    PrefixOf(x, y, c);
    PrefixOf(y, x, c);
    var a, b := Prefix(x, c), Prefix(y, c);
    OfAlgoConcat(a, Prefix(y, c - |a|), algo);
    OfAlgoConcat(b, Prefix(x, c - |b|), algo);
    OfAlgoAll(a, algo, algo);
    OfAlgoAll(Prefix(x, c - |b|), algo, algo);
    OfAlgoNone(b, algo);
    OfAlgoNone(Prefix(y, c - |a|), algo);
  }

  function Prefix(s: seq<Task>, c: nat): seq<Task> { if c <= |s| then s[..c] else s }

  lemma PrefixOf(x: seq<Task>, y: seq<Task>, c: nat)
    requires c <= |x| + |y|
    ensures |Prefix(x, c)| <= c && (x + y)[..c] == Prefix(x, c) + Prefix(y, c - |Prefix(x, c)|)
  {
  }

  lemma {:induction false} OfAlgoNone(ts: seq<Task>, algo: Algo)
    requires forall t :: t in ts ==> t.algo != algo
    ensures OfAlgo(ts, algo) == []
  {
    if ts != [] {
      assert ts[0] in ts && ts == [ts[0]] + ts[1..];
      OfAlgoNone(ts[1..], algo);
    }
  }

  /** For every queue with a tie, two arrival orders of it whose requests differ. */
  lemma TieDiffers(q: seq<Task>) returns (p: seq<Task>, p': seq<Task>, algo: Algo, msg: string)
    requires TieAtCut(q)
    ensures multiset(p) == multiset(q) && multiset(p') == multiset(q)
    ensures Num(Taken(p), algo, msg) != Num(Taken(p'), algo, msg)
  {
    msg := CutMsg(q);
    var t, u :| t in q && u in q && t.msg == msg && u.msg == msg && t.algo != u.algo;
    algo := t.algo;
    var c := CutCount(q, msg);
    var here, z := At(q, msg), NotAt(q, msg);
    var x, y := OfAlgo(here, algo), NotAlgo(here, algo);
    AtIn(q, msg, t);
    AtIn(q, msg, u);
    forall v | v in here ensures v.msg == msg { AtIn(q, msg, v); }
    AlgoSplit(here, algo);
    MsgSplit(q, msg);
    hide At, NotAt, OfAlgo, NotAlgo, TieAtCut, Num, Taken;
    p, p' := x + y + z, y + x + z;
    Rearranged(q, here, x, y, z);
    Compare(q, x, y, z, msg, algo, c);
  }

  lemma Rearranged(q: seq<Task>, here: seq<Task>, x: seq<Task>, y: seq<Task>, z: seq<Task>)
    requires multiset(x) + multiset(y) == multiset(here) && multiset(here) + multiset(z) == multiset(q)
    ensures multiset(x + y + z) == multiset(q) && multiset(y + x + z) == multiset(q) && |here| == |x| + |y|
  {
    assert |multiset(here)| == |here|;
  }

  /** How many tasks of the tied message are sent: some, and not all. */
  lemma CutCount(q: seq<Task>, msg: string) returns (c: nat)
    requires |q| > MAX_BATCH && CutMsg(q) == msg == Ordered(q)[MAX_BATCH].msg
    ensures c == |At(Taken(q), msg)| && 0 < c < |At(q, msg)|
  {
    c := |At(Taken(q), msg)|;
    var a, b := Ordered(q)[MAX_BATCH - 1], Ordered(q)[MAX_BATCH];
    OrderedParts(q, Secp256k1, msg);
    assert a == Taken(q)[MAX_BATCH - 1] && b == Left(q)[0];
    AtIn(Taken(q), msg, a);
    AtIn(Left(q), msg, b);
  }

  lemma Compare(q: seq<Task>, x: seq<Task>, y: seq<Task>, z: seq<Task>, msg: string, algo: Algo, c: nat)
    requires |q| > MAX_BATCH && multiset(x + y + z) == multiset(q) && c == |At(Taken(q), msg)| && x != [] && y != []
    requires 0 < c < |x| + |y|
    requires (forall t :: t in x ==> t.msg == msg && t.algo == algo) && (forall t :: t in y ==> t.msg == msg && t.algo != algo)
    requires forall t :: t in z ==> t.msg != msg
    ensures Num(Taken(x + y + z), algo, msg) != Num(Taken(y + x + z), algo, msg)
  {
    var p, p' := x + y + z, y + x + z;
    assert multiset(p') == multiset(q);
    SameCut(q, p, msg);
    SameCut(q, p', msg);
    CutOf(x, y, z, msg);
    CutOf(y, x, z, msg);
    FirstOf(x, y, c, algo);
    hide Taken, At;
  }

  // ---------- exactly when ----------

  /** The messages of the request for one algorithm. */
  function Requested(q: seq<Task>, algo: Algo): multiset<string> { multiset(Messages(OfAlgo(Taken(q), algo))) }

  /** Every arrival order of the queue gives the same messages per algorithm. */
  ghost predicate SameRequests(q: seq<Task>) {
    forall p, algo :: multiset(p) == multiset(q) ==> Requested(p, algo) == Requested(q, algo)
  }

  lemma SameRequestsIff(q: seq<Task>)
    ensures SameRequests(q) <==> !TieAtCut(q)
  {
    hide Requested, TieAtCut;
    if TieAtCut(q) {
      TieIsDifferent(q);
    } else {
      forall p, algo | multiset(p) == multiset(q) ensures Requested(p, algo) == Requested(q, algo) {
        NoTieSame(q, p, algo);
      }
    }
  }

  lemma TieIsDifferent(q: seq<Task>)
    requires TieAtCut(q)
    ensures !SameRequests(q)
  {
    var p, p', algo, msg := TieDiffers(q);
    hide Requested, TieAtCut, Num, Taken;
    RequestedIs(p, algo, msg);
    RequestedIs(p', algo, msg);
  }

  lemma NoTieSame(q: seq<Task>, p: seq<Task>, algo: Algo)
    requires multiset(p) == multiset(q) && !TieAtCut(q)
    ensures Requested(p, algo) == Requested(q, algo)
  {
    assert |p| == |multiset(p)| == |q|;
    hide TieAtCut, Requested;
    forall msg ensures Requested(p, algo)[msg] == Requested(q, algo)[msg] {
      RequestedIs(p, algo, msg);
      RequestedIs(q, algo, msg);
      if |q| > MAX_BATCH {
        SameNum(q, p, algo, msg);
      } else {
        assert Taken(p) == p && Taken(q) == q;
        NumPermuted(p, q, algo, msg);
      }
    }
  }

  lemma RequestedIs(q: seq<Task>, algo: Algo, msg: string)
    ensures Requested(q, algo)[msg] == Num(Taken(q), algo, msg)
  {
    NumIsCount(Taken(q), algo, msg);
  }

  /** Such a queue: sixteen tasks for one message, one of them for another algorithm. */
  lemma TieExists() returns (q: seq<Task>)
    ensures TieAtCut(q)
  {
    q := seq(MAX_BATCH + 1, (i: nat) => Task(i, "pool", if i == 0 then Ed25519 else Secp256k1, "m"));
    var s := Ordered(q);
    forall i | 0 <= i < |s| ensures s[i].msg == "m" {
      assert s[i] in multiset(s) && s[i] in multiset(q);
    }
    assert q[0] in q && q[1] in q && q[0].algo != q[1].algo;
  }
}
