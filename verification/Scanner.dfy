/**
  * The block scanner's cursor, bifrost/blockscanner/blockscanner.go: where a process starts to scan
  * (FetchLastHeight and Start), what the scan loop does (scanBlocks), and what holds over any number
  * of process lives that end anywhere. The answers of the chain, of the network and of the database
  * are given by the events of a life.
  */
module Scanner {
  import opened Outcome
  import opened Varint
  import opened ScanPos

  // ---------- where to start ----------

  /** `start` is the configured height, `maxLag` the resume lag in blocks. */
  datatype Config = Config(start: int, maxLag: int)

  /**
    * What a starting process reads: the stored position twice (None is a failed read), whether the
    * network could be waited for, the last consensus height, and the height of the chain itself.
    */
  datatype Readings = Readings(pos: Option<int>, caughtUp: bool, consensus: int, chain: Option<int>, posAtStart: Option<int>)

  function FetchLastHeight(cfg: Config, r: Readings): Option<int> {
    var current := if r.pos.Some? then r.pos.value else 0;
    if cfg.start > 0 then Some(cfg.start)
    else if !r.caughtUp then None
    else if r.consensus > 0 then
      if current > 0 then
        if r.consensus <= current + cfg.maxLag then Some(current) else Some(r.consensus - cfg.maxLag)
      else Some(r.consensus)
    else if current > 0 then Some(current)
    else r.chain
  }

  /** The last block taken as scanned when the loop starts; None if the process does not start. */
  function Resume(cfg: Config, r: Readings): Option<int> {
    match FetchLastHeight(cfg, r)
    case None => None
    case Some(p) => if r.posAtStart.Some? && r.posAtStart.value > p then r.posAtStart else Some(p)
  }

  function Max(a: int, b: int): int { if a < b then b else a }

  /** Without a configured start the scan goes on after max(stored, consensus - lag). */
  lemma ResumeExact(cfg: Config, r: Readings, s: int)
    requires cfg.start <= 0 && cfg.maxLag >= 0 && r.caughtUp && r.consensus > 0
    requires s > 0 && r.pos == Some(s) && r.posAtStart == Some(s)
    ensures Resume(cfg, r) == Some(Max(s, r.consensus - cfg.maxLag))
  {
  }

  /** A read agrees with the store or fails. */
  predicate ReadsStore(r: Readings, stored: Option<int>) {
    (r.pos.Some? ==> r.pos == stored) && (r.posAtStart.Some? ==> r.posAtStart == stored)
  }

  /**
    * Exactly when a start leaves out blocks after the stored position: a configured start beyond it,
    * or a consensus height more than the lag ahead (any height ahead, when the first read failed).
    * A configured start below the stored position is not used when the second read works.
    */
  lemma SkipIff(cfg: Config, r: Readings, s: int)
    requires cfg.maxLag >= 0 && s > 0 && ReadsStore(r, Some(s)) && Resume(cfg, r).Some?
    ensures Resume(cfg, r).value > s <==>
              if cfg.start > 0 then cfg.start > s
              else if r.consensus > 0 then r.consensus > s + (if r.pos.Some? then cfg.maxLag else 0)
              else r.pos.None? && r.chain.value > s
    ensures r.posAtStart.Some? ==> Resume(cfg, r).value >= s
  {
  }

  // ---------- the scan loop ----------

  type Tx = string

  /** One block as fetched. */
  datatype Fetch = Fetch(height: int, txs: seq<Tx>)

  datatype CrashPoint = Never | BeforeHand | AfterHand

  /**
    * One round of the loop.
    *  - Idle: the chain is paused, or its height is not known
    *  - Round: the chain height, what FetchTxs returns (None is an error), whether the scanner is
    *    stopped while it waits for the queue, whether the process dies on the way, and whether the
    *    database accepts the new position
    *  - Stop: the scanner is stopped between rounds
    */
  datatype Event =
    | Idle
    | Round(chainHeight: Int64, txs: Option<seq<Tx>>, stopAtQueue: bool, crash: CrashPoint, putOk: bool)
    | Stop

  /** `fetched` is the history of successful fetches, `handed` what went into the global queue. */
  datatype World = World(previous: Int64, stored: Option<int>, fetched: seq<Fetch>, handed: seq<Fetch>)

  /** The round gets hold of the block after the previous one. */
  predicate Fetches(w: World, e: Event) {
    e.Round? && e.chainHeight >= w.previous + 1 && e.txs.Some?
  }

  function Next(w: World, e: Event): Fetch
    requires Fetches(w, e)
  {
    Fetch(w.previous + 1, e.txs.value)
  }

  /** The loop gets past the queue in this round. */
  predicate PastQueue(w: World, e: Event)
    requires Fetches(w, e)
  {
    e.crash != BeforeHand && (e.txs.value == [] || !e.stopAtQueue)
  }

  predicate Stores(w: World, e: Event)
    requires Fetches(w, e)
  {
    PastQueue(w, e) && e.crash == Never && w.previous + 1 < TWO55 && w.previous + 1 >= -TWO55
  }

  predicate Ends(w: World, e: Event) {
    e.Stop? || (Fetches(w, e) && !Stores(w, e))
  }

  function Tick(w: World, e: Event): World {
    if !Fetches(w, e) then w
    else
      var f := Next(w, e);
      World(w.previous + 1,
            if Stores(w, e) && e.putOk then Some(f.height) else w.stored,
            w.fetched + [f],
            if PastQueue(w, e) && f.txs != [] then w.handed + [f] else w.handed)
  }

  /** One life of the loop. */
  function Scan(w: World, es: seq<Event>): World
    decreases |es|
  {
    if es == [] then w
    else if Ends(w, es[0]) then Tick(w, es[0])
    else Scan(Tick(w, es[0]), es[1..])
  }

  class BlockScanner {
    var previousBlock: Int64
    const storage: Storage
    var queue: seq<Fetch>
    ghost var fetched: seq<Fetch>

    constructor (previous: Int64, storage: Storage)
      ensures previousBlock == previous && this.storage == storage && queue == [] && fetched == []
    {
      previousBlock, this.storage, queue, fetched := previous, storage, [], [];
    }

    ghost function State(): World
      reads this, storage
    {
      World(previousBlock, Position(storage.value), fetched, queue)
    }

    method ScanBlocks(es: seq<Event>)
      modifies this, storage
      ensures State() == Scan(old(State()), es)
    {
      var i, running := 0, true;
      assert es[0..] == es;
      while running && i < |es|
        invariant 0 <= i <= |es|
        invariant Scan(old(State()), es) == if running then Scan(State(), es[i..]) else State()
      {
        ghost var w := State();
        assert es[i..][1..] == es[i + 1..];
        running := OneRound(es[i]);
        i := i + 1;
      }
    }

    /** False when the goroutine has returned or the process has died. */
    method OneRound(e: Event) returns (running: bool)
      modifies this, storage
      ensures State() == Tick(old(State()), e) && running == !Ends(old(State()), e)
    {
      if e.Stop? { return false; }
      if e.Idle? { return true; }
      var currentBlock := previousBlock + 1;
      if e.chainHeight < currentBlock || e.txs.None? { return true; }
      var txIn := Fetch(currentBlock, e.txs.value);
      previousBlock := previousBlock + 1;
      fetched := fetched + [txIn];
      if e.crash == BeforeHand { return false; }
      if |txIn.txs| > 0 {
        if e.stopAtQueue { return false; }
        queue := queue + [txIn];
      }
      if e.crash == AfterHand { return false; }
      var r := storage.SetScanPos(previousBlock, e.putOk);
      return r != Panicked;
    }
  }

  // ---------- one life ----------

  function NonEmpty(fs: seq<Fetch>): seq<Fetch> {
    if fs == [] then [] else (if fs[0].txs != [] then [fs[0]] else []) + NonEmpty(fs[1..])
  }

  predicate Consecutive(fs: seq<Fetch>, after: int) {
    forall i :: 0 <= i < |fs| ==> fs[i].height == after + 1 + i
  }

  /**
    * What one life does: it fetches consecutive heights `fs` after the previous one; it hands on, in
    * order, exactly the non-empty ones, except possibly the last; and the stored position is either
    * unchanged or a height up to which everything was handed on.
    */
  ghost predicate LifeSpec(w: World, t: World, fs: seq<Fetch>, handed: seq<Fetch>) {
    && t.fetched == w.fetched + fs && t.handed == w.handed + handed
    && Consecutive(fs, w.previous) && t.previous == w.previous + |fs|
    && (handed == NonEmpty(fs) || (fs != [] && handed == NonEmpty(fs[..|fs| - 1])))
    && (t.stored == w.stored
        || (&& t.stored.Some? && w.previous < t.stored.value <= t.previous
            && (t.stored.value == t.previous ==> handed == NonEmpty(fs))))
  }

  lemma {:induction false} LifeIsConsecutive(w: World, es: seq<Event>) returns (fs: seq<Fetch>, handed: seq<Fetch>)
    ensures LifeSpec(w, Scan(w, es), fs, handed)
    decreases |es|
  {
    if es == [] || !Fetches(w, es[0]) {
      if es == [] || es[0].Stop? {
        fs, handed := [], [];
        assert w.fetched + [] == w.fetched && w.handed + [] == w.handed;
      } else {
        fs, handed := LifeIsConsecutive(w, es[1..]);
      }
    } else {
      var f, t := Next(w, es[0]), Tick(w, es[0]);
      if Ends(w, es[0]) {
        fs, handed := [f], if PastQueue(w, es[0]) then NonEmpty([f]) else [];
        NonEmptyOne(f);
        assert fs[..0] == [];
        assert w.handed + [] == w.handed;
      } else {
        var fs', handed' := LifeIsConsecutive(t, es[1..]);
        fs, handed := [f] + fs', NonEmpty([f]) + handed';
        LifeStep(w, es[0], Scan(t, es[1..]), fs', handed');
      }
    }
  }

  lemma LifeStep(w: World, e: Event, t: World, fs: seq<Fetch>, handed: seq<Fetch>)
    requires Fetches(w, e) && !Ends(w, e) && LifeSpec(Tick(w, e), t, fs, handed)
    ensures LifeSpec(w, t, [Next(w, e)] + fs, NonEmpty([Next(w, e)]) + handed)
  {
    var f, m := Next(w, e), Tick(w, e);
    NonEmptyOne(f);
    hide LifeSpec, NonEmpty;
    assert m.handed == w.handed + NonEmpty([f]);
    Prefixed(w, f, m, t, fs, handed);
  }

  lemma Prefixed(w: World, f: Fetch, m: World, t: World, fs: seq<Fetch>, handed: seq<Fetch>)
    requires m.previous == f.height == w.previous + 1 && (m.stored == w.stored || m.stored == Some(f.height))
    requires m.fetched == w.fetched + [f] && m.handed == w.handed + NonEmpty([f])
    requires LifeSpec(m, t, fs, handed)
    ensures LifeSpec(w, t, [f] + fs, NonEmpty([f]) + handed)
  {
    NonEmptyFront(f, fs);
    hide NonEmpty;
    var all := [f] + fs;
    assert t.fetched == w.fetched + all;
    assert t.handed == w.handed + (NonEmpty([f]) + handed);
    assert Consecutive(all, w.previous);
    if handed != NonEmpty(fs) {
      CutFront(f, fs);
      NonEmptyFront(f, fs[..|fs| - 1]);
      assert |all| - 1 == |fs|;
    }
  }

  lemma NonEmptyOne(f: Fetch)
    ensures NonEmpty([f]) == if f.txs != [] then [f] else []
  {
  }

  lemma NonEmptyFront(f: Fetch, fs: seq<Fetch>)
    ensures NonEmpty([f] + fs) == NonEmpty([f]) + NonEmpty(fs)
  {
  }

  lemma CutFront(f: Fetch, fs: seq<Fetch>)
    requires fs != []
    ensures ([f] + fs)[..|fs|] == [f] + fs[..|fs| - 1]
  {
  }

  // ---------- any number of lives ----------

  /** Some fetch of the block had no transactions or was handed on. */
  ghost predicate Settled(w: World, h: int) {
    exists f :: f in w.fetched && f.height == h && (f.txs == [] || f in w.handed)
  }

  datatype Life = Life(cfg: Config, r: Readings, events: seq<Event>)

  /** The process starts on what the last one stored, scans, and ends. The start position is an int64. */
  predicate CanLive(w: World, life: Life) {
    && ReadsStore(life.r, w.stored)
    && (Resume(life.cfg, life.r).Some? ==> -TWO63 <= Resume(life.cfg, life.r).value < TWO63)
  }

  function Live(w: World, life: Life): World
    requires CanLive(w, life)
  {
    match Resume(life.cfg, life.r)
    case None => w
    case Some(p) => Scan(w.(previous := p), life.events)
  }

  ghost predicate ValidLives(w: World, lives: seq<Life>)
    decreases |lives|
  {
    lives == [] || (CanLive(w, lives[0]) && ValidLives(Live(w, lives[0]), lives[1..]))
  }

  function LiveAll(w: World, lives: seq<Life>): World
    requires ValidLives(w, lives)
    decreases |lives|
  {
    if lives == [] then w else LiveAll(Live(w, lives[0]), lives[1..])
  }

  /** The start of a life leaves `h` out: above the stored position, not above where it resumes. */
  predicate LeftOut(w: World, life: Life, h: int) {
    var p := Resume(life.cfg, life.r);
    p.Some? && h <= p.value && (w.stored.Some? ==> h > w.stored.value)
  }

  ghost predicate EverLeftOut(w: World, lives: seq<Life>, h: int)
    requires ValidLives(w, lives)
    decreases |lives|
  {
    lives != [] && (LeftOut(w, lives[0], h) || EverLeftOut(Live(w, lives[0]), lives[1..], h))
  }

  lemma {:induction false} NonEmptyHas(fs: seq<Fetch>, i: nat)
    requires i < |fs| && fs[i].txs != []
    ensures fs[i] in NonEmpty(fs)
  {
    if i > 0 {
      NonEmptyHas(fs[1..], i - 1);
      assert fs[1..][i - 1] == fs[i];
    }
  }

  /** A life settles what it stores, unless its start left the height out; and it unsettles nothing. */
  lemma LifeSettles(w: World, life: Life, h: int)
    requires CanLive(w, life)
    ensures Settled(w, h) ==> Settled(Live(w, life), h)
    ensures var t := Live(w, life);
            t.stored.Some? && h <= t.stored.value && (w.stored.Some? ==> h > w.stored.value) ==>
              Settled(t, h) || LeftOut(w, life, h)
  {
    var resume := Resume(life.cfg, life.r);
    if resume.Some? {
      var s := w.(previous := resume.value);
      var fs, handed := LifeIsConsecutive(s, life.events);
      var t := Live(w, life);
      if Settled(w, h) {
        var f :| f in w.fetched && f.height == h && (f.txs == [] || f in w.handed);
        assert f in t.fetched;
      }
      if t.stored != w.stored && resume.value < h && t.stored.Some? && h <= t.stored.value {
        HandedUpTo(s, t, fs, handed, h);
      }
    }
  }

  lemma HandedUpTo(s: World, t: World, fs: seq<Fetch>, handed: seq<Fetch>, h: int)
    requires LifeSpec(s, t, fs, handed) && t.stored != s.stored && t.stored.Some? && s.previous < h <= t.stored.value
    ensures Settled(t, h)
  {
    var i := h - s.previous - 1;
    var f := fs[i];
    assert f.height == h && f in t.fetched;
    if f.txs != [] {
      if handed == NonEmpty(fs) {
        NonEmptyHas(fs, i);
      } else {
        NonEmptyHas(fs[..|fs| - 1], i);
      }
      assert f in handed;
    }
  }

  /**
    * At-least-once scanning over any number of lives, each ended anywhere: every height up to the
    * stored position and above the first one was settled by some life, or was left out by a start.
    */
  lemma {:induction false} NothingPassed(w: World, lives: seq<Life>, h: int)
    requires ValidLives(w, lives)
    ensures Settled(w, h) ==> Settled(LiveAll(w, lives), h)
    ensures var t := LiveAll(w, lives);
            t.stored.Some? && h <= t.stored.value && (w.stored.Some? ==> h > w.stored.value) ==>
              Settled(t, h) || EverLeftOut(w, lives, h)
    decreases |lives|
  {
    hide Settled, LeftOut, Live;
    if lives != [] {
      LifeSettles(w, lives[0], h);
      NothingPassed(Live(w, lives[0]), lives[1..], h);
    }
  }

  // ---------- lives that leave nothing out ----------

  /** No configured start, both reads work, and the consensus height is within the lag. */
  predicate Steady(w: World, life: Life) {
    && life.cfg.start <= 0 && life.cfg.maxLag >= 0
    && w.stored.Some? && life.r.pos == w.stored && life.r.posAtStart == w.stored
    && life.r.consensus <= w.stored.value + life.cfg.maxLag
  }

  ghost predicate AllSteady(w: World, lives: seq<Life>)
    requires ValidLives(w, lives)
    decreases |lives|
  {
    lives == [] || (Steady(w, lives[0]) && AllSteady(Live(w, lives[0]), lives[1..]))
  }

  /** A steady life leaves nothing out, and its stored position does not go back. */
  lemma SteadyLife(w: World, life: Life, h: int)
    requires CanLive(w, life) && Steady(w, life) && w.stored.value > 0
    ensures !LeftOut(w, life, h)
    ensures var t := Live(w, life); t.stored.Some? && t.stored.value >= w.stored.value
  {
    var resume := Resume(life.cfg, life.r);
    if resume.Some? {
      assert resume == w.stored;
      var fs, handed := LifeIsConsecutive(w.(previous := resume.value), life.events);
    }
  }

  /** At-least-once scanning without exceptions: over steady lives every height passed was settled. */
  lemma {:induction false} EveryHeightSettled(w: World, lives: seq<Life>, h: int)
    requires ValidLives(w, lives) && AllSteady(w, lives) && w.stored.Some? && w.stored.value > 0
    ensures !EverLeftOut(w, lives, h)
    ensures var t := LiveAll(w, lives);
            t.stored.Some? && (w.stored.value < h <= t.stored.value ==> Settled(t, h))
    decreases |lives|
  {
    hide Settled, LeftOut, Live, Steady;
    NothingPassed(w, lives, h);
    if lives != [] {
      SteadyLife(w, lives[0], h);
      EveryHeightSettled(Live(w, lives[0]), lives[1..], h);
    }
  }
}
