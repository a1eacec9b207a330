/**
  * The on-deck queue over whole runs: a transaction is received, joined to the deck and saved in
  * three steps, passes and errata blocks come in between, and the process may die between any two
  * steps or inside a pass and start again from the key-value store. A ledger counts what came and
  * what went.
  */
module DeckRuns {
  import opened Outcome
  import opened Deck
  import opened Observer

  /**
    * What the surroundings may do. All three flags set is the code as it stands.
    *  - crashInHand: the process may die after it took an arrival from the queue and before it has
    *    tried to save the deck with it.
    *  - crashUnsaved: the process may die when that save has failed and no save has worked since.
    *  - readFails: reading the stored deck at a start may fail.
    */
  datatype Env = Env(crashInHand: bool, crashUnsaved: bool, readFails: bool)

  /**
    * What passes and errata blocks did to a deck:
    *  - consumed, created: what the filter was given, and what it returned
    *  - dropped: transactions of unsupported chains, or undone by a re-organisation
    */
  datatype Ledger = Ledger(consumed: multiset<Item>, created: multiset<Item>, dropped: multiset<Item>)

  /**
    * The deck in memory and the stored one, each with the ledger of what led to it.
    *  - hand: taken from the queue, waiting for the lock
    *  - joining: joined to the deck and about to be saved, under the lock
    *  - unsaved: the deck holds an arrival that no save has stored
    *  - admitted: transactions that were received
    *  - accepted: the chunks the network accepted
    */
  datatype State = State(
    deck: seq<TxIn>, ledger: Ledger, stored: seq<TxIn>, storedLedger: Ledger, hand: Option<TxIn>,
    joining: bool, unsaved: bool, admitted: multiset<Item>, accepted: seq<TxIn>)

  /** Crash: the process dies, in a pass after `m` chunks of it were accepted, and starts again. */
  datatype Step =
    | Receive(txIn: TxIn)
    | Join
    | Save(ok: bool)
    | Send(a: Answers, saveOk: bool)
    | Errata(ids: seq<string>)
    | Crash(a: Answers, m: nat, readOk: bool)

  function Consumed(deck: seq<TxIn>, a: Answers, n: nat): multiset<Item>
    requires n <= |deck|
  {
    if n == 0 then multiset{}
    else
      var e := deck[n - 1];
      Consumed(deck, a, n - 1) + (if e.chain in a.supported && !e.filtered then multiset(e.txs) else multiset{})
  }

  function Created(deck: seq<TxIn>, a: Answers, n: nat): multiset<Item>
    requires n <= |deck|
  {
    if n == 0 then multiset{}
    else
      var e := deck[n - 1];
      Created(deck, a, n - 1) + (if e.chain in a.supported && !e.filtered then multiset(a.filter(n - 1)) else multiset{})
  }

  function Unsupported(deck: seq<TxIn>, a: Answers, n: nat): multiset<Item>
    requires n <= |deck|
  {
    if n == 0 then multiset{}
    else
      var e := deck[n - 1];
      Unsupported(deck, a, n - 1) + (if e.chain in a.supported then multiset{} else multiset(e.txs))
  }

  predicate Enabled(env: Env, s: State, step: Step) {
    match step
    case Receive(_) => s.hand.None? && !s.joining
    case Join => s.hand.Some? && !s.joining
    case Save(_) => s.joining
    case Send(_, _) => !s.joining
    case Errata(_) => !s.joining
    case Crash(a, m, readOk) =>
      && m <= |AllAccepted(s.deck, a, |s.deck|)| && (s.joining ==> m == 0)
      && (s.hand.Some? || s.joining ==> env.crashInHand)
      && (s.unsaved && !s.joining ==> env.crashUnsaved)
      && (!readOk ==> env.readFails)
  }

  /** The store holds the deck as it is now. */
  function Saved(s: State): State {
    s.(stored := s.deck, storedLedger := s.ledger, unsaved := false)
  }

  function Passed(s: State, a: Answers): State {
    var n, l := |s.deck|, s.ledger;
    s.(deck := NewDeck(s.deck, a, n), accepted := s.accepted + AllAccepted(s.deck, a, n),
       ledger := Ledger(l.consumed + Consumed(s.deck, a, n), l.created + Created(s.deck, a, n),
                        l.dropped + Unsupported(s.deck, a, n)))
  }

  function Apply(env: Env, s: State, step: Step): State
    requires Enabled(env, s, step)
  {
    match step
    case Receive(txIn) => s.(hand := Some(txIn), admitted := s.admitted + multiset(txIn.txs))
    case Join => s.(deck := Merge(s.deck, s.hand.value), hand := None, joining := true, unsaved := true)
    case Save(ok) => (if ok then Saved(s) else s).(joining := false)
    case Send(a, saveOk) => if saveOk then Saved(Passed(s, a)) else Passed(s, a)
    case Errata(ids) =>
      var d := ErasedDeck(s.deck, ids);
      s.(deck := d, ledger := s.ledger.(dropped := s.ledger.dropped + (multiset(Txs(s.deck)) - multiset(Txs(d)))))
    case Crash(a, m, readOk) =>
      State(if readOk then s.stored else [], s.storedLedger, s.stored, s.storedLedger, None, false, false, s.admitted,
            s.accepted + AllAccepted(s.deck, a, |s.deck|)[..m])
  }

  ghost predicate Valid(env: Env, s: State, steps: seq<Step>)
    decreases |steps|
  {
    steps == [] || (Enabled(env, s, steps[0]) && Valid(env, Apply(env, s, steps[0]), steps[1..]))
  }

  ghost function Exec(env: Env, s: State, steps: seq<Step>): State
    requires Valid(env, s, steps)
    decreases |steps|
  {
    if steps == [] then s else Exec(env, Apply(env, s, steps[0]), steps[1..])
  }

  const BLANK := Ledger(multiset{}, multiset{}, multiset{})
  const EMPTY := State([], BLANK, [], BLANK, None, false, false, multiset{}, [])

  /** How often `x` is on a deck or in chunks. */
  function Count(deck: seq<TxIn>, x: Item): nat { multiset(Txs(deck))[x] }

  /** How often `x` was accepted as finalised. */
  function Final(chunks: seq<TxIn>, x: Item): nat { Count(Finalised(chunks), x) }

  function InHand(s: State, x: Item): nat { if s.hand.Some? then multiset(s.hand.value.txs)[x] else 0 }

  /** How often `x` came in, by a ledger. */
  function Inflow(s: State, l: Ledger, x: Item): nat { s.admitted[x] + l.created[x] }

  /** How often `x` went out for a reason, or is still in hand or on the deck of that ledger. */
  function Outflow(s: State, l: Ledger, deck: seq<TxIn>, x: Item): nat {
    l.consumed[x] + l.dropped[x] + Final(s.accepted, x) + InHand(s, x) + Count(deck, x)
  }

  /** Nothing that came in is missing from the deck without a reason. */
  predicate Accounted(s: State, x: Item) { Inflow(s, s.ledger, x) <= Outflow(s, s.ledger, s.deck, x) }

  /** The same of the stored deck. */
  predicate StoreAccounted(s: State, x: Item) { Inflow(s, s.storedLedger, x) <= Outflow(s, s.storedLedger, s.stored, x) }

  // ---------- one pass ----------

  lemma CountConcat(c: seq<TxIn>, d: seq<TxIn>, x: Item)
    ensures Count(c + d, x) == Count(c, x) + Count(d, x)
  {
    TxsConcat(c, d);
  }

  lemma FinalConcat(c: seq<TxIn>, d: seq<TxIn>, x: Item)
    ensures Final(c + d, x) == Final(c, x) + Final(d, x)
  {
    FinalisedConcat(c, d);
    CountConcat(Finalised(c), Finalised(d), x);
  }

  function KeptEntry(e: TxIn, a: Answers, i: nat): seq<TxIn> {
    if e.chain in a.supported && Kept(e, a, i).txs != [] then [Kept(e, a, i)] else []
  }

  function SentEntry(e: TxIn, a: Answers, i: nat): seq<TxIn> {
    if e.chain in a.supported then EntryAccepted(e, a, i) else []
  }

  /** One entry: what the filter leaves is accepted or kept; an unsupported entry is dropped whole. */
  lemma EntryBalance(e: TxIn, a: Answers, i: nat, x: Item)
    ensures (if e.chain in a.supported then multiset(Prepared(e, a, i).txs)[x] else 0)
         == Final(SentEntry(e, a, i), x) + Count(KeptEntry(e, a, i), x)
  {
    EntryConserved(e, a, i);
    TxsOne(Kept(e, a, i));
    hide Kept, EntryAccepted;
  }

  lemma PassStep(deck: seq<TxIn>, a: Answers, i: nat, x: Item)
    requires i < |deck|
    ensures Count(deck[..i + 1], x) == Count(deck[..i], x) + multiset(deck[i].txs)[x]
    ensures Final(AllAccepted(deck, a, i + 1), x) == Final(AllAccepted(deck, a, i), x) + Final(SentEntry(deck[i], a, i), x)
    ensures Count(NewDeck(deck, a, i + 1), x) == Count(NewDeck(deck, a, i), x) + Count(KeptEntry(deck[i], a, i), x)
  {
    var e := deck[i];
    assert deck[..i + 1] == deck[..i] + [e];
    TxsOne(e);
    assert AllAccepted(deck, a, i + 1) == AllAccepted(deck, a, i) + SentEntry(e, a, i);
    assert NewDeck(deck, a, i + 1) == NewDeck(deck, a, i) + KeptEntry(e, a, i);
    hide Final, AllAccepted, NewDeck, KeptEntry, SentEntry;
    CountConcat(deck[..i], [e], x);
    FinalConcat(AllAccepted(deck, a, i), SentEntry(e, a, i), x);
    CountConcat(NewDeck(deck, a, i), KeptEntry(e, a, i), x);
  }

  lemma PassStart(deck: seq<TxIn>, a: Answers, x: Item)
    ensures Count(deck[..0], x) == Final(AllAccepted(deck, a, 0), x) == Count(NewDeck(deck, a, 0), x) == 0
    ensures Created(deck, a, 0)[x] == Consumed(deck, a, 0)[x] == Unsupported(deck, a, 0)[x] == 0
  {
  }

  lemma LedgerStep(deck: seq<TxIn>, a: Answers, i: nat, x: Item)
    requires i < |deck|
    ensures multiset(deck[i].txs)[x] + Created(deck, a, i + 1)[x] - Created(deck, a, i)[x]
         == Consumed(deck, a, i + 1)[x] - Consumed(deck, a, i)[x] + Unsupported(deck, a, i + 1)[x] - Unsupported(deck, a, i)[x]
            + if deck[i].chain in a.supported then multiset(Prepared(deck[i], a, i).txs)[x] else 0
  {
  }

  lemma {:induction false} PassConserves(deck: seq<TxIn>, a: Answers, n: nat, x: Item)
    requires n <= |deck|
    ensures Count(deck[..n], x) + Created(deck, a, n)[x]
         == Consumed(deck, a, n)[x] + Unsupported(deck, a, n)[x] + Final(AllAccepted(deck, a, n), x) + Count(NewDeck(deck, a, n), x)
  {
    hide *;
    if n == 0 {
      PassStart(deck, a, x);
    } else {
      PassConserves(deck, a, n - 1, x);
      PassStep(deck, a, n - 1, x);
      EntryBalance(deck[n - 1], a, n - 1, x);
      LedgerStep(deck, a, n - 1, x);
    }
  }

  // ---------- runs ----------

  lemma {:induction false} ErasedIsLess(deck: seq<TxIn>, ids: seq<string>, x: Item)
    ensures Count(ErasedDeck(deck, ids), x) <= Count(deck, x)
  {
    if deck != [] {
      ErasedIsLess(deck[1..], ids, x);
      EraseExact(deck[0].txs, ids, "", ids);
      assert ErasedDeck(deck, ids)[1..] == ErasedDeck(deck[1..], ids);
    }
  }

  lemma PassBalances(s: State, a: Answers, x: Item)
    ensures var t := Passed(s, a);
            && Inflow(t, t.ledger, x) - Inflow(s, s.ledger, x)
               == Outflow(t, t.ledger, t.deck, x) - Outflow(s, s.ledger, s.deck, x)
            && Final(s.accepted, x) <= Final(t.accepted, x)
  {
    var n := |s.deck|;
    assert s.deck[..n] == s.deck;
    hide Final, Count, AllAccepted, NewDeck, Consumed, Created, Unsupported;
    PassConserves(s.deck, a, n, x);
    FinalConcat(s.accepted, AllAccepted(s.deck, a, n), x);
  }

  lemma JoinAdds(s: State, x: Item)
    requires s.hand.Some?
    ensures Count(Merge(s.deck, s.hand.value), x) == Count(s.deck, x) + InHand(s, x)
  {
    MergeAdds(s.deck, s.hand.value);
  }

  /** What a step adds to the inflow it adds to the outflow. */
  lemma StepBalances(env: Env, s: State, step: Step, x: Item)
    requires Enabled(env, s, step) && !step.Crash?
    ensures var t := Apply(env, s, step);
            && Inflow(t, t.ledger, x) - Inflow(s, s.ledger, x)
               == Outflow(t, t.ledger, t.deck, x) - Outflow(s, s.ledger, s.deck, x)
            && Final(s.accepted, x) <= Final(t.accepted, x)
  {
    hide Final, Count, AllAccepted, NewDeck, Passed;
    match step {
      case Join => JoinAdds(s, x);
      case Send(a, _) => PassBalances(s, a, x);
      case Errata(ids) =>
        ErasedIsLess(s.deck, ids, x);
        CountIs(s.deck, x);
        CountIs(ErasedDeck(s.deck, ids), x);
      case _ =>
    }
  }

  lemma CountIs(deck: seq<TxIn>, x: Item)
    ensures Count(deck, x) == multiset(Txs(deck))[x]
  {
  }

  /** Conservation: without a crash, what came in was accepted, filtered or dropped, or is in hand or on deck. */
  lemma {:induction false} Conserved(env: Env, s: State, steps: seq<Step>, x: Item)
    requires Valid(env, s, steps) && forall step :: step in steps ==> !step.Crash?
    requires Inflow(s, s.ledger, x) == Outflow(s, s.ledger, s.deck, x)
    ensures var t := Exec(env, s, steps); Inflow(t, t.ledger, x) == Outflow(t, t.ledger, t.deck, x)
    decreases |steps|
  {
    hide Inflow, Outflow, Apply, Enabled, Final;
    if steps != [] {
      StepBalances(env, s, steps[0], x);
      Conserved(env, Apply(env, s, steps[0]), steps[1..], x);
    }
  }

  // ---------- crashes ----------

  predicate Calm(env: Env) { !env.crashInHand && !env.crashUnsaved && !env.readFails }

  predicate Covered(s: State, x: Item) {
    Accounted(s, x) && (s.joining ==> s.unsaved) && (!s.unsaved ==> StoreAccounted(s, x))
  }

  lemma StepCovers(env: Env, s: State, step: Step, x: Item)
    requires Calm(env) && Enabled(env, s, step) && Covered(s, x)
    ensures Covered(Apply(env, s, step), x)
  {
    hide Final, Count, AllAccepted, NewDeck, Consumed, Created, Unsupported, ErasedDeck;
    if step.Crash? {
      FinalConcat(s.accepted, AllAccepted(s.deck, step.a, |s.deck|)[..step.m], x);
    } else {
      StepBalances(env, s, step, x);
      StoreMoves(env, s, step, x);
    }
  }

  /** What a step does to the stored deck's account: it becomes the deck's, or keeps up with the network. */
  lemma StoreMoves(env: Env, s: State, step: Step, x: Item)
    requires Enabled(env, s, step) && !step.Crash? && (s.joining ==> s.unsaved)
    ensures var t := Apply(env, s, step);
            && (t.joining ==> t.unsaved)
            && (t.unsaved || (t.stored == t.deck && t.storedLedger == t.ledger)
                || (!s.unsaved && t.stored == s.stored && t.storedLedger == s.storedLedger
                    && t.admitted[x] - s.admitted[x] == InHand(t, x) - InHand(s, x)))
  {
    hide Final, Count, AllAccepted, NewDeck, Consumed, Created, Unsupported, ErasedDeck;
  }

  lemma {:induction false} RunCovers(env: Env, s: State, steps: seq<Step>, x: Item)
    requires Calm(env) && Valid(env, s, steps) && Covered(s, x)
    ensures Covered(Exec(env, s, steps), x)
    decreases |steps|
  {
    hide Covered, Apply, Enabled;
    if steps != [] {
      StepCovers(env, s, steps[0], x);
      RunCovers(env, Apply(env, s, steps[0]), steps[1..], x);
    }
  }

  /** Nothing is ever lost: over all runs, crashes included. */
  ghost predicate AlwaysAccounted(env: Env) {
    forall steps, x :: Valid(env, EMPTY, steps) ==> Accounted(Exec(env, EMPTY, steps), x)
  }

  const NO_ANSWERS := Answers({}, (_: nat) => [], (_: nat) => 0, (_: nat) => false, (_: nat, _: nat) => false)
  const LOST := Item(1, "tx", "")
  const ARRIVAL := TxIn("BTC", [LOST], false, false, false, false, 0)

  lemma Unfold(env: Env, s: State, step: Step, steps: seq<Step>)
    requires Enabled(env, s, step) && Valid(env, Apply(env, s, step), steps)
    ensures Valid(env, s, [step] + steps) && Exec(env, s, [step] + steps) == Exec(env, Apply(env, s, step), steps)
  {
    assert ([step] + steps)[1..] == steps;
  }

  /** The arrival is neither on the deck nor in the store, and nothing accounts for it. */
  predicate IsLost(s: State) { !Accounted(s, LOST) && !StoreAccounted(s, LOST) && !s.unsaved }

  const GONE := State([], BLANK, [], BLANK, None, false, false, multiset{LOST}, [])

  lemma GoneIsLost()
    ensures IsLost(GONE)
  {
    assert Finalised([]) == [] && Txs([]) == [];
  }

  lemma CrashLeaves(env: Env, s: State, readOk: bool)
    requires s.accepted == [] && Enabled(env, s, Crash(NO_ANSWERS, 0, readOk))
    ensures Apply(env, s, Crash(NO_ANSWERS, 0, readOk))
         == State(if readOk then s.stored else [], s.storedLedger, s.stored, s.storedLedger, None, false, false, s.admitted, [])
  {
  }

  const RECEIVED := State([], BLANK, [], BLANK, Some(ARRIVAL), false, false, multiset{LOST}, [])
  const JOINED := State([ARRIVAL], BLANK, [], BLANK, None, true, true, multiset{LOST}, [])

  /** Taken from the queue, and the process dies: every write and read of the store worked. */
  lemma LostInHand(env: Env) returns (steps: seq<Step>)
    requires env.crashInHand
    ensures Valid(env, EMPTY, steps) && IsLost(Exec(env, EMPTY, steps))
  {
    var crash := Crash(NO_ANSWERS, 0, true);
    CrashLeaves(env, RECEIVED, true);
    assert Apply(env, RECEIVED, crash) == GONE;
    Unfold(env, RECEIVED, crash, []);
    assert Apply(env, EMPTY, Receive(ARRIVAL)) == RECEIVED;
    Unfold(env, EMPTY, Receive(ARRIVAL), [crash] + []);
    GoneIsLost();
    steps := [Receive(ARRIVAL)] + ([crash] + []);
  }

  /** The save of an arrival fails, and the process dies before another save. */
  lemma LostUnsaved(env: Env) returns (steps: seq<Step>)
    requires env.crashUnsaved
    ensures Valid(env, EMPTY, steps) && IsLost(Exec(env, EMPTY, steps))
  {
    var crash, held := Crash(NO_ANSWERS, 0, true), JOINED.(joining := false);
    CrashLeaves(env, held, true);
    assert Apply(env, held, crash) == GONE;
    Unfold(env, held, crash, []);
    assert Apply(env, JOINED, Save(false)) == held;
    Unfold(env, JOINED, Save(false), [crash] + []);
    Joins(env, [Save(false)] + ([crash] + []));
    GoneIsLost();
    steps := [Receive(ARRIVAL)] + ([Join] + ([Save(false)] + ([crash] + [])));
  }

  lemma Joins(env: Env, steps: seq<Step>)
    requires Valid(env, JOINED, steps)
    ensures var all := [Receive(ARRIVAL)] + ([Join] + steps);
            Valid(env, EMPTY, all) && Exec(env, EMPTY, all) == Exec(env, JOINED, steps)
  {
    assert Apply(env, RECEIVED, Join) == JOINED;
    Unfold(env, RECEIVED, Join, steps);
    assert Apply(env, EMPTY, Receive(ARRIVAL)) == RECEIVED;
    Unfold(env, EMPTY, Receive(ARRIVAL), [Join] + steps);
  }

  /** The stored deck cannot be read, and the next pass saves the empty one over it. */
  lemma LostUnread(env: Env) returns (steps: seq<Step>)
    requires env.readFails
    ensures Valid(env, EMPTY, steps) && IsLost(Exec(env, EMPTY, steps))
  {
    var crash, send := Crash(NO_ANSWERS, 0, false), Send(NO_ANSWERS, true);
    var kept := State([ARRIVAL], BLANK, [ARRIVAL], BLANK, None, false, false, multiset{LOST}, []);
    var blind := kept.(deck := []);
    assert Apply(env, blind, send) == GONE;
    Unfold(env, blind, send, []);
    CrashLeaves(env, kept, false);
    Unfold(env, kept, crash, [send] + []);
    assert Apply(env, JOINED, Save(true)) == kept;
    Unfold(env, JOINED, Save(true), [crash] + ([send] + []));
    Joins(env, [Save(true)] + ([crash] + ([send] + [])));
    GoneIsLost();
    steps := [Receive(ARRIVAL)] + ([Join] + ([Save(true)] + ([crash] + ([send] + []))));
  }

  /**
    * Nothing is lost over all runs exactly when no crash falls between taking an arrival and saving
    * it, no crash finds a failed save of an arrival unrepaired, and no read of the stored deck fails.
    * Crashes inside a pass and failed saves that a later one repairs are harmless.
    */
  lemma NothingLostIff(env: Env)
    ensures AlwaysAccounted(env) <==> Calm(env)
  {
    hide Accounted, StoreAccounted;
    if env.crashInHand { var steps := LostInHand(env); }
    if env.crashUnsaved { var steps := LostUnsaved(env); }
    if env.readFails { var steps := LostUnread(env); }
    if Calm(env) {
      forall steps, x | Valid(env, EMPTY, steps) ensures Accounted(Exec(env, EMPTY, steps), x) {
        EmptyCovered(x);
        RunCovers(env, EMPTY, steps, x);
      }
    }
  }

  lemma EmptyCovered(x: Item)
    ensures Covered(EMPTY, x)
  {
  }

  // ---------- one block per entry ----------

  ghost predicate OneBlock(e: TxIn) {
    e.chain in BUNDLING || forall x :: x in e.txs ==> x.height == e.txs[0].height
  }

  ghost predicate OneBlockEach(deck: seq<TxIn>) { forall e :: e in deck ==> OneBlock(e) }

  /** Every height in `some` occurs in `txs`. */
  ghost predicate HeightsFrom(some: seq<Item>, txs: seq<Item>) {
    forall x :: x in some ==> exists y :: y in txs && y.height == x.height
  }

  ghost predicate FilterSane(deck: seq<TxIn>, a: Answers) {
    forall i :: 0 <= i < |deck| ==> HeightsFrom(a.filter(i), deck[i].txs)
  }

  /** Arrivals come from one block, and the filter makes up no heights. */
  ghost predicate Sane(s: State, step: Step) {
    match step
    case Receive(txIn) => OneBlock(txIn)
    case Send(a, _) => FilterSane(s.deck, a)
    case _ => true
  }

  ghost predicate SaneRun(env: Env, s: State, steps: seq<Step>)
    requires Valid(env, s, steps)
    decreases |steps|
  {
    steps == [] || (Sane(s, steps[0]) && SaneRun(env, Apply(env, s, steps[0]), steps[1..]))
  }

  ghost predicate OneBlockState(s: State) {
    OneBlockEach(s.deck) && OneBlockEach(s.stored) && (s.hand.Some? ==> OneBlock(s.hand.value))
  }

  lemma StaysOneBlock(e: TxIn, f: TxIn)
    requires OneBlock(e) && f.chain == e.chain && HeightsFrom(f.txs, e.txs)
    ensures OneBlock(f)
  {
  }

  lemma SubsetHeights(some: seq<Item>, txs: seq<Item>)
    requires multiset(some) <= multiset(txs)
    ensures HeightsFrom(some, txs)
  {
    forall x | x in some ensures exists y :: y in txs && y.height == x.height {
      assert x in multiset(some);
      assert x in multiset(txs);
      assert x in txs && x.height == x.height;
    }
  }

  lemma {:induction false} MergeOneBlock(deck: seq<TxIn>, txIn: TxIn)
    requires OneBlockEach(deck) && OneBlock(txIn)
    ensures OneBlockEach(Merge(deck, txIn))
  {
    if deck != [] {
      var e := deck[0];
      assert OneBlock(e);
      MergeOneBlock(deck[1..], txIn);
      if Matches(e, txIn) {
        var e' := e.(txs := e.txs + txIn.txs);
        assert OneBlock(e') by {
          assert e.txs == [] ==> e'.txs == txIn.txs;
          assert txIn.txs == [] ==> e'.txs == e.txs;
        }
      }
    }
  }

  lemma {:induction false} PassOneBlock(deck: seq<TxIn>, a: Answers, n: nat)
    requires n <= |deck| && OneBlockEach(deck) && FilterSane(deck, a)
    ensures OneBlockEach(NewDeck(deck, a, n))
  {
    hide Kept, OneBlock;
    if n > 0 {
      PassOneBlock(deck, a, n - 1);
      var e := deck[n - 1];
      assert e in deck;
      KeptOneBlock(e, a, n - 1);
      assert NewDeck(deck, a, n) == NewDeck(deck, a, n - 1) + KeptEntry(e, a, n - 1);
    }
  }

  lemma KeptOneBlock(e: TxIn, a: Answers, i: nat)
    requires OneBlock(e) && HeightsFrom(a.filter(i), e.txs)
    ensures OneBlock(Kept(e, a, i))
  {
    EntryConserved(e, a, i);
    var p, kept := Prepared(e, a, i), Kept(e, a, i);
    SubsetHeights(e.txs, e.txs);
    StaysOneBlock(e, p);
    SubsetHeights(kept.txs, p.txs);
    StaysOneBlock(p, kept);
  }

  lemma ErasedOneBlock(deck: seq<TxIn>, ids: seq<string>)
    requires OneBlockEach(deck)
    ensures OneBlockEach(ErasedDeck(deck, ids))
  {
    var d := ErasedDeck(deck, ids);
    hide OneBlock;
    forall i | 0 <= i < |d| ensures OneBlock(d[i]) {
      EraseExact(deck[i].txs, ids, "", ids);
      SubsetHeights(d[i].txs, deck[i].txs);
      StaysOneBlock(deck[i], d[i]);
    }
  }

  /** Outside the bundling chains no deck entry ever mixes blocks. */
  lemma {:induction false} OneBlockOverRuns(env: Env, s: State, steps: seq<Step>)
    requires Valid(env, s, steps) && SaneRun(env, s, steps) && OneBlockState(s)
    ensures OneBlockState(Exec(env, s, steps))
    decreases |steps|
  {
    hide OneBlock, FilterSane;
    if steps != [] {
      match steps[0] {
        case Join => MergeOneBlock(s.deck, s.hand.value);
        case Send(a, _) => PassOneBlock(s.deck, a, |s.deck|);
        case Errata(ids) => ErasedOneBlock(s.deck, ids);
        case _ =>
      }
      OneBlockOverRuns(env, Apply(env, s, steps[0]), steps[1..]);
    }
  }
}
