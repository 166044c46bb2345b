/** When extraction runs, over every interleaving of turns and restarts, the 64-bit wrap of the
    turn counter included. */
module ExtractionCadence {
  import opened Wrappers
  import opened GraphModel
  import opened GraphIntegrity
  import opened TurnModel
  import opened TurnRuns

  /** The last extraction was at the last multiple of the interval. */
  ghost predicate Aligned(cfg: Config, turn: nat, last: nat) {
    cfg.extractionInterval > 0 && last == turn - turn % cfg.extractionInterval
  }

  /** No counter value is an interval past the last extraction any more. */
  predicate Stuck(cfg: Config, last: nat) {
    last + cfg.extractionInterval >= U64
  }

  lemma NextMultiple(n: nat, t: nat)
    requires n > 0
    ensures (t + 1 - (t - t % n) >= n) <==> (t + 1) % n == 0
    ensures (t + 1) % n != 0 ==> t - t % n == (t + 1) - (t + 1) % n
  {
    var q, r := t / n, t % n;
    assert t == n * q + r;
    if r == n - 1 {
      assert t + 1 == n * (q + 1);
      Multiple(n, q + 1, 0);
    } else {
      Multiple(n, q, r + 1);
    }
  }

  lemma Multiple(n: nat, q: nat, r: nat)
    requires r < n
    ensures (n * q + r) % n == r
  {
    var x := n * q + r;
    assert x == n * (x / n) + x % n;
    UniqueRemainder(n, q, r, x / n, x % n);
  }

  lemma {:induction false} UniqueRemainder(n: nat, q: nat, r: nat, q': nat, r': nat)
    requires r < n && r' < n && n * q + r == n * q' + r'
    ensures r == r'
    decreases q
  {
    if q > 0 && q' > 0 {
      assert n * q == n * (q - 1) + n && n * q' == n * (q' - 1) + n;
      UniqueRemainder(n, q - 1, r, q' - 1, r');
    } else {
      Product(n, q);
      Product(n, q');
    }
  }

  lemma Product(n: nat, q: nat)
    ensures q == 0 ==> n * q == 0
    ensures q > 0 ==> n * q >= n
  {
    if q > 0 {
      assert n * q == n * (q - 1) + n;
    }
  }

  /** One turn of an aligned counter: due exactly on multiples, and aligned again, except that
      the turn that wraps leaves it stuck. */
  lemma AlignedStep(cfg: Config, turn: nat, last: nat)
    requires Aligned(cfg, turn, last) && turn < U64
    ensures var next := (turn + 1) % U64;
            && (ExtractionDue(cfg, next, last) <==> next % cfg.extractionInterval == 0 && !Stuck(cfg, last))
            && (turn + 1 < U64 ==>
                  && next == turn + 1
                  && (ExtractionDue(cfg, next, last) <==> next % cfg.extractionInterval == 0)
                  && Aligned(cfg, next, if ExtractionDue(cfg, next, last) then next else last))
            && (turn + 1 == U64 ==> next == 0 && Stuck(cfg, last) && !ExtractionDue(cfg, next, last))
  {
    NextMultiple(cfg.extractionInterval, turn);
  }

  /** A stuck counter never gets unstuck by counting. */
  lemma StuckStep(cfg: Config, turn: nat, last: nat)
    requires Stuck(cfg, last)
    ensures !ExtractionDue(cfg, (turn + 1) % U64, last)
  {
  }

  // ---- Any run at all ----

  ghost predicate Beat(cfg: Config, turn: nat, last: nat) {
    turn < U64 && (Aligned(cfg, turn, last) || Stuck(cfg, last))
  }

  /** In memory and on disk, the counters are aligned or stuck. */
  ghost predicate OnBeat(cfg: Config, s: State) {
    && Sound(cfg, s.db) && Beat(cfg, s.turnCount, s.lastExtraction)
    && (Saved(cfg, s.db).Some? ==>
          Beat(cfg, Saved(cfg, s.db).value.turnCount, Saved(cfg, s.db).value.lastExtractionAtTurn))
  }

  lemma TurnStaysOnBeat(cfg: Config, s: State, w: World)
    requires OnBeat(cfg, s) && Plausible(cfg, s.db, w) && cfg.extractionInterval > 0
    ensures var r := Turn(cfg, s, w);
            && OnBeat(cfg, r.state)
            && (r.outcome.Recorded? ==>
                  (r.outcome.extracted <==> r.outcome.number % cfg.extractionInterval == 0 && !Stuck(cfg, s.lastExtraction)))
  {
    hide Turn, Plausible, Sound, PersonaRows, RowsAfter, Contribution, Records, Aligned, Stuck, ExtractionDue;
    assert Sound(cfg, s.db);
    TurnMeetsSpec(cfg, s, w);
    if Stuck(cfg, s.lastExtraction) {
      StuckStep(cfg, s.turnCount, s.lastExtraction);
    } else {
      AlignedStep(cfg, s.turnCount, s.lastExtraction);
    }
  }

  lemma RestartStaysOnBeat(cfg: Config, s: State)
    requires OnBeat(cfg, s) && cfg.extractionInterval > 0
    ensures OnBeat(cfg, Reboot(cfg, s.db))
  {
    if cfg.agentId != "" {
      RebootReadsSaved(cfg, s.db);
    }
  }

  lemma {:induction false} RunsStayOnBeat(cfg: Config, s: State, events: seq<Event>)
    requires OnBeat(cfg, s) && PlausibleRun(cfg, s, events) && cfg.extractionInterval > 0
    ensures OnBeat(cfg, After(cfg, s, events))
    decreases |events|
  {
    hide OnBeat, Turn, Plausible;
    if events != [] {
      match events[0]
      case Turned(w) =>
        TurnStaysOnBeat(cfg, s, w);
        RunsStayOnBeat(cfg, Turn(cfg, s, w).state, events[1..]);
      case Restarted =>
        RestartStaysOnBeat(cfg, s);
        RunsStayOnBeat(cfg, Reboot(cfg, s.db), events[1..]);
    }
  }

  /** From a fresh database, in every run, wherever restarts fall and whichever state writes
      fail: a recorded turn attempts an extraction exactly when its number is a multiple of the
      interval and a whole interval past the last extraction can still be counted. */
  lemma ExtractionOnMultiples(cfg: Config, db: Db, events: seq<Event>, w: World)
    requires FreshDb(cfg, db) && cfg.extractionInterval > 0
    requires PlausibleRun(cfg, Reboot(cfg, db), events)
    requires Plausible(cfg, After(cfg, Reboot(cfg, db), events).db, w)
    ensures var s := After(cfg, Reboot(cfg, db), events);
            var r := Turn(cfg, s, w);
            r.outcome.Recorded? ==>
              (r.outcome.extracted <==>
               r.outcome.number % cfg.extractionInterval == 0 && s.lastExtraction + cfg.extractionInterval < U64)
  {
    hide Turn, Sound, Plausible, After, PlausibleRun;
    FreshIsSound(cfg, db);
    assert OnBeat(cfg, Reboot(cfg, db));
    RunsStayOnBeat(cfg, Reboot(cfg, db), events);
    TurnStaysOnBeat(cfg, After(cfg, Reboot(cfg, db), events), w);
  }

  // ---- Runs whose restarts lose no turn ----

  /** Restarts happen only when the last recorded turn saved its state. */
  ghost predicate SavedRestarts(cfg: Config, s: State, events: seq<Event>, saved: bool)
    decreases |events|
  {
    if events == [] then true
    else match events[0]
      case Restarted => saved && SavedRestarts(cfg, Reboot(cfg, s.db), events[1..], true)
      case Turned(w) =>
        SavedRestarts(cfg, Turn(cfg, s, w).state, events[1..], if Records(cfg, s, w) then w.stateWriteOk else saved)
  }

  ghost function RecordedTurns(cfg: Config, s: State, events: seq<Event>): nat
    decreases |events|
  {
    if events == [] then 0
    else
      (if events[0].Turned? && Turn(cfg, s, events[0].world).outcome.Recorded? then 1 else 0)
      + RecordedTurns(cfg, StepEvent(cfg, s, events[0]), events[1..])
  }

  /** A restart would bring back the counters in memory. */
  ghost predicate SavedIs(cfg: Config, s: State)
    requires Sound(cfg, s.db)
  {
    match Saved(cfg, s.db)
    case None => s.turnCount == s.lastExtraction == 0
    case Some(st) => st.turnCount == s.turnCount && st.lastExtractionAtTurn == s.lastExtraction
  }

  /** The counters after `k` recorded turns: aligned until the wrap, stuck from it on. */
  ghost predicate Counted(cfg: Config, s: State, k: nat) {
    && Sound(cfg, s.db) && s.turnCount == k % U64
    && if k < U64 then Aligned(cfg, k, s.lastExtraction) else Stuck(cfg, s.lastExtraction)
  }

  lemma NextModulo(k: nat)
    ensures (k % U64 + 1) % U64 == (k + 1) % U64
    ensures k < U64 ==> k % U64 == k
    ensures k + 1 == U64 ==> (k + 1) % U64 == 0
  {
  }

  lemma TurnIsCounted(cfg: Config, s: State, w: World, k: nat)
    requires Counted(cfg, s, k) && Plausible(cfg, s.db, w) && cfg.extractionInterval > 0
    ensures var r := Turn(cfg, s, w);
            && Sound(cfg, r.state.db)
            && Counted(cfg, r.state, if r.outcome.Recorded? then k + 1 else k)
            && (r.outcome.Recorded? <==> Records(cfg, s, w))
            && (r.outcome.Recorded? && w.stateWriteOk ==> SavedIs(cfg, r.state))
            && (!r.outcome.Recorded? && SavedIs(cfg, s) ==> SavedIs(cfg, r.state))
            && (r.outcome.Recorded? ==>
                  && r.outcome.number == (k + 1) % U64
                  && (r.outcome.extracted <==> (k + 1) % cfg.extractionInterval == 0 && k + 1 < U64))
  {
    hide Turn, Plausible, Sound, PersonaRows, RowsAfter, Contribution, Records, Aligned, Stuck, ExtractionDue;
    TurnMeetsSpec(cfg, s, w);
    NextModulo(k);
    if k < U64 {
      AlignedStep(cfg, k, s.lastExtraction);
    } else {
      StuckStep(cfg, s.turnCount, s.lastExtraction);
    }
  }

  lemma {:induction false} RunIsCounted(cfg: Config, s: State, events: seq<Event>, saved: bool, k: nat)
    requires Counted(cfg, s, k) && PlausibleRun(cfg, s, events) && cfg.agentId != "" && cfg.extractionInterval > 0
    requires SavedRestarts(cfg, s, events, saved) && (saved ==> SavedIs(cfg, s))
    ensures Counted(cfg, After(cfg, s, events), k + RecordedTurns(cfg, s, events))
    decreases |events|
  {
    hide Sound, Turn, Plausible, Records;
    if events != [] {
      match events[0]
      case Turned(w) =>
        var r := Turn(cfg, s, w);
        TurnIsCounted(cfg, s, w, k);
        RunIsCounted(cfg, r.state, events[1..], if Records(cfg, s, w) then w.stateWriteOk else saved,
                     if r.outcome.Recorded? then k + 1 else k);
      case Restarted =>
        RebootReadsSaved(cfg, s.db);
        RunIsCounted(cfg, Reboot(cfg, s.db), events[1..], true, k);
    }
  }

  /** With restarts only after saved turns, in runs of any length: the k-th recorded turn carries
      number k modulo 2^64 and attempts an extraction exactly when k is a multiple of the
      interval and the counter has not wrapped. Before the wrap that is n, 2n, 3n and no
      others; from the wrap on it is never. */
  lemma ExtractionOnEveryNthRecordedTurn(cfg: Config, db: Db, events: seq<Event>, w: World)
    requires FreshDb(cfg, db) && cfg.extractionInterval > 0
    requires PlausibleRun(cfg, Reboot(cfg, db), events)
    requires SavedRestarts(cfg, Reboot(cfg, db), events, true)
    requires Plausible(cfg, After(cfg, Reboot(cfg, db), events).db, w)
    ensures var r := Turn(cfg, After(cfg, Reboot(cfg, db), events), w);
            var k := RecordedTurns(cfg, Reboot(cfg, db), events) + 1;
            r.outcome.Recorded? ==>
              r.outcome.number == k % U64 && (r.outcome.extracted <==> k % cfg.extractionInterval == 0 && k < U64)
  {
    hide Turn, Sound, Plausible, After, PlausibleRun, SavedRestarts, RecordedTurns;
    FreshIsSound(cfg, db);
    var s := After(cfg, Reboot(cfg, db), events);
    if cfg.agentId == "" {
      RunsStaySound(cfg, Reboot(cfg, db), events);
      TurnMeetsSpec(cfg, s, w);
    } else {
      RunIsCounted(cfg, Reboot(cfg, db), events, true, 0);
      TurnIsCounted(cfg, s, w, RecordedTurns(cfg, Reboot(cfg, db), events));
    }
  }

  // ---- From the wrap on ----

  /** A restart would bring back a stuck counter. */
  ghost predicate SavedStuck(cfg: Config, db: Db)
    requires Sound(cfg, db)
  {
    Saved(cfg, db).Some? && Stuck(cfg, Saved(cfg, db).value.lastExtractionAtTurn)
  }

  lemma StuckTurn(cfg: Config, s: State, w: World)
    requires Sound(cfg, s.db) && Stuck(cfg, s.lastExtraction) && Plausible(cfg, s.db, w)
    ensures var r := Turn(cfg, s, w);
            && Sound(cfg, r.state.db) && r.state.lastExtraction == s.lastExtraction
            && (r.outcome.Recorded? ==> !r.outcome.extracted)
            && (r.outcome.Recorded? <==> Records(cfg, s, w))
            && (r.outcome.Recorded? && w.stateWriteOk ==> SavedStuck(cfg, r.state.db))
            && ((!r.outcome.Recorded? || !w.stateWriteOk) && SavedStuck(cfg, s.db) ==> SavedStuck(cfg, r.state.db))
  {
    hide Turn, Plausible, Sound, PersonaRows, RowsAfter, Contribution, Records, Stuck, ExtractionDue;
    TurnMeetsSpec(cfg, s, w);
    StuckStep(cfg, s.turnCount, s.lastExtraction);
  }

  /** Once the next multiple lies beyond the counter, as it does from every wrap on, no turn of
      any later run extracts, unless a restart brings back counters from before the wrap. */
  lemma {:induction false} NoExtractionAfterWrap(cfg: Config, s: State, events: seq<Event>, saved: bool, w: World)
    requires Sound(cfg, s.db) && Stuck(cfg, s.lastExtraction) && PlausibleRun(cfg, s, events)
    requires SavedRestarts(cfg, s, events, saved) && (saved ==> SavedStuck(cfg, s.db))
    requires Plausible(cfg, After(cfg, s, events).db, w)
    ensures var r := Turn(cfg, After(cfg, s, events), w); r.outcome.Recorded? ==> !r.outcome.extracted
    decreases |events|
  {
    hide Sound, Turn, Plausible, Records;
    if events == [] {
      StuckTurn(cfg, s, w);
    } else if cfg.agentId == "" {
      RunsStaySound(cfg, s, events);
      NothingRecorded(cfg, After(cfg, s, events), w);
    } else {
      match events[0]
      case Turned(v) =>
        StuckTurn(cfg, s, v);
        NoExtractionAfterWrap(cfg, Turn(cfg, s, v).state, events[1..], if Records(cfg, s, v) then v.stateWriteOk else saved, w);
      case Restarted =>
        RebootReadsSaved(cfg, s.db);
        NoExtractionAfterWrap(cfg, Reboot(cfg, s.db), events[1..], true, w);
    }
  }

  lemma NothingRecorded(cfg: Config, s: State, w: World)
    requires Sound(cfg, s.db) && Plausible(cfg, s.db, w) && cfg.agentId == ""
    ensures !Turn(cfg, s, w).outcome.Recorded?
  {
    hide Turn, Plausible, Sound, PersonaRows, RowsAfter, Contribution;
    TurnMeetsSpec(cfg, s, w);
  }

  // ---- A run that wraps ----

  const IDLE: World := World([], [], {}, None, "", [], None, None, true, 0)

  predicate CanIdle(cfg: Config) {
    cfg.agentId != "" && cfg.graphMemory && cfg.maxDelegationDepth > 0 && cfg.maxSteps > 0 && cfg.extractionInterval > 0
  }

  /** Nothing stored but the state row, and no turn in progress. */
  ghost predicate Idle(cfg: Config, s: State) {
    && CanIdle(cfg) && Sound(cfg, s.db) && s.depth == 0
    && forall id :: id in s.db.nodes ==> id == cfg.stateId
  }

  lemma IdleTurn(cfg: Config, s: State)
    requires Idle(cfg, s)
    ensures Plausible(cfg, s.db, IDLE) && Records(cfg, s, IDLE)
    ensures Turn(cfg, s, IDLE).outcome.Recorded? && Idle(cfg, Turn(cfg, s, IDLE).state)
  {
    var d := DispatchPatches(s.db, ActivePatches(s.db, cfg.agentId, []), {}, 0);
    assert d == DispatchAll(s.db, 0);
    assert PersonaRows(s.db, cfg.agentId) == map[];
    TurnMeetsSpec(cfg, s, IDLE);
    IdleWrites(cfg, s);
  }

  lemma IdleWrites(cfg: Config, s: State)
    requires Sound(cfg, s.db) && Records(cfg, s, IDLE)
    ensures forall id :: id in Turn(cfg, s, IDLE).state.db.nodes ==> id in s.db.nodes || id == cfg.stateId
  {
    hide Sound, PersistNode, Contribution;
    assert GatePasses(s.db, cfg.agentId) by {
      SoundPassesGate(cfg, s.db);
    }
    hide GatePasses;
    var r := Turn(cfg, s, IDLE);
    var n := StateNode(cfg, r.state.turnCount, r.state.lastExtraction, r.state.cache, 0);
    assert r.state.db == PersistNode(s.db, n, 0).db;
    WriteTouchesOneRow(s.db, n, 0);
  }

  function IdleTurns(m: nat): seq<Event> {
    seq(m, _ => Turned(IDLE))
  }

  lemma {:induction false} IdleRun(cfg: Config, s: State, m: nat)
    requires Idle(cfg, s)
    ensures var events := IdleTurns(m);
            && PlausibleRun(cfg, s, events) && SavedRestarts(cfg, s, events, true)
            && RecordedTurns(cfg, s, events) == m && Idle(cfg, After(cfg, s, events))
    decreases m
  {
    hide Idle, Turn, Plausible, Records;
    if m > 0 {
      IdleTurn(cfg, s);
      IdleRun(cfg, Turn(cfg, s, IDLE).state, m - 1);
      assert IdleTurns(m)[1..] == IdleTurns(m - 1) && IdleTurns(m)[0] == Turned(IDLE);
    }
  }

  /** The turn after `m` idle turns on an empty database. */
  lemma IdleTurnNumber(cfg: Config, m: nat)
    requires CanIdle(cfg)
    ensures var r := Turn(cfg, After(cfg, Reboot(cfg, EMPTY), IdleTurns(m)), IDLE);
            && FreshDb(cfg, EMPTY) && r.outcome.Recorded? && r.outcome.number == (m + 1) % U64
            && (r.outcome.extracted <==> (m + 1) % cfg.extractionInterval == 0 && m + 1 < U64)
  {
    hide Turn, After, PlausibleRun, SavedRestarts, RecordedTurns, Plausible, Sound, Records;
    assert FreshDb(cfg, EMPTY);
    FreshIsSound(cfg, EMPTY);
    var start := Reboot(cfg, EMPTY);
    IdleRun(cfg, start, m);
    IdleTurn(cfg, After(cfg, start, IdleTurns(m)));
    ExtractionOnEveryNthRecordedTurn(cfg, EMPTY, IdleTurns(m), IDLE);
  }

  /** The wrap is reached, and the first multiple after it, turn number 5 of an agent with
      interval 5, is skipped. */
  lemma WrappedMultipleIsSkipped(cfg: Config)
    requires CanIdle(cfg) && cfg.extractionInterval == 5
    ensures var r := Turn(cfg, After(cfg, Reboot(cfg, EMPTY), IdleTurns(U64 + 4)), IDLE);
            r.outcome.Recorded? && r.outcome.number == 5 && !r.outcome.extracted
  {
    hide Turn, After, FreshDb;
    IdleTurnNumber(cfg, U64 + 4);
  }
}
