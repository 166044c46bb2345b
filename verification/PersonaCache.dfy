/** The persona text that turns serve, against the persona rows, over turns and restarts. */
module PersonaCache {
  import opened Wrappers
  import opened Collections
  import opened Text
  import opened GraphModel
  import opened GraphIntegrity
  import opened TurnModel
  import opened TurnRuns

  /** Some scan of the rows compiles to `text`; the query has no `ORDER BY`. */
  ghost predicate Compiles(rows: map<Uuid, NodeRow>, text: Option<string>) {
    exists order: seq<Uuid> :: Lists(rows, order) && text == CompileRows(rows, order)
  }

  /** Neither the cached text nor the saved one disagrees with the stored persona rows. */
  ghost predicate Coherent(cfg: Config, s: State) {
    && Sound(cfg, s.db)
    && (s.cache.Some? ==> Compiles(PersonaRows(s.db, cfg.agentId), s.cache))
    && (SavedText(cfg, s.db).Some? ==> Compiles(PersonaRows(s.db, cfg.agentId), SavedText(cfg, s.db)))
  }

  ghost function SavedText(cfg: Config, db: Db): Option<string>
    requires Sound(cfg, db)
  {
    if Saved(cfg, db).Some? then Saved(cfg, db).value.personaSnapshot else None
  }

  lemma ContributionCompiles(cfg: Config, s: State, w: World)
    requires Coherent(cfg, s) && Plausible(cfg, s.db, w)
    ensures Compiles(PersonaRows(s.db, cfg.agentId), Contribution(cfg, s, w))
  {
    hide PersonaRows, CompileRows, Sound;
  }

  /** From a coherent state a turn leaves a coherent state if and only if it runs no pass, or its
      state write succeeds, or no text was saved before, or the rows as the pass overwrites them
      still compile to the saved text. */
  lemma TurnStaysCoherentIff(cfg: Config, s: State, w: World)
    requires Coherent(cfg, s) && Plausible(cfg, s.db, w)
    ensures Coherent(cfg, Turn(cfg, s, w).state) <==>
            || !RunsPass(cfg, s, w)
            || w.stateWriteOk
            || SavedText(cfg, s.db).None?
            || Compiles(Overwritten(PersonaRows(s.db, cfg.agentId), cfg.agentId, w.passWrites.value, w.now),
                        SavedText(cfg, s.db))
  {
    hide Turn, Plausible, Sound, PersonaRows, Compiles, Contribution, Overwritten, Records, ExtractionDue;
    TurnMeetsSpec(cfg, s, w);
    ContributionCompiles(cfg, s, w);
  }

  lemma RestartStaysCoherent(cfg: Config, s: State)
    requires Coherent(cfg, s)
    ensures Coherent(cfg, Reboot(cfg, s.db))
  {
    if cfg.agentId != "" {
      RebootReadsSaved(cfg, s.db);
    }
  }

  /** Every turn that runs a pass saves its state. */
  ghost predicate PassesAreSaved(cfg: Config, s: State, events: seq<Event>)
    decreases |events|
  {
    events == [] ||
    ((events[0].Turned? && RunsPass(cfg, s, events[0].world) ==> events[0].world.stateWriteOk)
     && PassesAreSaved(cfg, StepEvent(cfg, s, events[0]), events[1..]))
  }

  lemma {:induction false} RunsStayCoherent(cfg: Config, s: State, events: seq<Event>)
    requires Coherent(cfg, s) && PlausibleRun(cfg, s, events) && PassesAreSaved(cfg, s, events)
    ensures Coherent(cfg, After(cfg, s, events))
    decreases |events|
  {
    hide Turn, Plausible, Coherent, RunsPass;
    if events != [] {
      match events[0]
      case Turned(w) =>
        CoherentIsSound(cfg, s);
        TurnStaysCoherentIff(cfg, s, w);
        RunsStayCoherent(cfg, Turn(cfg, s, w).state, events[1..]);
      case Restarted =>
        RestartStaysCoherent(cfg, s);
        RunsStayCoherent(cfg, Reboot(cfg, s.db), events[1..]);
    }
  }

  lemma CoherentIsSound(cfg: Config, s: State)
    requires Coherent(cfg, s)
    ensures Sound(cfg, s.db)
  {
  }

  /** In every run whose passes are saved, each turn's persona text is a compilation of exactly
      the persona rows stored when the turn starts, whether it came from memory, from disk after
      a restart, or from the rows, and whatever order each scan returned them in. */
  lemma PersonaNeverStale(cfg: Config, db: Db, events: seq<Event>, w: World)
    requires FreshDb(cfg, db) && PlausibleRun(cfg, Reboot(cfg, db), events)
    requires PassesAreSaved(cfg, Reboot(cfg, db), events)
    requires Plausible(cfg, After(cfg, Reboot(cfg, db), events).db, w)
    ensures var s := After(cfg, Reboot(cfg, db), events);
            var r := Turn(cfg, s, w);
            && (r.outcome.Recorded? ==> Compiles(PersonaRows(s.db, cfg.agentId), r.outcome.persona))
            && (r.outcome.StepLimited? ==> Compiles(PersonaRows(s.db, cfg.agentId), r.outcome.limited))
  {
    hide Turn, Plausible, Sound, PersonaRows, Compiles, After, PlausibleRun, PassesAreSaved, Contribution;
    FreshIsSound(cfg, db);
    RunsStayCoherent(cfg, Reboot(cfg, db), events);
    var s := After(cfg, Reboot(cfg, db), events);
    CoherentIsSound(cfg, s);
    ContributionCompiles(cfg, s, w);
    TurnMeetsSpec(cfg, s, w);
  }

  // ---- What a compilation says ----

  lemma {:induction false} ScannedLines(rows: map<Uuid, NodeRow>, order: seq<Uuid>)
    requires forall id :: id in order ==> id in rows && rows[id].payload.nodeType.Persona?
    ensures |PersonaLines(Scanned(rows, order))| == |order|
    ensures forall i :: 0 <= i < |order| ==>
                          PersonaLines(Scanned(rows, order))[i] == Line(rows[order[i]].payload.nodeType.persona)
  {
    if order != [] {
      ScannedLines(rows, order[1..]);
      assert Scanned(rows, order)[1..] == Scanned(rows, order[1..]);
    }
  }

  function Lines(rows: map<Uuid, NodeRow>, order: seq<Uuid>): seq<string> {
    seq(|order|, i requires 0 <= i < |order| =>
      if order[i] in rows && rows[order[i]].payload.nodeType.Persona? then Line(rows[order[i]].payload.nodeType.persona) else "")
  }

  /** A compilation is the lines of all the agent's persona rows, each once, one to a line; it is
      absent exactly when there are none. */
  lemma CompilationIsEveryLine(db: Db, agent: string, text: Option<string>)
    ensures var rows := PersonaRows(db, agent);
            Compiles(rows, text) <==>
            exists order: seq<Uuid> ::
              Lists(rows, order) && text == if order == [] then None else Some(JoinLines(Lines(rows, order)))
  {
    var rows := PersonaRows(db, agent);
    forall order: seq<Uuid> | Lists(rows, order)
      ensures CompileRows(rows, order) == if order == [] then None else Some(JoinLines(Lines(rows, order)))
    {
      forall id | id in order ensures id in rows && rows[id].payload.nodeType.Persona? {
        assert id in Elems(order);
      }
      ScannedLines(rows, order);
      assert PersonaLines(Scanned(rows, order)) == Lines(rows, order);
    }
  }

  /** One line after the other, a line break between two. */
  lemma {:induction false} JoinLinesExactly(lines: seq<string>, last: string)
    ensures JoinLines([last]) == last
    ensures lines != [] ==> JoinLines(lines + [last]) == JoinLines(lines) + "\n" + last
  {
    if |lines| > 0 {
      var all := lines + [last];
      assert all[1..] == lines[1..] + [last];
      JoinLinesExactly(lines[1..], last);
      if |lines| == 1 {
        assert all[1..] == [last];
      } else {
        Associate(lines[0] + "\n", JoinLines(lines[1..]) + "\n", last);
        Associate(lines[0] + "\n", JoinLines(lines[1..]), "\n");
        assert JoinLines(all) == lines[0] + "\n" + (JoinLines(lines[1..]) + "\n" + last);
      }
    }
  }

  /** A single row compiles to its line. */
  lemma OneRowCompiles(id: Uuid, row: NodeRow, text: Option<string>)
    requires row.payload.nodeType.Persona?
    ensures var p := row.payload.nodeType.persona;
            Compiles(map[id := row], text) <==>
            text == Some("- " + p.traitName + " (strength " + p.strength + ", layer " + p.layer + ", source " + p.source + ")")
  {
    var rows := map[id := row];
    assert Lists(rows, [id]);
    assert CompileRows(rows, [id]) == Some(Line(row.payload.nodeType.persona)) by {
      ScannedLines(rows, [id]);
    }
    forall order | Lists(rows, order) ensures order == [id] {
      DistinctCardinality(order);
      assert |rows.Keys| == 1;
      assert order[0] in Elems(order);
    }
  }

  // ---- Without the proviso ----

  const AGENT: Config := Config("a", 1, 8, true, 1, 2)

  const OLD: Node := Node(10, "a", None, Persona(PersonaFields("old", "0.50", "Base", "Evolved", 1, map[], [])), [])

  const NEW: Node := Node(10, "a", None, Persona(PersonaFields("new", "0.50", "Base", "Evolved", 2, map[], [])), [])

  const OLD_TEXT: string := Line(OLD.nodeType.persona)

  const NEW_TEXT: string := Line(NEW.nodeType.persona)

  lemma TextsDiffer()
    ensures OLD_TEXT != NEW_TEXT
  {
    assert OLD_TEXT[2] == 'o' && NEW_TEXT[2] == 'n';
  }

  /** A turn that scans the persona row and does nothing else but save its state. */
  const PLAIN: World := World([10], [], {}, None, "", [], None, None, true, 0)

  /** A turn whose pass rewrites the persona row and whose state write fails. */
  const UNSAVED: World := PLAIN.(passWrites := Some([NEW]), stateWriteOk := false)

  ghost predicate Stores(s: State, n: Node) {
    Sound(AGENT, s.db) && s.depth == 0 && PersonaRows(s.db, "a") == map[10 := RowFor(n, 0)]
  }

  lemma NothingToDispatch(s: State, w: World)
    requires s.depth == 0 && w.patchOrder == []
    ensures Records(AGENT, s, w)
  {
  }

  lemma OneRowListed(row: NodeRow)
    ensures Lists(map[10 := row], [10])
  {
  }

  lemma TextOf(n: Node)
    requires n.nodeType.Persona?
    ensures CompileRows(map[10 := RowFor(n, 0)], [10]) == Some(Line(n.nodeType.persona))
  {
    ScannedLines(map[10 := RowFor(n, 0)], [10]);
  }

  lemma FirstTurn(s: State)
    requires Stores(s, OLD) && s.turnCount == s.lastExtraction == 0 && s.cache == None
    ensures Plausible(AGENT, s.db, PLAIN)
    ensures var r := Turn(AGENT, s, PLAIN).state;
            && Stores(r, OLD) && r.turnCount == 1 && r.lastExtraction == 0
            && Saved(AGENT, r.db) == Some(RuntimeState("a", 1, 0, Some(OLD_TEXT), 0))
  {
    hide Turn, Sound, PersonaRows, CompileRows, Records;
    OneRowListed(RowFor(OLD, 0));
    NothingToDispatch(s, PLAIN);
    TextOf(OLD);
    TurnMeetsSpec(AGENT, s, PLAIN);
  }

  lemma SecondTurn(s: State)
    requires Stores(s, OLD) && s.turnCount == 1 && s.lastExtraction == 0
    ensures Plausible(AGENT, s.db, UNSAVED)
    ensures var r := Turn(AGENT, s, UNSAVED).state;
            Stores(r, NEW) && Saved(AGENT, r.db) == Saved(AGENT, s.db)
  {
    hide Turn, Sound, PersonaRows, CompileRows, Records;
    OneRowListed(RowFor(OLD, 0));
    NothingToDispatch(s, UNSAVED);
    assert [NEW][1..] == [];
    assert Overwritten(map[10 := RowFor(OLD, 0)], "a", [NEW], 0) == map[10 := RowFor(NEW, 0)];
    TurnMeetsSpec(AGENT, s, UNSAVED);
  }

  lemma ThirdTurn(s: State)
    requires Stores(s, NEW) && s.cache == Some(OLD_TEXT)
    ensures Plausible(AGENT, s.db, PLAIN)
    ensures var r := Turn(AGENT, s, PLAIN); r.outcome.Recorded? && r.outcome.persona == Some(OLD_TEXT)
  {
    hide Turn, Sound, PersonaRows, CompileRows, Records;
    OneRowListed(RowFor(NEW, 0));
    NothingToDispatch(s, PLAIN);
    TurnMeetsSpec(AGENT, s, PLAIN);
  }

  lemma OldStored()
    ensures var db := Run(EMPTY, [WriteNode(OLD, 0)]);
            FreshDb(AGENT, db) && Stores(Reboot(AGENT, db), OLD) && Reboot(AGENT, db) == State(db, 0, 0, None, 0)
  {
    var db := Run(EMPTY, [WriteNode(OLD, 0)]);
    var op := WriteNode(OLD, 0);
    assert Run(EMPTY, [op]) == Run(Apply(EMPTY, op).db, [op][1..]) == Apply(EMPTY, op).db;
    WriteTouchesOneRow(EMPTY, OLD, 0);
    NodeWriteKeeps(EMPTY, OLD, 0);
    assert db.nodes == map[10 := RowFor(OLD, 0)];
    assert FreshDb(AGENT, db);
    FreshIsSound(AGENT, db);
    assert PersonaRows(db, "a") == map[10 := RowFor(OLD, 0)];
  }

  /** Without that proviso a stale text is served, in a run from a fresh database: a saved turn,
      a turn whose pass rewrites the persona row while its state write fails, a restart. The
      next turn serves the text of the row that is gone. */
  lemma UnsavedPassServesStalePersona()
    ensures var db := Run(EMPTY, [WriteNode(OLD, 0)]);
            var events := [Turned(PLAIN), Turned(UNSAVED), Restarted];
            var s := After(AGENT, Reboot(AGENT, db), events);
            var r := Turn(AGENT, s, PLAIN);
            && FreshDb(AGENT, db) && PlausibleRun(AGENT, Reboot(AGENT, db), events) && Plausible(AGENT, s.db, PLAIN)
            && r.outcome.Recorded? && r.outcome.persona == Some(OLD_TEXT)
            && !Compiles(PersonaRows(s.db, "a"), r.outcome.persona) && Compiles(PersonaRows(s.db, "a"), Some(NEW_TEXT))
  {
    hide Turn, Sound, PersonaRows, Plausible, FreshDb, Compiles, Run;
    OldStored();
    var s0 := Reboot(AGENT, Run(EMPTY, [WriteNode(OLD, 0)]));
    FirstTurn(s0);
    var s1 := Turn(AGENT, s0, PLAIN).state;
    SecondTurn(s1);
    var s2 := Turn(AGENT, s1, UNSAVED).state;
    RebootReadsSaved(AGENT, s2.db);
    var s3 := Reboot(AGENT, s2.db);
    ThirdTurn(s3);
    RunOfThree(s0, Turned(PLAIN), Turned(UNSAVED), Restarted);
    TextsDiffer();
    OneRowCompiles(10, RowFor(NEW, 0), Some(OLD_TEXT));
    OneRowCompiles(10, RowFor(NEW, 0), Some(NEW_TEXT));
  }

  lemma RunOfThree(s: State, a: Event, b: Event, c: Event)
    ensures var s1 := StepEvent(AGENT, s, a);
            var s2 := StepEvent(AGENT, s1, b);
            && After(AGENT, s, [a, b, c]) == StepEvent(AGENT, s2, c)
            && (PlausibleRun(AGENT, s, [a, b, c]) <==>
                && (a.Turned? ==> Plausible(AGENT, s.db, a.world))
                && (b.Turned? ==> Plausible(AGENT, s1.db, b.world))
                && (c.Turned? ==> Plausible(AGENT, s2.db, c.world)))
  {
    hide StepEvent, Plausible;
    assert [a, b, c][1..] == [b, c] && [b, c][1..] == [c] && [c][1..] == [];
    var s1 := StepEvent(AGENT, s, a);
    var s2 := StepEvent(AGENT, s1, b);
    assert After(AGENT, s2, [c]) == StepEvent(AGENT, s2, c);
    assert After(AGENT, s1, [b, c]) == StepEvent(AGENT, s2, c);
    assert PlausibleRun(AGENT, s2, [c]) <==> (c.Turned? ==> Plausible(AGENT, s2.db, c.world));
    assert PlausibleRun(AGENT, s1, [b, c]) <==>
           (b.Turned? ==> Plausible(AGENT, s1.db, b.world)) && PlausibleRun(AGENT, s2, [c]);
  }
}
