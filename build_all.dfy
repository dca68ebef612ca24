// The build run of scripts/build-all.js (`buildAllPresentations`, lines
// 5-31 and 105): reset `dist`, list `presentations/`, build every entry that
// holds a `slides.md` one after the other, stop at the first build that
// fails, and otherwise write `dist/index.html`.
//
// The outside world enters as parameters: `entries` is what `readdir`
// returns, `hasSlides(n)` whether `presentations/<n>/slides.md` exists, and
// `buildSucceeds(n)` whether the build command of deck `n` exits with 0.
// What the run does to the world is returned as a trace of effects.

module BuildAll {
  import opened Options
  import opened Seqs
  import opened IndexPage
  import opened BuildCommands

  /** One interaction of the run with the file system or the shell. */
  datatype Effect =
    | ResetDist                                              // `fs.remove` then `fs.ensureDir` of dist
    | ListPresentations                                      // `fs.readdir` of presentations
    | ProbeSlides(deck: string)                              // `fs.pathExists` of <deck>/slides.md
    | Build(deck: string, command: string, succeeded: bool)  // `execSync` of the deck's build command
    | WriteIndex(html: string)                               // `fs.writeFile` of dist/index.html

  /** How the run ends: all builds done and the index written, or aborted by
      the exception of a failing build. `valid` is `validPresentations`;
      `built` lists the decks whose build finished before the failing one. */
  datatype Outcome =
    | Completed(valid: seq<string>)
    | Aborted(built: seq<string>, failed: string)

  datatype RunResult = RunResult(effects: seq<Effect>, outcome: Outcome)

  /** The effects every run starts with. */
  const Setup: seq<Effect> := [ResetDist, ListPresentations]

  // ---------------------------------------------------------------------
  // The specification of the loop, entry by entry.
  // ---------------------------------------------------------------------

  /** The loop's state after a prefix of the entries: the effects so far,
      `validPresentations`, and the deck whose build threw, if any. */
  datatype Progress = Progress(effects: seq<Effect>, valid: seq<string>, failed: Option<string>)

  /** The effects of the loop body for `entry`: the `slides.md` probe,
      then, when it exists, the deck's build. */
  function StepEffects(entry: string, hasSlides: string -> bool, buildSucceeds: string -> bool,
                       root: string): seq<Effect>
  {
    if hasSlides(entry)
    then [ProbeSlides(entry), Build(entry, BuildCommand(root, entry), buildSucceeds(entry))]
    else [ProbeSlides(entry)]
  }

  /** One iteration of the loop body for `entry`. */
  function Step(p: Progress, entry: string, hasSlides: string -> bool, buildSucceeds: string -> bool,
                root: string): Progress
  {
    var effects := p.effects + StepEffects(entry, hasSlides, buildSucceeds, root);
    if !hasSlides(entry) then Progress(effects, p.valid, None)
    else if buildSucceeds(entry) then Progress(effects, p.valid + [entry], None)
    else Progress(effects, p.valid + [entry], Some(entry))
  }

  /** The loop over `entries`; once a build has thrown, nothing further happens.
      A failed run's last valid deck is the one that failed. */
  function Scan(entries: seq<string>, hasSlides: string -> bool, buildSucceeds: string -> bool,
                root: string): (p: Progress)
    ensures p.failed.Some? ==> |p.valid| > 0 && p.valid[|p.valid| - 1] == p.failed.value
    decreases |entries|
  {
    if entries == [] then Progress([], [], None)
    else
      var p := Scan(entries[..|entries| - 1], hasSlides, buildSucceeds, root);
      if p.failed.Some? then p else Step(p, entries[|entries| - 1], hasSlides, buildSucceeds, root)
  }

  /** The whole run: setup, the loop, then the index unless a build threw. */
  function Run(entries: seq<string>, hasSlides: string -> bool, buildSucceeds: string -> bool,
               root: string): RunResult
  {
    var p := Scan(entries, hasSlides, buildSucceeds, root);
    match p.failed
    case None => RunResult(Setup + p.effects + [WriteIndex(IndexHtml(p.valid))], Completed(p.valid))
    case Some(deck) => RunResult(Setup + p.effects, Aborted(p.valid[..|p.valid| - 1], deck))
  }

  // ---------------------------------------------------------------------
  // The run as the script performs it.
  // ---------------------------------------------------------------------

  lemma {:induction false} ScanStopsAtFailure(entries: seq<string>, k: nat, hasSlides: string -> bool,
                                              buildSucceeds: string -> bool, root: string)
    requires k <= |entries|
    requires Scan(entries[..k], hasSlides, buildSucceeds, root).failed.Some?
    ensures Scan(entries, hasSlides, buildSucceeds, root) == Scan(entries[..k], hasSlides, buildSucceeds, root)
    decreases |entries| - k
  {
    if k == |entries| {
      assert entries[..k] == entries;
    } else {
      var init := entries[..|entries| - 1];
      assert init[..k] == entries[..k];
      ScanStopsAtFailure(init, k, hasSlides, buildSucceeds, root);
    }
  }

  /** `buildAllPresentations`: the loop appends to `validPresentations` and
      issues one build per deck with slides, and a failing build ends the
      run at once. */
  method BuildAllPresentations(entries: seq<string>, hasSlides: string -> bool,
                               buildSucceeds: string -> bool, root: string)
    returns (effects: seq<Effect>, outcome: Outcome)
    ensures RunResult(effects, outcome) == Run(entries, hasSlides, buildSucceeds, root)
  {
    effects := Setup;
    var validPresentations: seq<string> := [];
    var i := 0;
    while i < |entries|
      invariant 0 <= i <= |entries|
      invariant effects == Setup + Scan(entries[..i], hasSlides, buildSucceeds, root).effects
      invariant validPresentations == Scan(entries[..i], hasSlides, buildSucceeds, root).valid
      invariant Scan(entries[..i], hasSlides, buildSucceeds, root).failed.None?
    {
      var presentation := entries[i];
      ScanNext(entries, i, hasSlides, buildSucceeds, root);
      var before := effects;
      effects := effects + [ProbeSlides(presentation)];
      if hasSlides(presentation) {
        validPresentations := validPresentations + [presentation];
        var command := BuildCommand(root, presentation);
        var ok := buildSucceeds(presentation);
        effects := effects + [Build(presentation, command, ok)];
        AppendPair(before, ProbeSlides(presentation), Build(presentation, command, ok));
        if !ok {
          RunStopsAt(entries, i, hasSlides, buildSucceeds, root);
          DropLast(Scan(entries[..i], hasSlides, buildSucceeds, root).valid, presentation);
          outcome := Aborted(validPresentations[..|validPresentations| - 1], presentation);
          return;
        }
      }
      i := i + 1;
    }
    assert entries[..i] == entries;
    RunWithoutFailure(entries, hasSlides, buildSucceeds, root);
    effects := effects + [WriteIndex(IndexHtml(validPresentations))];
    outcome := Completed(validPresentations);
  }

  /** A run whose loop meets its first failing build at entry `i`. */
  lemma RunStopsAt(entries: seq<string>, i: nat, hasSlides: string -> bool, buildSucceeds: string -> bool,
                   root: string)
    requires i < |entries| && hasSlides(entries[i]) && !buildSucceeds(entries[i])
    requires Scan(entries[..i], hasSlides, buildSucceeds, root).failed.None?
    ensures var q := Scan(entries[..i], hasSlides, buildSucceeds, root);
      Run(entries, hasSlides, buildSucceeds, root)
      == RunResult(Setup + q.effects + StepEffects(entries[i], hasSlides, buildSucceeds, root),
                   Aborted(q.valid, entries[i]))
  {
    var q := Scan(entries[..i], hasSlides, buildSucceeds, root);
    ScanNext(entries, i, hasSlides, buildSucceeds, root);
    ScanStopsAtFailure(entries, i + 1, hasSlides, buildSucceeds, root);
    DropLast(q.valid, entries[i]);
  }

  /** A run whose loop meets no failing build. */
  lemma RunWithoutFailure(entries: seq<string>, hasSlides: string -> bool, buildSucceeds: string -> bool,
                     root: string)
    requires Scan(entries, hasSlides, buildSucceeds, root).failed.None?
    ensures var p := Scan(entries, hasSlides, buildSucceeds, root);
      Run(entries, hasSlides, buildSucceeds, root)
      == RunResult(Setup + p.effects + [WriteIndex(IndexHtml(p.valid))], Completed(p.valid))
  {
  }

  // ---------------------------------------------------------------------
  // Reading the trace.
  // ---------------------------------------------------------------------

  /** The decks, in order, that the effects chosen by `pick` name. */
  function Pick(effects: seq<Effect>, pick: Effect -> Option<string>): seq<string>
  {
    if effects == [] then []
    else (if pick(effects[0]).Some? then [pick(effects[0]).value] else []) + Pick(effects[1..], pick)
  }

  function ProbedDeck(e: Effect): Option<string> { if e.ProbeSlides? then Some(e.deck) else None }
  function BuiltDeck(e: Effect): Option<string> { if e.Build? then Some(e.deck) else None }
  function WrittenIndex(e: Effect): Option<string> { if e.WriteIndex? then Some(e.html) else None }

  /** The entries whose `slides.md` was looked for. */
  function Probed(effects: seq<Effect>): seq<string> { Pick(effects, ProbedDeck) }
  /** The decks whose build command ran. */
  function Attempted(effects: seq<Effect>): seq<string> { Pick(effects, BuiltDeck) }
  /** The index pages written. */
  function Written(effects: seq<Effect>): seq<string> { Pick(effects, WrittenIndex) }

  /** Every build in the trace ran the deck's own command and ended as the
      deck's build does. */
  predicate BuildsFollowTemplate(effects: seq<Effect>, buildSucceeds: string -> bool, root: string)
  {
    forall i :: 0 <= i < |effects| && effects[i].Build? ==>
      effects[i].command == BuildCommand(root, effects[i].deck)
      && effects[i].succeeded == buildSucceeds(effects[i].deck)
  }

  lemma {:induction false} PickAppend(a: seq<Effect>, b: seq<Effect>, pick: Effect -> Option<string>)
    ensures Pick(a + b, pick) == Pick(a, pick) + Pick(b, pick)
  {
    if a == [] {
      assert a + b == b;
    } else {
      HeadOfAppend(a, b);
      PickAppend(a[1..], b, pick);
      var head := if pick(a[0]).Some? then [pick(a[0]).value] else [];
      Regroup(head, Pick(a[1..], pick), Pick(b, pick));
    }
  }

  /** The entries that have slides, in their listing order: the reference
      for `validPresentations`. */
  function Filter(entries: seq<string>, hasSlides: string -> bool): seq<string>
    decreases |entries|
  {
    if entries == [] then []
    else
      var last := entries[|entries| - 1];
      Filter(entries[..|entries| - 1], hasSlides) + (if hasSlides(last) then [last] else [])
  }

  /** Filter keeps exactly the entries with slides: everything it keeps has
      them, and every entry that has them is kept. */
  lemma {:induction false} FilterKeepsExactly(entries: seq<string>, hasSlides: string -> bool)
    ensures forall n :: n in Filter(entries, hasSlides) <==> n in entries && hasSlides(n)
    ensures |Filter(entries, hasSlides)| <= |entries|
    decreases |entries|
  {
    if entries != [] {
      var init, last := entries[..|entries| - 1], entries[|entries| - 1];
      FilterKeepsExactly(init, hasSlides);
      assert entries == init + [last];
    }
  }

  // ---------------------------------------------------------------------
  // What the loop does, entry by entry.
  // ---------------------------------------------------------------------

  lemma StepTrace(entry: string, hasSlides: string -> bool, buildSucceeds: string -> bool, root: string)
    ensures var step := StepEffects(entry, hasSlides, buildSucceeds, root);
      && Probed(step) == [entry]
      && Attempted(step) == (if hasSlides(entry) then [entry] else [])
      && Written(step) == []
      && BuildsFollowTemplate(step, buildSucceeds, root)
  {
    var step := StepEffects(entry, hasSlides, buildSucceeds, root);
    var probe := ProbeSlides(entry);
    PickOne(probe, ProbedDeck);
    PickOne(probe, BuiltDeck);
    PickOne(probe, WrittenIndex);
    if hasSlides(entry) {
      var build := Build(entry, BuildCommand(root, entry), buildSucceeds(entry));
      assert step == [probe] + [build];
      PickOne(build, ProbedDeck);
      PickOne(build, BuiltDeck);
      PickOne(build, WrittenIndex);
      PickAppend([probe], [build], ProbedDeck);
      PickAppend([probe], [build], BuiltDeck);
      PickAppend([probe], [build], WrittenIndex);
    }
  }

  lemma PickOne(e: Effect, pick: Effect -> Option<string>)
    ensures Pick([e], pick) == if pick(e).Some? then [pick(e).value] else []
  {
    assert [e][1..] == [];
  }

  lemma BuildsFollowTemplateAppend(a: seq<Effect>, b: seq<Effect>, buildSucceeds: string -> bool, root: string)
    requires BuildsFollowTemplate(a, buildSucceeds, root) && BuildsFollowTemplate(b, buildSucceeds, root)
    ensures BuildsFollowTemplate(a + b, buildSucceeds, root)
  {
    forall i | 0 <= i < |a + b| && (a + b)[i].Build?
      ensures (a + b)[i].command == BuildCommand(root, (a + b)[i].deck)
      ensures (a + b)[i].succeeded == buildSucceeds((a + b)[i].deck)
    {
      if i >= |a| {
        assert (a + b)[i] == b[i - |a|];
      }
    }
  }

  /** Without a failure, `validPresentations` is exactly the entries with
      slides, in listing order. */
  lemma {:induction false} ScanKeepsDecksWithSlides(entries: seq<string>, hasSlides: string -> bool,
                                                    buildSucceeds: string -> bool, root: string)
    requires Scan(entries, hasSlides, buildSucceeds, root).failed.None?
    ensures Scan(entries, hasSlides, buildSucceeds, root).valid == Filter(entries, hasSlides)
    decreases |entries|
  {
    if entries != [] {
      ScanLast(entries, hasSlides, buildSucceeds, root);
      ScanKeepsDecksWithSlides(entries[..|entries| - 1], hasSlides, buildSucceeds, root);
    }
  }

  /** Without a failure, the loop state after the last entry is one step on
      from the state before it, which had no failure either. */
  lemma ScanLast(entries: seq<string>, hasSlides: string -> bool, buildSucceeds: string -> bool,
                 root: string)
    requires entries != [] && Scan(entries, hasSlides, buildSucceeds, root).failed.None?
    ensures var q := Scan(entries[..|entries| - 1], hasSlides, buildSucceeds, root);
      var last := entries[|entries| - 1];
      && q.failed.None?
      && Scan(entries, hasSlides, buildSucceeds, root).effects
         == q.effects + StepEffects(last, hasSlides, buildSucceeds, root)
      && Scan(entries, hasSlides, buildSucceeds, root).valid
         == q.valid + (if hasSlides(last) then [last] else [])
  {
  }

  /** The loop state after `i + 1` entries, from the state after `i`. */
  lemma ScanNext(entries: seq<string>, i: nat, hasSlides: string -> bool, buildSucceeds: string -> bool,
                 root: string)
    requires i < |entries|
    ensures var p := Scan(entries[..i], hasSlides, buildSucceeds, root);
      Scan(entries[..i + 1], hasSlides, buildSucceeds, root)
      == if p.failed.Some? then p else Step(p, entries[i], hasSlides, buildSucceeds, root)
  {
    assert entries[..i + 1][..i] == entries[..i];
  }

  /** Without a failure, the loop has probed every entry in order, run the
      build of each kept deck once and in order, each with its own command,
      and written nothing. */
  lemma {:induction false} ScanTrace(entries: seq<string>, hasSlides: string -> bool,
                                     buildSucceeds: string -> bool, root: string)
    requires Scan(entries, hasSlides, buildSucceeds, root).failed.None?
    ensures var p := Scan(entries, hasSlides, buildSucceeds, root);
      && Probed(p.effects) == entries
      && Attempted(p.effects) == p.valid
      && Written(p.effects) == []
      && BuildsFollowTemplate(p.effects, buildSucceeds, root)
    decreases |entries|
  {
    if entries != [] {
      var init, last := entries[..|entries| - 1], entries[|entries| - 1];
      var q := Scan(init, hasSlides, buildSucceeds, root);
      var step := StepEffects(last, hasSlides, buildSucceeds, root);
      ScanLast(entries, hasSlides, buildSucceeds, root);
      ScanTrace(init, hasSlides, buildSucceeds, root);
      StepTrace(last, hasSlides, buildSucceeds, root);
      TraceAppend(q.effects, step, buildSucceeds, root);
      InitLast(entries);
    }
  }

  /** Without a failure, every kept deck's build succeeded. */
  lemma {:induction false} ScanBuildsSucceeded(entries: seq<string>, hasSlides: string -> bool,
                                               buildSucceeds: string -> bool, root: string)
    requires Scan(entries, hasSlides, buildSucceeds, root).failed.None?
    ensures var p := Scan(entries, hasSlides, buildSucceeds, root);
      forall i :: 0 <= i < |p.valid| ==> buildSucceeds(p.valid[i])
    decreases |entries|
  {
    if entries != [] {
      ScanBuildsSucceeded(entries[..|entries| - 1], hasSlides, buildSucceeds, root);
    }
  }

  /** A loop that failed did so at some entry `k`: every entry before it
      went through without failure, and the state after `k` is one step on. */
  lemma {:induction false} ScanFailure(entries: seq<string>, hasSlides: string -> bool,
                                       buildSucceeds: string -> bool, root: string)
    returns (k: nat)
    requires Scan(entries, hasSlides, buildSucceeds, root).failed.Some?
    ensures k < |entries|
    ensures Scan(entries[..k], hasSlides, buildSucceeds, root).failed.None?
    ensures hasSlides(entries[k]) && !buildSucceeds(entries[k])
    ensures Scan(entries, hasSlides, buildSucceeds, root)
         == Step(Scan(entries[..k], hasSlides, buildSucceeds, root), entries[k], hasSlides, buildSucceeds, root)
    decreases |entries|
  {
    var init := entries[..|entries| - 1];
    if Scan(init, hasSlides, buildSucceeds, root).failed.Some? {
      k := ScanFailure(init, hasSlides, buildSucceeds, root);
      assert init[..k] == entries[..k];
    } else {
      k := |entries| - 1;
    }
  }

  // ---------------------------------------------------------------------
  // What a run does.
  // ---------------------------------------------------------------------

  /** A run that completes has looked at every entry, built exactly the
      entries with slides, once each and in listing order, listed those same
      decks in the index, and written the index once, as its last act. */
  lemma RunCompleted(entries: seq<string>, hasSlides: string -> bool, buildSucceeds: string -> bool,
                     root: string)
    requires Run(entries, hasSlides, buildSucceeds, root).outcome.Completed?
    ensures var r := Run(entries, hasSlides, buildSucceeds, root);
      && r.outcome.valid == Filter(entries, hasSlides)
      && r.effects[..|Setup|] == Setup
      && Probed(r.effects) == entries
      && Attempted(r.effects) == Filter(entries, hasSlides)
      && Written(r.effects) == [IndexHtml(Filter(entries, hasSlides))]
      && r.effects[|r.effects| - 1] == WriteIndex(IndexHtml(Filter(entries, hasSlides)))
      && BuildsFollowTemplate(r.effects, buildSucceeds, root)
  {
    var p := Scan(entries, hasSlides, buildSucceeds, root);
    ScanKeepsDecksWithSlides(entries, hasSlides, buildSucceeds, root);
    ScanTrace(entries, hasSlides, buildSucceeds, root);
    CompletedTrace(p.effects, IndexHtml(p.valid), buildSucceeds, root);
  }

  /** The trace readings of a completed run, for any loop trace and page. */
  lemma CompletedTrace(body: seq<Effect>, html: string, buildSucceeds: string -> bool, root: string)
    ensures var effects := Setup + body + [WriteIndex(html)];
      && Probed(effects) == Probed(body)
      && Attempted(effects) == Attempted(body)
      && Written(effects) == Written(body) + [html]
      && (BuildsFollowTemplate(body, buildSucceeds, root) ==> BuildsFollowTemplate(effects, buildSucceeds, root))
  {
    SetupTrace(buildSucceeds, root);
    var write := WriteIndex(html);
    PickOne(write, ProbedDeck);
    PickOne(write, BuiltDeck);
    PickOne(write, WrittenIndex);
    assert BuildsFollowTemplate([write], buildSucceeds, root);
    TraceAppend(Setup, body, buildSucceeds, root);
    TraceAppend(Setup + body, [write], buildSucceeds, root);
  }

  lemma SetupTrace(buildSucceeds: string -> bool, root: string)
    ensures Probed(Setup) == [] && Attempted(Setup) == [] && Written(Setup) == []
    ensures BuildsFollowTemplate(Setup, buildSucceeds, root)
  {
    assert Setup[1..][1..] == [];
  }

  /** A run that aborts was stopped by the build of the first deck that
      fails, at some entry `k`: the entries before it were all looked at and
      those with slides built successfully, no later entry was looked at or
      built, and no index was written. */
  lemma RunAborted(entries: seq<string>, hasSlides: string -> bool, buildSucceeds: string -> bool,
                   root: string) returns (k: nat)
    requires Run(entries, hasSlides, buildSucceeds, root).outcome.Aborted?
    ensures var r := Run(entries, hasSlides, buildSucceeds, root);
      && k < |entries|
      && entries[k] == r.outcome.failed
      && hasSlides(entries[k]) && !buildSucceeds(entries[k])
      && r.outcome.built == Filter(entries[..k], hasSlides)
      && (forall i :: 0 <= i < |r.outcome.built| ==> buildSucceeds(r.outcome.built[i]))
      && Probed(r.effects) == entries[..k + 1]
      && Attempted(r.effects) == r.outcome.built + [entries[k]]
      && Written(r.effects) == []
      && BuildsFollowTemplate(r.effects, buildSucceeds, root)
  {
    k := AbortedRunShape(entries, hasSlides, buildSucceeds, root);
    var q := Scan(entries[..k], hasSlides, buildSucceeds, root);
    ScanKeepsDecksWithSlides(entries[..k], hasSlides, buildSucceeds, root);
    ScanTrace(entries[..k], hasSlides, buildSucceeds, root);
    ScanBuildsSucceeded(entries[..k], hasSlides, buildSucceeds, root);
    AbortedTrace(q, entries[k], hasSlides, buildSucceeds, root);
    PrefixNext(entries, k);
  }

  /** The trace readings of a run that stops at deck `d`, for any loop
      state before it. */
  lemma AbortedTrace(q: Progress, d: string, hasSlides: string -> bool, buildSucceeds: string -> bool,
                     root: string)
    requires hasSlides(d)
    requires Written(q.effects) == [] && BuildsFollowTemplate(q.effects, buildSucceeds, root)
    ensures var effects := Setup + q.effects + StepEffects(d, hasSlides, buildSucceeds, root);
      && Probed(effects) == Probed(q.effects) + [d]
      && Attempted(effects) == Attempted(q.effects) + [d]
      && Written(effects) == []
      && BuildsFollowTemplate(effects, buildSucceeds, root)
  {
    var step := StepEffects(d, hasSlides, buildSucceeds, root);
    StepTrace(d, hasSlides, buildSucceeds, root);
    SetupTrace(buildSucceeds, root);
    TraceAppend(Setup, q.effects, buildSucceeds, root);
    TraceAppend(Setup + q.effects, step, buildSucceeds, root);
  }

  /** An aborted run is the setup, the loop up to some entry `k` without a
      failure, and the probe and failing build of entry `k`. */
  lemma AbortedRunShape(entries: seq<string>, hasSlides: string -> bool, buildSucceeds: string -> bool,
                        root: string) returns (k: nat)
    requires Run(entries, hasSlides, buildSucceeds, root).outcome.Aborted?
    ensures k < |entries| && hasSlides(entries[k]) && !buildSucceeds(entries[k])
    ensures Scan(entries[..k], hasSlides, buildSucceeds, root).failed.None?
    ensures Run(entries, hasSlides, buildSucceeds, root).effects
         == Setup + Scan(entries[..k], hasSlides, buildSucceeds, root).effects
            + StepEffects(entries[k], hasSlides, buildSucceeds, root)
    ensures Run(entries, hasSlides, buildSucceeds, root).outcome
         == Aborted(Scan(entries[..k], hasSlides, buildSucceeds, root).valid, entries[k])
  {
    k := ScanFailure(entries, hasSlides, buildSucceeds, root);
    var q := Scan(entries[..k], hasSlides, buildSucceeds, root);
    assert (q.valid + [entries[k]])[..|q.valid|] == q.valid;
  }

  /** The trace readings of two traces run one after the other. */
  lemma TraceAppend(a: seq<Effect>, b: seq<Effect>, buildSucceeds: string -> bool, root: string)
    ensures Probed(a + b) == Probed(a) + Probed(b)
    ensures Attempted(a + b) == Attempted(a) + Attempted(b)
    ensures Written(a + b) == Written(a) + Written(b)
    ensures BuildsFollowTemplate(a, buildSucceeds, root) && BuildsFollowTemplate(b, buildSucceeds, root)
        ==> BuildsFollowTemplate(a + b, buildSucceeds, root)
  {
    PickAppend(a, b, ProbedDeck);
    PickAppend(a, b, BuiltDeck);
    PickAppend(a, b, WrittenIndex);
    if BuildsFollowTemplate(a, buildSucceeds, root) && BuildsFollowTemplate(b, buildSucceeds, root) {
      BuildsFollowTemplateAppend(a, b, buildSucceeds, root);
    }
  }

  /** A run completes exactly when every deck with slides builds. */
  lemma {:induction false} RunCompletesIff(entries: seq<string>, hasSlides: string -> bool, buildSucceeds: string -> bool,
                        root: string)
    ensures Run(entries, hasSlides, buildSucceeds, root).outcome.Completed?
        <==> forall n :: n in Filter(entries, hasSlides) ==> buildSucceeds(n)
  {
    var r := Run(entries, hasSlides, buildSucceeds, root);
    if r.outcome.Completed? {
      ScanKeepsDecksWithSlides(entries, hasSlides, buildSucceeds, root);
      ScanBuildsSucceeded(entries, hasSlides, buildSucceeds, root);
    } else {
      var k := RunAborted(entries, hasSlides, buildSucceeds, root);
      FilterKeepsExactly(entries, hasSlides);
      assert entries[k] in Filter(entries, hasSlides);
    }
  }

  // ---------------------------------------------------------------------
  // The output directory the trace leaves behind.
  // ---------------------------------------------------------------------

  /** The top level of `dist`: the deck directories and the index page. */
  datatype Dist = Dist(decks: set<string>, index: Option<string>)

  /** The effect of one interaction on `dist`. A successful build is taken
      to write `dist/<deck>`, which is what its `--out` word says for deck
      names `sh` leaves whole (see `IsPlainName`). A build that fails is
      taken to leave no deck directory behind. */
  function Apply(d: Dist, e: Effect): Dist
  {
    match e
    case ResetDist => Dist({}, None)
    case Build(deck, _, succeeded) => if succeeded then d.(decks := d.decks + {deck}) else d
    case WriteIndex(html) => d.(index := Some(html))
    case _ => d
  }

  function Replay(d: Dist, effects: seq<Effect>): Dist
    decreases |effects|
  {
    if effects == [] then d else Replay(Apply(d, effects[0]), effects[1..])
  }

  lemma {:induction false} ReplayAppend(d: Dist, a: seq<Effect>, b: seq<Effect>)
    ensures Replay(d, a + b) == Replay(Replay(d, a), b)
    decreases |a|
  {
    if a == [] {
      assert a + b == b;
    } else {
      HeadOfAppend(a, b);
      ReplayAppend(Apply(d, a[0]), a[1..], b);
    }
  }

  lemma ReplayOne(d: Dist, e: Effect)
    ensures Replay(d, [e]) == Apply(d, e)
  {
    assert [e][1..] == [];
  }

  function AsSet(s: seq<string>): set<string> { set n | n in s }

  lemma {:induction false} ReplayScan(d: Dist, entries: seq<string>, hasSlides: string -> bool,
                                      buildSucceeds: string -> bool, root: string)
    requires Scan(entries, hasSlides, buildSucceeds, root).failed.None?
    ensures var p := Scan(entries, hasSlides, buildSucceeds, root);
      Replay(d, p.effects) == d.(decks := d.decks + AsSet(p.valid))
    decreases |entries|
  {
    if entries != [] {
      var init, last := entries[..|entries| - 1], entries[|entries| - 1];
      var q := Scan(init, hasSlides, buildSucceeds, root);
      var step := StepEffects(last, hasSlides, buildSucceeds, root);
      ReplayScan(d, init, hasSlides, buildSucceeds, root);
      ReplayAppend(d, q.effects, step);
      var mid := Replay(d, q.effects);
      var probe := ProbeSlides(last);
      ReplayOne(mid, probe);
      if hasSlides(last) {
        var build := Build(last, BuildCommand(root, last), true);
        assert step == [probe] + [build];
        ReplayAppend(mid, [probe], [build]);
        ReplayOne(mid, build);
        assert AsSet(q.valid + [last]) == AsSet(q.valid) + {last};
      } else {
        assert Replay(mid, step) == mid;
      }
    }
  }

  /** Whatever `dist` held before, after a run it holds exactly one
      directory per deck built, and the index page if and only if the run
      completed; the index then lists exactly those decks. */
  lemma DistAfterRun(prior: Dist, entries: seq<string>, hasSlides: string -> bool,
                     buildSucceeds: string -> bool, root: string)
    ensures var r := Run(entries, hasSlides, buildSucceeds, root);
      Replay(prior, r.effects) == match r.outcome
        case Completed(valid) => Dist(AsSet(valid), Some(IndexHtml(valid)))
        case Aborted(built, _) => Dist(AsSet(built), None)
  {
    var p := Scan(entries, hasSlides, buildSucceeds, root);
    if p.failed.None? {
      RunWithoutFailure(entries, hasSlides, buildSucceeds, root);
      ReplayScan(Dist({}, None), entries, hasSlides, buildSucceeds, root);
      ReplayCompleted(prior, p.effects, AsSet(p.valid), IndexHtml(p.valid));
    } else {
      var k := AbortedRunShape(entries, hasSlides, buildSucceeds, root);
      var q := Scan(entries[..k], hasSlides, buildSucceeds, root);
      ReplayScan(Dist({}, None), entries[..k], hasSlides, buildSucceeds, root);
      ReplayAborted(prior, q.effects, AsSet(q.valid), entries[k], BuildCommand(root, entries[k]));
    }
  }

  /** The setup empties `dist`, whatever it held. */
  lemma ReplaySetup(prior: Dist, body: seq<Effect>)
    ensures Replay(prior, Setup + body) == Replay(Dist({}, None), body)
  {
    ReplayAppend(prior, Setup, body);
    assert Setup[1..][1..] == [];
  }

  lemma ReplayCompleted(prior: Dist, body: seq<Effect>, decks: set<string>, html: string)
    requires Replay(Dist({}, None), body) == Dist(decks, None)
    ensures Replay(prior, Setup + body + [WriteIndex(html)]) == Dist(decks, Some(html))
  {
    ReplaySetup(prior, body);
    ReplayAppend(prior, Setup + body, [WriteIndex(html)]);
    ReplayOne(Dist(decks, None), WriteIndex(html));
  }

  lemma ReplayAborted(prior: Dist, body: seq<Effect>, decks: set<string>, deck: string, command: string)
    requires Replay(Dist({}, None), body) == Dist(decks, None)
    ensures Replay(prior, Setup + body + [ProbeSlides(deck), Build(deck, command, false)]) == Dist(decks, None)
  {
    var probe, build := ProbeSlides(deck), Build(deck, command, false);
    ReplaySetup(prior, body);
    ReplayAppend(prior, Setup + body, [probe, build]);
    assert [probe, build] == [probe] + [build];
    ReplayAppend(Dist(decks, None), [probe], [build]);
    ReplayOne(Dist(decks, None), probe);
    ReplayOne(Dist(decks, None), build);
  }

  /** Running the script again on unchanged input leaves the same `dist`. */
  lemma RerunLeavesSameDist(prior: Dist, entries: seq<string>, hasSlides: string -> bool,
                            buildSucceeds: string -> bool, root: string)
    ensures var effects := Run(entries, hasSlides, buildSucceeds, root).effects;
      Replay(Replay(prior, effects), effects) == Replay(prior, effects)
  {
    var once := Replay(prior, Run(entries, hasSlides, buildSucceeds, root).effects);
    DistAfterRun(prior, entries, hasSlides, buildSucceeds, root);
    DistAfterRun(once, entries, hasSlides, buildSucceeds, root);
  }
}
