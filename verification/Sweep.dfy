/** The benchmark sweep (`run_sections`): per section, artifacts older than the sweep are moved
    aside, the commands run, and the section is stamped if they all succeeded and left a fresh artifact. */
module Sweep {
  import opened Seqs

  /** Slack for coarse file timestamps, in seconds. */
  const TOLERANCE: int := 5

  /** Result files and their modification times. */
  type Files = map<string, int>

  /** A section's globs, as the set of paths they match. */
  datatype Section = Section(name: string, matches: string -> bool)

  /** What a command does to the result files, and its exit code. */
  datatype Command = Command(code: int, writes: Files, deletes: set<string>)

  /** What a section meets when it is reached: the time its commands start, and what they do. */
  datatype Env = Env(started: int, commands: seq<Command>)

  /** The state the sweep carries along: live files, quarantined ones, stamps and failures. */
  datatype State = State(files: Files, stale: set<string>, stamped: seq<(string, set<string>)>,
                         failures: seq<(string, int)>)

  // ---- one section ---------------------------------------------------------------------------

  predicate IsStale(files: Files, sec: Section, sweepStart: int, p: string) {
    p in files && sec.matches(p) && files[p] < sweepStart - TOLERANCE
  }

  function Stale(files: Files, sec: Section, sweepStart: int): set<string> {
    set p | p in files && IsStale(files, sec, sweepStart, p)
  }

  function Fresh(files: Files, sec: Section, started: int): set<string> {
    set p | p in files && sec.matches(p) && files[p] >= started - TOLERANCE
  }

  function AfterCommand(files: Files, c: Command): Files { files - c.deletes + c.writes }

  /** The files after the commands up to and including the first that fails. */
  function AfterCommands(files: Files, commands: seq<Command>): Files
    decreases |commands|
  {
    if commands == [] then files
    else if commands[0].code != 0 then AfterCommand(files, commands[0])
    else AfterCommands(AfterCommand(files, commands[0]), commands[1..])
  }

  /** The exit code of the first command that fails, or 0. */
  function FirstFailure(commands: seq<Command>): int {
    if commands == [] then 0 else if commands[0].code != 0 then commands[0].code else FirstFailure(commands[1..])
  }

  function Cleaned(st: State, sec: Section, sweepStart: int, clean: bool): State {
    var stale := if clean then Stale(st.files, sec, sweepStart) else {};
    st.(files := st.files - stale, stale := st.stale + stale)
  }

  function RunSection(st: State, sec: Section, env: Env, sweepStart: int, clean: bool): State {
    var cleaned := Cleaned(st, sec, sweepStart, clean);
    var files := AfterCommands(cleaned.files, env.commands);
    var code := FirstFailure(env.commands);
    var recent := Fresh(files, sec, env.started);
    if code != 0 then cleaned.(files := files, failures := st.failures + [(sec.name, code)])
    else if recent == {} then cleaned.(files := files, failures := st.failures + [(sec.name, -1)])
    else cleaned.(files := files, stamped := st.stamped + [(sec.name, recent)])
  }

  /** Whether the section that took `st` to `st'` failed. */
  predicate Failed(st: State, st': State) { |st'.failures| > |st.failures| }

  /** The sections in order; without `keepGoing` the first failure ends the sweep. */
  function RunAll(st: State, secs: seq<Section>, envs: seq<Env>, sweepStart: int, clean: bool, keepGoing: bool): State
    requires |envs| == |secs|
    decreases |secs|
  {
    if secs == [] then st
    else
      var st' := RunSection(st, secs[0], envs[0], sweepStart, clean);
      if Failed(st, st') && !keepGoing then st' else RunAll(st', secs[1..], envs[1..], sweepStart, clean, keepGoing)
  }

  function ExitCode(st: State): int { if st.failures == [] then 0 else 1 }

  // ---- when a section is stamped -----------------------------------------------------------------

  lemma {:induction false} FirstFailureIff(commands: seq<Command>)
    ensures FirstFailure(commands) == 0 <==> forall i :: 0 <= i < |commands| ==> commands[i].code == 0
  {
    if commands != [] {
      FirstFailureIff(commands[1..]);
      assert forall i :: 0 <= i < |commands| - 1 ==> commands[1..][i] == commands[i + 1];
    }
  }

  /** A section that is reached is stamped exactly when all its commands exit with 0 and some matching
      artifact is at least as new as its start, less the tolerance; otherwise it fails. */
  lemma {:induction false} StampedIff(st: State, sec: Section, env: Env, sweepStart: int, clean: bool)
    ensures var st' := RunSection(st, sec, env, sweepStart, clean);
            var ok := (forall i :: 0 <= i < |env.commands| ==> env.commands[i].code == 0)
                      && exists p :: p in st'.files && sec.matches(p) && st'.files[p] >= env.started - TOLERANCE;
            && (ok ==> |st'.stamped| == |st.stamped| + 1 && st'.stamped[|st.stamped|].0 == sec.name && !Failed(st, st'))
            && (!ok ==> st'.stamped == st.stamped && Failed(st, st'))
            && (ok ==> forall p :: p in st'.stamped[|st.stamped|].1 <==>
                         p in st'.files && sec.matches(p) && st'.files[p] >= env.started - TOLERANCE)
  {
    FirstFailureIff(env.commands);
    var files := AfterCommands(Cleaned(st, sec, sweepStart, clean).files, env.commands);
    var recent := Fresh(files, sec, env.started);
    assert recent != {} <==> exists p :: p in files && sec.matches(p) && files[p] >= env.started - TOLERANCE by {
      if recent != {} { var p :| p in recent; }
      if exists p :: p in files && sec.matches(p) && files[p] >= env.started - TOLERANCE {
        var p :| p in files && sec.matches(p) && files[p] >= env.started - TOLERANCE;
        assert p in recent;
      }
    }
  }

  lemma {:induction false} FirstFailureAt(files: Files, commands: seq<Command>, i: nat)
    requires i < |commands| && commands[i].code != 0 && forall j :: 0 <= j < i ==> commands[j].code == 0
    ensures FirstFailure(commands) == commands[i].code
    ensures AfterCommands(files, commands) == AfterCommands(files, commands[..i + 1])
    decreases |commands|
  {
    if i > 0 {
      assert commands[..i + 1][1..] == commands[1..][..i];
      FirstFailureAt(AfterCommand(files, commands[0]), commands[1..], i - 1);
    }
  }

  /** A section whose commands fail is recorded with the code of the first that does, and those after it do not run; one
      that leaves nothing fresh is recorded with -1. */
  lemma {:induction false} FailureCode(st: State, sec: Section, env: Env, sweepStart: int, clean: bool, i: nat)
    requires i <= |env.commands| && forall j :: 0 <= j < i ==> env.commands[j].code == 0
    requires i < |env.commands| ==> env.commands[i].code != 0
    requires Failed(st, RunSection(st, sec, env, sweepStart, clean))
    ensures var st' := RunSection(st, sec, env, sweepStart, clean);
            && st'.failures == st.failures + [(sec.name, if i < |env.commands| then env.commands[i].code else -1)]
            && (i < |env.commands| ==>
                  st'.files == RunSection(st, sec, env.(commands := env.commands[..i + 1]), sweepStart, clean).files)
  {
    FirstFailureIff(env.commands);
    if i < |env.commands| { FirstFailureAt(Cleaned(st, sec, sweepStart, clean).files, env.commands, i); }
  }

  function Names(stamped: seq<(string, set<string>)>): (r: seq<string>)
    ensures |r| == |stamped| && forall i :: 0 <= i < |r| ==> r[i] == stamped[i].0
  {
    seq(|stamped|, i requires 0 <= i < |stamped| => stamped[i].0)
  }

  function SectionNames(secs: seq<Section>): (r: seq<string>)
    ensures |r| == |secs| && forall i :: 0 <= i < |r| ==> r[i] == secs[i].name
  {
    seq(|secs|, i requires 0 <= i < |secs| => secs[i].name)
  }

  lemma {:induction false} StampedOrFailed(st: State, sec: Section, env: Env, sweepStart: int, clean: bool)
    ensures var st' := RunSection(st, sec, env, sweepStart, clean);
            if Failed(st, st') then st'.stamped == st.stamped && |st'.failures| == |st.failures| + 1
            else Names(st'.stamped) == Names(st.stamped) + [sec.name] && st'.failures == st.failures
  {}

  lemma {:induction false} SectionsAddUp(st: State, secs: seq<Section>, envs: seq<Env>, sweepStart: int, clean: bool,
                                         keepGoing: bool)
    requires |envs| == |secs|
    ensures var end := RunAll(st, secs, envs, sweepStart, clean, keepGoing);
            && |st.failures| <= |end.failures|
            && |end.stamped| + |end.failures| <= |st.stamped| + |st.failures| + |secs|
    decreases |secs|
  {
    if secs != [] {
      StampedOrFailed(st, secs[0], envs[0], sweepStart, clean);
      var st' := RunSection(st, secs[0], envs[0], sweepStart, clean);
      assert |Names(st'.stamped)| == |st'.stamped| && |Names(st.stamped)| == |st.stamped|;
      SectionsAddUp(st', secs[1..], envs[1..], sweepStart, clean, keepGoing);
    }
  }

  // ---- what cleaning touches -----------------------------------------------------------------------

  ghost predicate Untouched(commands: seq<Command>, p: string) {
    forall c :: c in commands ==> p !in c.deletes && p !in c.writes
  }

  lemma {:induction false} UntouchedStays(files: Files, commands: seq<Command>, p: string)
    requires Untouched(commands, p)
    ensures var files' := AfterCommands(files, commands);
            && (p in files' <==> p in files)
            && (p in files ==> files'[p] == files[p])
    decreases |commands|
  {
    if commands != [] && commands[0].code == 0 {
      UntouchedStays(AfterCommand(files, commands[0]), commands[1..], p);
    }
  }

  /** A file that no command touches is moved aside by a section exactly when the sweep cleans, the
      section's globs match it and it is older than the sweep's start, less the tolerance. */
  lemma {:induction false} SectionMoves(st: State, sec: Section, env: Env, sweepStart: int, clean: bool, p: string)
    requires Untouched(env.commands, p)
    ensures var st' := RunSection(st, sec, env, sweepStart, clean);
            var moved := clean && p in st.files && sec.matches(p) && st.files[p] < sweepStart - 5;
            && (p in st'.files <==> p in st.files && !moved)
            && (p in st'.files ==> st'.files[p] == st.files[p])
            && (p in st'.stale <==> p in st.stale || moved)
  {
    UntouchedStays(Cleaned(st, sec, sweepStart, clean).files, env.commands, p);
  }

  /** Over a whole sweep, a file that no command touches is moved aside only if some section's globs
      match it and it predates the sweep; when every section is reached it then always is. */
  lemma {:induction false} SweepMoves(st: State, secs: seq<Section>, envs: seq<Env>, sweepStart: int, clean: bool,
                                      keepGoing: bool, p: string)
    requires |envs| == |secs| && forall env :: env in envs ==> Untouched(env.commands, p)
    ensures var end := RunAll(st, secs, envs, sweepStart, clean, keepGoing);
            var predates := clean && p in st.files && st.files[p] < sweepStart - 5;
            var named := exists sec :: sec in secs && sec.matches(p);
            && (p in end.files ==> p in st.files && end.files[p] == st.files[p])
            && (p in st.files && !(predates && named) ==> p in end.files)
            && (p !in st.stale && !(predates && named) ==> p !in end.stale)
            && (keepGoing && predates && named ==> p !in end.files && p in end.stale)
            && (p in st.stale ==> p in end.stale)
    decreases |secs|
  {
    if secs != [] {
      var st' := RunSection(st, secs[0], envs[0], sweepStart, clean);
      SectionMoves(st, secs[0], envs[0], sweepStart, clean, p);
      if !Failed(st, st') || keepGoing {
        SweepMoves(st', secs[1..], envs[1..], sweepStart, clean, keepGoing, p);
        assert forall sec :: sec in secs <==> sec == secs[0] || sec in secs[1..];
      }
    }
  }

  /** A sweep exits with 0 exactly when every section was stamped, in order and once each,
      whatever the commands return or write. */
  lemma {:induction false} ExitZeroIffAllStamped(st: State, secs: seq<Section>, envs: seq<Env>, sweepStart: int,
                                                 clean: bool, keepGoing: bool)
    requires |envs| == |secs| && st.failures == []
    ensures var end := RunAll(st, secs, envs, sweepStart, clean, keepGoing);
            && (ExitCode(end) == 0 <==> Names(end.stamped) == Names(st.stamped) + SectionNames(secs))
            && (ExitCode(end) != 0 ==> ExitCode(end) == 1)
    decreases |secs|
  {
    if secs != [] {
      var st' := RunSection(st, secs[0], envs[0], sweepStart, clean);
      StampedOrFailed(st, secs[0], envs[0], sweepStart, clean);
      if Failed(st, st') {
        FailureIsSeen(st, secs, envs, sweepStart, clean, keepGoing);
      } else {
        ExitZeroIffAllStamped(st', secs[1..], envs[1..], sweepStart, clean, keepGoing);
        assert SectionNames(secs) == [secs[0].name] + SectionNames(secs[1..]);
        Regroup(Names(st.stamped), [secs[0].name], SectionNames(secs[1..]));
      }
    }
  }

  /** A sweep whose first section fails exits with 1 and has stamped fewer sections than it has. */
  lemma {:induction false} FailureIsSeen(st: State, secs: seq<Section>, envs: seq<Env>, sweepStart: int, clean: bool,
                                         keepGoing: bool)
    requires |envs| == |secs| && secs != [] && Failed(st, RunSection(st, secs[0], envs[0], sweepStart, clean))
    ensures var end := RunAll(st, secs, envs, sweepStart, clean, keepGoing);
            ExitCode(end) != 0 && |end.stamped| < |st.stamped| + |secs|
  {
    StampedOrFailed(st, secs[0], envs[0], sweepStart, clean);
    var st' := RunSection(st, secs[0], envs[0], sweepStart, clean);
    SectionsAddUp(st', secs[1..], envs[1..], sweepStart, clean, keepGoing);
  }

  // ---- nothing written during the sweep is moved aside -----------------------------------------------

  /** Commands write files with current times. */
  ghost predicate WritesNow(env: Env, sweepStart: int) {
    forall i, p :: 0 <= i < |env.commands| && p in env.commands[i].writes ==>
      env.commands[i].writes[p] >= sweepStart - TOLERANCE
  }

  /** The paths the commands of a section delete, and the files they write and do not delete again. */
  function Gone(commands: seq<Command>): set<string> {
    if commands == [] then {} else if commands[0].code != 0 then commands[0].deletes
    else commands[0].deletes + Gone(commands[1..])
  }

  function Written(commands: seq<Command>): Files {
    if commands == [] then map[]
    else if commands[0].code != 0 then commands[0].writes
    else commands[0].writes - Gone(commands[1..]) + Written(commands[1..])
  }

  lemma {:induction false} AfterCommandsAdds(files: Files, commands: seq<Command>)
    ensures AfterCommands(files, commands) == files - Gone(commands) + Written(commands)
    decreases |commands|
  {
    if commands != [] && commands[0].code == 0 {
      AfterCommandsAdds(AfterCommand(files, commands[0]), commands[1..]);
      Replaced(files, commands[0].deletes, commands[0].writes, Gone(commands[1..]), Written(commands[1..]));
    }
  }

  lemma {:induction false} Replaced(files: Files, d: set<string>, w: Files, d': set<string>, w': Files)
    ensures files - d + w - d' + w' == files - (d + d') + (w - d' + w')
  {
  }

  lemma {:induction false} WrittenNow(env: Env, sweepStart: int)
    requires WritesNow(env, sweepStart)
    ensures forall p :: p in Written(env.commands) ==> Written(env.commands)[p] >= sweepStart - TOLERANCE
    decreases |env.commands|
  {
    if env.commands != [] && env.commands[0].code == 0 {
      var rest := Env(env.started, env.commands[1..]);
      assert forall i :: 0 <= i < |rest.commands| ==> rest.commands[i] == env.commands[i + 1];
      WrittenNow(rest, sweepStart);
    }
  }

  /** Every file the sweep has written is live and recent. */
  ghost predicate Kept(st: State, mine: set<string>, sweepStart: int) {
    forall p :: p in mine ==> p in st.files && st.files[p] >= sweepStart - TOLERANCE
  }

  /** What of `mine` a section's commands leave, and what they add to it. */
  function MineAfter(mine: set<string>, env: Env): set<string> {
    mine - Gone(env.commands) + Written(env.commands).Keys
  }

  lemma {:induction false} SectionKeeps(st: State, mine: set<string>, sec: Section, env: Env, sweepStart: int,
                                        clean: bool)
    requires Kept(st, mine, sweepStart) && WritesNow(env, sweepStart)
    ensures Kept(RunSection(st, sec, env, sweepStart, clean), MineAfter(mine, env), sweepStart)
    ensures mine !! Cleaned(st, sec, sweepStart, clean).stale - st.stale
    ensures RunSection(st, sec, env, sweepStart, clean).stale == Cleaned(st, sec, sweepStart, clean).stale
  {
    WrittenNow(env, sweepStart);
    AfterCommandsAdds(Cleaned(st, sec, sweepStart, clean).files, env.commands);
  }

  /** The files written by the sections that are reached and not deleted by a later command. */
  function AllMine(mine: set<string>, st: State, secs: seq<Section>, envs: seq<Env>, sweepStart: int, clean: bool,
                   keepGoing: bool): set<string>
    requires |envs| == |secs|
    decreases |secs|
  {
    if secs == [] then mine
    else
      var st' := RunSection(st, secs[0], envs[0], sweepStart, clean);
      var mine' := MineAfter(mine, envs[0]);
      if Failed(st, st') && !keepGoing then mine'
      else AllMine(mine', st', secs[1..], envs[1..], sweepStart, clean, keepGoing)
  }

  /** Everything the sweep writes is still there at its end, unless a command deletes it: the sweep itself never moves
      it aside, even where sections' globs overlap. */
  lemma {:induction false} SweepKeepsItsArtifacts(st: State, mine: set<string>, secs: seq<Section>, envs: seq<Env>,
                                                  sweepStart: int, clean: bool, keepGoing: bool)
    requires |envs| == |secs| && Kept(st, mine, sweepStart)
    requires forall i :: 0 <= i < |envs| ==> WritesNow(envs[i], sweepStart)
    ensures Kept(RunAll(st, secs, envs, sweepStart, clean, keepGoing),
                 AllMine(mine, st, secs, envs, sweepStart, clean, keepGoing), sweepStart)
    decreases |secs|
  {
    if secs != [] {
      SectionKeeps(st, mine, secs[0], envs[0], sweepStart, clean);
      var st' := RunSection(st, secs[0], envs[0], sweepStart, clean);
      if !(Failed(st, st') && !keepGoing) {
        SweepKeepsItsArtifacts(st', MineAfter(mine, envs[0]), secs[1..], envs[1..], sweepStart, clean, keepGoing);
      }
    }
  }

  /** With cleaning on, a section is left with no matching file older than the sweep. */
  lemma {:induction false} SectionLeavesNoStale(st: State, sec: Section, env: Env, sweepStart: int)
    requires WritesNow(env, sweepStart)
    ensures Stale(RunSection(st, sec, env, sweepStart, true).files, sec, sweepStart) == {}
  {
    WrittenNow(env, sweepStart);
    AfterCommandsAdds(Cleaned(st, sec, sweepStart, true).files, env.commands);
  }

  // ---- what freshness does not show ------------------------------------------------------------------

  /** A section whose commands succeed without touching any matching artifact is stamped all the same
      exactly when a matching file from just before its start is within the tolerance. */
  lemma {:induction false} IdleSectionStampedIff(st: State, sec: Section, env: Env, sweepStart: int, clean: bool)
    requires forall i :: 0 <= i < |env.commands| ==> env.commands[i].code == 0
    requires forall p :: p in Written(env.commands) || p in Gone(env.commands) ==> !sec.matches(p)
    requires env.started >= sweepStart
    ensures |RunSection(st, sec, env, sweepStart, clean).stamped| > |st.stamped|
            <==> exists p :: p in st.files && sec.matches(p) && st.files[p] >= env.started - TOLERANCE
  {
    FirstFailureIff(env.commands);
    var cleaned := Cleaned(st, sec, sweepStart, clean);
    AfterCommandsAdds(cleaned.files, env.commands);
    var files := AfterCommands(cleaned.files, env.commands);
    var recent := Fresh(files, sec, env.started);
    if recent != {} {
      var p :| p in recent;
      assert p in st.files && st.files[p] == files[p];
    }
    if exists p :: p in st.files && sec.matches(p) && st.files[p] >= env.started - TOLERANCE {
      var p :| p in st.files && sec.matches(p) && st.files[p] >= env.started - TOLERANCE;
      assert p in recent;
    }
  }

  lemma {:induction false} TwoSections(st: State, a: Section, b: Section, ea: Env, eb: Env, sweepStart: int)
    requires !Failed(st, RunSection(st, a, ea, sweepStart, true))
    ensures RunAll(st, [a, b], [ea, eb], sweepStart, true, false)
            == RunSection(RunSection(st, a, ea, sweepStart, true), b, eb, sweepStart, true)
  {
    var secs, envs := [a, b], [ea, eb];
    var st' := RunSection(st, a, ea, sweepStart, true);
    assert secs[1..] == [b] && envs[1..] == [eb] && [b][1..] == [] && [eb][1..] == [];
    assert RunAll(st', [b], [eb], sweepStart, true, false) == RunSection(st', b, eb, sweepStart, true);
  }

  const NOTHING := State(map[], {}, [], [])

  /** What a section leaves that writes one file at time 100. */
  lemma {:induction false} FirstStamped(file: string, a: Section)
    requires a.matches(file)
    ensures var st := RunSection(NOTHING, a, Env(0, [Command(0, map[file := 100], {})]), 0, true);
            && !Failed(NOTHING, st) && st.failures == [] && Names(st.stamped) == [a.name]
            && file in st.files && st.files[file] == 100
  {
    var env := Env(0, [Command(0, map[file := 100], {})]);
    assert env.commands[1..] == [];
    AfterCommandsAdds(Cleaned(NOTHING, a, 0, true).files, env.commands);
    StampedIff(NOTHING, a, env, 0, true);
    StampedOrFailed(NOTHING, a, env, 0, true);
    assert Names(NOTHING.stamped) == [];
  }

  lemma {:induction false} IdleAfter(file: string, a: Section, b: Section)
    requires a.matches(file) && b.matches(file)
    ensures var envs := [Env(0, [Command(0, map[file := 100], {})]), Env(102, [Command(0, map[], {})])];
            var end := RunAll(NOTHING, [a, b], envs, 0, true, false);
            ExitCode(end) == 0 && Names(end.stamped) == [a.name, b.name]
  {
    var ea, eb := Env(0, [Command(0, map[file := 100], {})]), Env(102, [Command(0, map[], {})]);
    var st := RunSection(NOTHING, a, ea, 0, true);
    FirstStamped(file, a);
    IdleSecond(st, file, b, eb);
    TwoSections(NOTHING, a, b, ea, eb, 0);
  }

  lemma {:induction false} IdleSecond(st: State, file: string, b: Section, env: Env)
    requires b.matches(file) && file in st.files && st.files[file] == 100 && env == Env(102, [Command(0, map[], {})])
    ensures var st' := RunSection(st, b, env, 0, true);
            st'.failures == st.failures && Names(st'.stamped) == Names(st.stamped) + [b.name]
  {
    assert env.commands[1..] == [];
    IdleSectionStampedIff(st, b, env, 0, true);
    StampedOrFailed(st, b, env, 0, true);
  }

  /** The overlapping globs of the `filters` and `production` sections give such a case: an artifact
      that `filters` has just written gets the idle `production` section stamped. */
  lemma {:induction false} OverlapStampsIdleSection()
    ensures var file := "results/production_filters.json";
            var filters := Section("filters", p => p == file);
            var production := Section("production", p => p == file || p == "results/production_concurrent.json");
            var envs := [Env(0, [Command(0, map[file := 100], {})]), Env(102, [Command(0, map[], {})])];
            var end := RunAll(NOTHING, [filters, production], envs, 0, true, false);
            ExitCode(end) == 0 && Names(end.stamped) == ["filters", "production"]
  {
    var file := "results/production_filters.json";
    var filters := Section("filters", p => p == file);
    var production := Section("production", p => p == file || p == "results/production_concurrent.json");
    IdleAfter(file, filters, production);
  }

  /** Moving one stale file aside leaves the cleaning the rest of its work. */
  lemma {:induction false} OneMoved(st: State, sec: Section, sweepStart: int, p: string)
    requires p in Stale(st.files, sec, sweepStart)
    ensures var st' := st.(files := st.files - {p}, stale := st.stale + {p});
            && Stale(st'.files, sec, sweepStart) == Stale(st.files, sec, sweepStart) - {p}
            && |Stale(st'.files, sec, sweepStart)| == |Stale(st.files, sec, sweepStart)| - 1
            && Cleaned(st', sec, sweepStart, true) == Cleaned(st, sec, sweepStart, true)
  {
    var before := Stale(st.files, sec, sweepStart);
    var after := Stale(st.files - {p}, sec, sweepStart);
    assert after == before - {p};
    assert st.files - {p} - after == st.files - before;
    assert st.stale + {p} + after == st.stale + before;
  }

  lemma {:induction false} NoneStale(st: State, sec: Section, sweepStart: int)
    requires Stale(st.files, sec, sweepStart) == {}
    ensures Cleaned(st, sec, sweepStart, true) == st
  {
    assert st.files - {} == st.files && st.stale + {} == st.stale;
  }

  // ---- the sweep itself -----------------------------------------------------------------------------------

  class SweepRun {
    var files: Files
    var stale: set<string>
    var stamped: seq<(string, set<string>)>
    var failures: seq<(string, int)>

    ghost function Value(): State
      reads this
    {
      State(files, stale, stamped, failures)
    }

    constructor (files: Files)
      ensures Value() == State(files, {}, [], [])
    {
      this.files, stale, stamped, failures := files, {}, [], [];
    }

    /** Moves matching artifacts older than the sweep aside, and counts them. */
    method QuarantineStale(sec: Section, sweepStart: int) returns (moved: nat)
      modifies this
      ensures Value() == Cleaned(old(Value()), sec, sweepStart, true)
      ensures moved == |Stale(old(files), sec, sweepStart)|
    {
      ghost var was := Value();
      var todo := files.Keys;
      moved := 0;
      while todo != {}
        invariant Stale(files, sec, sweepStart) <= todo <= files.Keys
        invariant moved + |Stale(files, sec, sweepStart)| == |Stale(was.files, sec, sweepStart)|
        invariant Cleaned(Value(), sec, sweepStart, true) == Cleaned(was, sec, sweepStart, true)
        decreases todo
      {
        var p :| p in todo;
        todo := todo - {p};
        if IsStale(files, sec, sweepStart, p) {
          OneMoved(Value(), sec, sweepStart, p);
          files, stale, moved := files - {p}, stale + {p}, moved + 1;
        }
      }
      NoneStale(Value(), sec, sweepStart);
    }

    /** Runs the commands until one fails. */
    method RunCommands(commands: seq<Command>) returns (code: int)
      modifies this`files
      ensures files == AfterCommands(old(files), commands) && code == FirstFailure(commands)
    {
      for i := 0 to |commands|
        invariant AfterCommands(files, commands[i..]) == AfterCommands(old(files), commands)
        invariant FirstFailure(commands[i..]) == FirstFailure(commands)
      {
        assert commands[i..][0] == commands[i] && commands[i..][1..] == commands[i + 1..];
        files := AfterCommand(files, commands[i]);
        if commands[i].code != 0 { return commands[i].code; }
      }
      return 0;
    }

    method RunOne(sec: Section, env: Env, sweepStart: int, clean: bool) returns (failed: bool)
      modifies this
      ensures Value() == RunSection(old(Value()), sec, env, sweepStart, clean)
      ensures failed == Failed(old(Value()), Value())
    {
      if clean {
        var _ := QuarantineStale(sec, sweepStart);
      } else {
        assert files - {} == files && stale + {} == stale;
      }
      assert Value() == Cleaned(old(Value()), sec, sweepStart, clean);
      var code := RunCommands(env.commands);
      if code != 0 {
        failures := failures + [(sec.name, code)];
        return true;
      }
      var recent := Fresh(files, sec, env.started);
      if recent == {} {
        failures := failures + [(sec.name, -1)];
        return true;
      }
      stamped := stamped + [(sec.name, recent)];
      return false;
    }

    method RunSections(secs: seq<Section>, envs: seq<Env>, sweepStart: int, clean: bool, keepGoing: bool, dryRun: bool)
      returns (code: int)
      requires |envs| == |secs| && failures == []
      modifies this
      ensures Value() == if dryRun then old(Value()) else RunAll(old(Value()), secs, envs, sweepStart, clean, keepGoing)
      ensures code == ExitCode(Value())
    {
      if dryRun { return 0; }
      for i := 0 to |secs|
        invariant RunAll(Value(), secs[i..], envs[i..], sweepStart, clean, keepGoing)
               == RunAll(old(Value()), secs, envs, sweepStart, clean, keepGoing)
        invariant !keepGoing ==> failures == []
      {
        assert secs[i..][0] == secs[i] && secs[i..][1..] == secs[i + 1..];
        assert envs[i..][0] == envs[i] && envs[i..][1..] == envs[i + 1..];
        var failed := RunOne(secs[i], envs[i], sweepStart, clean);
        if failed && !keepGoing { return 1; }
      }
      if failures != [] { return 1; }
      return 0;
    }
  }
}
