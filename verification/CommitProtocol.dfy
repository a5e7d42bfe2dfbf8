/** Concurrent commits to the manifest: any number of writers load some version, derive the next manifest and
    create the file of the next version number, retrying on conflict, while vacuums delete version files. */
module CommitProtocol {
  import opened Seqs

  /** The empty table's manifest, and what each call makes of the manifest it has loaded: the next one, or nothing
      if it ends without writing. */
  datatype Setting<!S> = Setting(root: S, apply: (S, nat) -> Option<S>)

  // ---- the system ------------------------------------------------------------------------------------

  /** A version that was created at some time: its number, its manifest, the version it was derived from, and
      the call that created it. */
  datatype Version<S> = Version(number: nat, manifest: S, parent: nat, call: nat)

  /** All versions ever made, the version files that exist, and the versions that pending calls have loaded. */
  datatype System<S> = System(made: seq<Version<S>>, files: map<nat, nat>, bases: map<nat, nat>, finished: set<nat>)

  function Start<S>(g: Setting<S>): System<S> { System([Version(0, g.root, 0, 0)], map[], map[], {}) }

  /** Loading may return any version ever made, since loads go through caches. A vacuum deletes files it has
      listed, other than those its first pass kept and the last `retention` ones up to the head it loaded for
      its second pass. */
  datatype Step =
    | Load(call: nat, version: nat)
    | Put(call: nat)
    | Vacuum(retention: nat, kept: set<nat>, head: nat, listed: set<nat>)

  function TopOf<S>(made: seq<Version<S>>): nat {
    if made == [] then 0 else Max(TopOf(made[..|made| - 1]), made[|made| - 1].number)
  }

  /** The highest number ever used. */
  function Top<S>(s: System<S>): nat { TopOf(s.made) }

  function Deleted(e: Step): set<nat>
    requires e.Vacuum?
  {
    set v | v in e.listed && v !in e.kept && !(e.head < v + e.retention && v <= e.head)
  }

  function Next<S>(g: Setting<S>, s: System<S>, e: Step): System<S> {
    match e
    case Load(c, i) => if c in s.finished || i >= |s.made| then s else s.(bases := s.bases[c := i])
    case Put(c) => if c in s.finished || c !in s.bases then s else PutNext(g, s, c)
    case Vacuum(r, _, head, _) => if r == 0 || head > Top(s) then s else s.(files := s.files - Deleted(e))
  }

  /** Creating the file of the version after the base: it fails if that file exists. */
  function PutNext<S>(g: Setting<S>, s: System<S>, c: nat): System<S>
    requires c in s.bases
  {
    var b := s.bases[c];
    if b >= |s.made| then s
    else
      match g.apply(s.made[b].manifest, c)
      case Some(m) =>
        var n := s.made[b].number + 1;
        if n in s.files then s.(bases := s.bases - {c})
        else
          System(s.made + [Version(n, m, b, c)], s.files[n := |s.made|], s.bases - {c}, s.finished + {c})
      case None => s.(bases := s.bases - {c}, finished := s.finished + {c})
  }

  function Run<S>(g: Setting<S>, s: System<S>, steps: seq<Step>): System<S>
    decreases |steps|
  {
    if steps == [] then s else Next(g, Run(g, s, steps[..|steps| - 1]), steps[|steps| - 1])
  }

  lemma {:induction false} RunSnoc<S>(g: Setting<S>, s: System<S>, steps: seq<Step>, e: Step)
    ensures Run(g, s, steps + [e]) == Next(g, Run(g, s, steps), e)
  {
    assert (steps + [e])[..|steps + [e]| - 1] == steps;
  }

  lemma {:induction false} RunTwo<S>(g: Setting<S>, steps: seq<Step>, e: Step, f: Step)
    ensures Run(g, Start(g), steps + [e, f]) == Next(g, Next(g, Run(g, Start(g), steps), e), f)
  {
    assert steps + [e, f] == steps + [e] + [f];
    RunSnoc(g, Start(g), steps, e);
    RunSnoc(g, Start(g), steps + [e], f);
  }

  // ---- every version is the result of a serial execution ---------------------------------------------------

  ghost predicate Rooted<S>(made: seq<Version<S>>) { forall j :: 0 < j < |made| ==> made[j].parent < j }

  /** A version is what its call makes of its parent. */
  ghost predicate Derived<S>(g: Setting<S>, made: seq<Version<S>>, i: nat)
    requires 0 < i < |made|
  {
    var p := made[i].parent;
    && p < |made| && made[i].number == made[p].number + 1
    && g.apply(made[p].manifest, made[i].call) == Some(made[i].manifest)
  }

  ghost predicate Tree<S>(g: Setting<S>, made: seq<Version<S>>) {
    && made != [] && made[0] == Version(0, g.root, 0, 0) && Rooted(made)
    && forall i :: 0 < i < |made| ==> Derived(g, made, i)
  }

  /** No call makes two versions. */
  ghost predicate AtMostOnce<S>(s: System<S>) {
    && (forall i, j :: 0 < i < j < |s.made| ==> s.made[i].call != s.made[j].call)
    && (forall i :: 0 < i < |s.made| ==> s.made[i].call in s.finished)
  }

  /** File `v` is version `i`. */
  ghost predicate Holds<S>(made: seq<Version<S>>, v: nat, i: nat) { 0 < i < |made| && made[i].number == v }

  ghost predicate Linked<S>(s: System<S>) {
    && (forall v :: v in s.files ==> Holds(s.made, v, s.files[v]))
    && (forall c :: c in s.bases ==> s.bases[c] < |s.made| && c !in s.finished)
  }

  ghost predicate Inv<S>(g: Setting<S>, s: System<S>) { Tree(g, s.made) && AtMostOnce(s) && Linked(s) }

  lemma {:induction false} TreeSnoc<S>(g: Setting<S>, made: seq<Version<S>>, x: Version<S>)
    requires Tree(g, made) && x.parent < |made| && x.number == made[x.parent].number + 1
    requires g.apply(made[x.parent].manifest, x.call) == Some(x.manifest)
    ensures Tree(g, made + [x])
  {
    var more := made + [x];
    forall i | 0 < i < |more|
      ensures Derived(g, more, i)
    {
      if i < |made| { assert Derived(g, made, i); }
    }
  }

  lemma {:induction false} PutKeepsInv<S>(g: Setting<S>, s: System<S>, c: nat)
    requires Inv(g, s) && c in s.bases
    ensures Inv(g, PutNext(g, s, c))
  {
    var t := PutNext(g, s, c);
    if t.made != s.made {
      TreeSnoc(g, s.made, t.made[|s.made|]);
      forall v | v in t.files
        ensures Holds(t.made, v, t.files[v])
      {
        assert v in s.files ==> Holds(s.made, v, s.files[v]);
      }
    }
  }

  lemma {:induction false} RunKeepsInv<S>(g: Setting<S>, s: System<S>, steps: seq<Step>)
    requires Inv(g, s)
    ensures Inv(g, Run(g, s, steps))
    decreases |steps|
  {
    if steps != [] {
      var e, t := steps[|steps| - 1], Run(g, s, steps[..|steps| - 1]);
      RunKeepsInv(g, s, steps[..|steps| - 1]);
      if e.Put? && e.call in t.bases { PutKeepsInv(g, t, e.call); }
    }
  }

  /** The versions from the empty table to version `i`, each derived from the one before. */
  ghost function Line<S>(made: seq<Version<S>>, i: nat): seq<nat>
    requires i < |made| && Rooted(made)
  {
    if i == 0 then [0] else Line(made, made[i].parent) + [i]
  }

  ghost function History<S>(made: seq<Version<S>>, i: nat): seq<S>
    requires i < |made| && Rooted(made)
  {
    if i == 0 then [made[0].manifest] else History(made, made[i].parent) + [made[i].manifest]
  }

  ghost function Log<S>(made: seq<Version<S>>, i: nat): seq<nat>
    requires i < |made| && Rooted(made)
  {
    if i == 0 then [] else Log(made, made[i].parent) + [made[i].call]
  }

  lemma {:induction false} LineNumbers<S>(g: Setting<S>, made: seq<Version<S>>, i: nat)
    requires Tree(g, made) && i < |made|
    ensures |Line(made, i)| == made[i].number + 1 && Line(made, i)[made[i].number] == i
    ensures forall k :: 0 <= k <= made[i].number ==> Line(made, i)[k] <= i && made[Line(made, i)[k]].number == k
    decreases i
  {
    if i > 0 {
      assert Derived(g, made, i);
      LineNumbers(g, made, made[i].parent);
    }
  }

  lemma {:induction false} LineStays<S>(made: seq<Version<S>>, more: seq<Version<S>>, i: nat)
    requires i < |made| <= |more| && more[..|made|] == made && Rooted(more)
    ensures Rooted(made)
    ensures Line(more, i) == Line(made, i)
    decreases i
  {
    assert forall j :: 0 <= j < |made| ==> made[j] == more[j];
    if i > 0 { LineStays(made, more, made[i].parent); }
  }

  /** Version k + 1 of a history is what the k-th call of its log makes of version k. */
  ghost predicate Serial<S>(g: Setting<S>, history: seq<S>, log: seq<nat>) {
    && |history| == |log| + 1 && history[0] == g.root
    && forall k :: 0 <= k < |log| ==> g.apply(history[k], log[k]) == Some(history[k + 1])
  }

  ghost predicate Unrepeated(log: seq<nat>) { forall i, j :: 0 <= i < j < |log| ==> log[i] != log[j] }

  lemma {:induction false} LineIsSerial<S>(g: Setting<S>, s: System<S>, i: nat)
    requires Inv(g, s) && i < |s.made|
    ensures Serial(g, History(s.made, i), Log(s.made, i)) && Unrepeated(Log(s.made, i))
    ensures |Log(s.made, i)| == s.made[i].number && History(s.made, i)[s.made[i].number] == s.made[i].manifest
    ensures forall c :: c in Log(s.made, i) ==> exists j :: 0 < j <= i && s.made[j].call == c
    decreases i
  {
    if i > 0 {
      var p := s.made[i].parent;
      assert Derived(g, s.made, i);
      LineIsSerial(g, s, p);
      var h, log := History(s.made, p), Log(s.made, p);
      forall k | 0 <= k < |log| + 1
        ensures g.apply((h + [s.made[i].manifest])[k], (log + [s.made[i].call])[k])
                == Some((h + [s.made[i].manifest])[k + 1])
      {
        assert k < |log| ==> (log + [s.made[i].call])[k] == log[k];
      }
      assert s.made[i].call !in log;
    }
  }

  /** Whatever the writers load and however their steps and vacuums interleave, every version ever made, the
      newest among them, is the serial execution of the calls on its line, each taking effect once. */
  lemma {:induction false} RunIsSerial<S>(g: Setting<S>, steps: seq<Step>, i: nat)
    requires i < |Run(g, Start(g), steps).made|
    ensures var made := Run(g, Start(g), steps).made;
            && Tree(g, made)
            && Serial(g, History(made, i), Log(made, i)) && Unrepeated(Log(made, i))
            && History(made, i)[|Log(made, i)|] == made[i].manifest
  {
    RunKeepsInv(g, Start(g), steps);
    LineIsSerial(g, Run(g, Start(g), steps), i);
  }

  /** Calls one after the other, each loading the version before. */
  function Sequential(log: seq<nat>): seq<Step> {
    if log == [] then []
    else
      var n := |log| - 1;
      Sequential(log[..n]) + [Load(log[n], n), Put(log[n])]
  }

  ghost predicate Straight<S>(s: System<S>, history: seq<S>, log: seq<nat>) {
    && |s.made| == |history| == |log| + 1
    && (forall i :: 0 <= i <= |log| ==> s.made[i].number == i && s.made[i].manifest == history[i])
    && (forall i :: 0 < i <= |log| ==> s.made[i].parent == i - 1 && s.made[i].call == log[i - 1])
    && (forall v :: v in s.files ==> v <= |log|) && (forall c :: c in s.finished <==> c in log)
  }

  /** Every serial execution is a run. */
  lemma {:induction false} SerialIsRun<S>(g: Setting<S>, history: seq<S>, log: seq<nat>)
    requires Serial(g, history, log) && Unrepeated(log)
    ensures Straight(Run(g, Start(g), Sequential(log)), history, log)
    decreases |log|
  {
    if log != [] {
      var n := |log| - 1;
      SerialIsRun(g, history[..|log|], log[..n]);
      var s := Run(g, Start(g), Sequential(log[..n]));
      assert Run(g, Start(g), Sequential(log)) == Next(g, Next(g, s, Load(log[n], n)), Put(log[n])) by {
        RunTwo(g, Sequential(log[..n]), Load(log[n], n), Put(log[n]));
      }
      GoesStraight(g, s, history, log);
    }
  }

  lemma {:induction false} GoesStraight<S>(g: Setting<S>, s: System<S>, history: seq<S>, log: seq<nat>)
    requires log != [] && Serial(g, history, log) && Unrepeated(log)
    requires Straight(s, history[..|log|], log[..|log| - 1])
    ensures var n := |log| - 1; Straight(Next(g, Next(g, s, Load(log[n], n)), Put(log[n])), history, log)
  {
    var n := |log| - 1;
    var c := log[n];
    assert log == log[..n] + [c] && c !in log[..n];
    var u := Next(g, s, Load(c, n));
    assert c !in s.finished && u == s.(bases := s.bases[c := n]);
    assert g.apply(history[n], log[n]) == Some(history[n + 1]) && s.made[n].manifest == history[..|log|][n];
    var t := Next(g, u, Put(c));
    assert t.made == s.made + [Version(n + 1, history[n + 1], n, c)];
    assert forall i :: 0 <= i <= n ==> history[..|log|][i] == history[i];
    assert forall i :: 0 <= i < n ==> log[..n][i] == log[i];
  }

  // ---- the newest version -------------------------------------------------------------------------------------

  function NewestBelow(files: map<nat, nat>, v: nat): nat {
    if v == 0 || v in files then v else NewestBelow(files, v - 1)
  }

  /** The number of the newest version file, as a directory listing finds it; 0 if there is none. */
  function Newest<S>(s: System<S>): nat { NewestBelow(s.files, Top(s)) }

  function HeadOf<S>(s: System<S>): nat {
    if Newest(s) in s.files then s.files[Newest(s)] else 0
  }

  lemma {:induction false} NewestIs(files: map<nat, nat>, top: nat, v: nat)
    requires v <= top && (v == 0 || v in files) && forall u :: u in files && u <= top ==> u <= v
    ensures NewestBelow(files, top) == v
    decreases top
  {
    if v < top { NewestIs(files, top - 1, v); }
  }

  lemma {:induction false} NewestMeaning(files: map<nat, nat>, top: nat)
    ensures var v := NewestBelow(files, top);
            v <= top && (v == 0 || v in files) && forall u :: u in files && u <= top ==> u <= v
    decreases top
  {
    if top > 0 && top !in files { NewestMeaning(files, top - 1); }
  }

  lemma {:induction false} TopBounds<S>(made: seq<Version<S>>)
    ensures forall i :: 0 <= i < |made| ==> made[i].number <= TopOf(made)
    ensures made != [] ==> exists i :: 0 <= i < |made| && made[i].number == TopOf(made)
    decreases |made|
  {
    if made != [] {
      var front := made[..|made| - 1];
      TopBounds(front);
      assert forall i :: 0 <= i < |front| ==> front[i] == made[i];
      assert made[|made| - 1].number == TopOf(made) || TopOf(front) == TopOf(made);
      if front != [] && TopOf(front) == TopOf(made) {
        var i :| 0 <= i < |front| && front[i].number == TopOf(front);
        assert made[i].number == TopOf(made);
      }
    }
  }

  /** The line of the newest version: the history that readers see. */
  ghost function Main<S>(g: Setting<S>, s: System<S>): seq<nat>
    requires Inv(g, s)
  {
    HeadIsMade(g, s);
    Line(s.made, HeadOf(s))
  }

  lemma {:induction false} HeadIsMade<S>(g: Setting<S>, s: System<S>)
    requires Inv(g, s)
    ensures HeadOf(s) < |s.made| && s.made[HeadOf(s)].number == Newest(s)
  {
    NewestMeaning(s.files, Top(s));
  }

  /** The newest file has the highest number ever used, and no other version has that number. */
  ghost predicate Intact<S>(s: System<S>) {
    && (Top(s) > 0 ==> Top(s) in s.files)
    && forall i :: 0 <= i < |s.made| && s.made[i].number == Top(s) ==> i == HeadOf(s)
  }

  lemma {:induction false} IntactHead<S>(g: Setting<S>, s: System<S>)
    requires Inv(g, s) && Intact(s)
    ensures Newest(s) == Top(s)
  {
    TopBounds(s.made);
    NewestIs(s.files, Top(s), Top(s));
  }

  /** Making a version on top of the newest one extends the main line. */
  lemma {:induction false} MadeOnTop<S>(g: Setting<S>, s: System<S>, t: System<S>)
    requires Inv(g, s) && Intact(s) && Inv(g, t) && |t.made| == |s.made| + 1 && t.made[..|s.made|] == s.made
    requires t.made[|s.made|].parent == HeadOf(s) && t.files == s.files[t.made[|s.made|].number := |s.made|]
    ensures Intact(t) && Top(t) == Top(s) + 1 && Main(g, t) == Main(g, s) + [|s.made|]
  {
    var n := t.made[|s.made|].number;
    IntactHead(g, s);
    HeadIsMade(g, s);
    assert Derived(g, t.made, |s.made|);
    TopBounds(s.made);
    assert Top(t) == n == Top(s) + 1;
    assert forall i :: 0 <= i < |s.made| ==> t.made[i] == s.made[i];
    FilesBelowTop(g, s);
    NewestIs(t.files, Top(t), n);
    LineStays(s.made, t.made, HeadOf(s));
  }

  lemma {:induction false} FilesBelowTop<S>(g: Setting<S>, s: System<S>)
    requires Inv(g, s)
    ensures forall u :: u in s.files ==> 0 < u <= Top(s)
  {
    TopBounds(s.made);
    forall u | u in s.files
      ensures 0 < u <= Top(s)
    {
      assert Holds(s.made, u, s.files[u]) && Derived(g, s.made, s.files[u]);
    }
  }

  /** Making a version anywhere else leaves the main line alone. */
  lemma {:induction false} MadeAside<S>(g: Setting<S>, s: System<S>, t: System<S>)
    requires Inv(g, s) && Intact(s) && Inv(g, t) && |t.made| == |s.made| + 1 && t.made[..|s.made|] == s.made
    requires t.made[|s.made|].parent != HeadOf(s) && t.made[|s.made|].number !in s.files
    requires t.files == s.files[t.made[|s.made|].number := |s.made|]
    ensures Intact(t) && Top(t) == Top(s) && Main(g, t) == Main(g, s) && t.made[|s.made|].number < Top(s)
  {
    var n, p := t.made[|s.made|].number, t.made[|s.made|].parent;
    IntactHead(g, s);
    HeadIsMade(g, s);
    assert n < Top(s) by {
      assert Derived(g, t.made, |s.made|) && t.made[p] == s.made[p];
      TopBounds(s.made);
      assert n <= Top(s) && n != Top(s);
    }
    assert Top(t) == Top(s);
    assert Newest(t) == Top(s) by {
      FilesBelowTop(g, s);
      NewestIs(t.files, Top(t), Top(s));
    }
    assert HeadOf(t) == HeadOf(s) && Main(g, t) == Main(g, s) by { LineStays(s.made, t.made, HeadOf(s)); }
    assert Intact(t) by {
      assert forall i :: 0 <= i < |s.made| ==> t.made[i] == s.made[i];
    }
  }

  /** A write conflicts and leaves its call pending, extends the main line, or makes a version beside it, exactly
      according to its base. */
  lemma {:induction false} PutOnIntact<S>(g: Setting<S>, s: System<S>, c: nat)
    requires Inv(g, s) && Intact(s) && c in s.bases
    ensures var t := PutNext(g, s, c);
            var b := s.bases[c];
            && Inv(g, t) && Intact(t)
            && (t.made == s.made ==> Main(g, t) == Main(g, s) && Top(t) == Top(s))
            && (t.made != s.made && b == HeadOf(s) ==> Main(g, t) == Main(g, s) + [|s.made|] && Top(t) == Top(s) + 1)
            && (t.made != s.made && b != HeadOf(s) ==>
                  Main(g, t) == Main(g, s) && Top(t) == Top(s) && s.made[b].number + 1 < Top(s))
            && b < |s.made|
            && (g.apply(s.made[b].manifest, c).Some? && s.made[b].number + 1 !in s.files
                <==> t.made != s.made)
            && (g.apply(s.made[b].manifest, c).Some? && s.made[b].number + 1 in s.files
                <==> c !in t.finished)
  {
    PutKeepsInv(g, s, c);
    var t := PutNext(g, s, c);
    if t.made != s.made {
      assert t.made[..|s.made|] == s.made;
      if s.bases[c] == HeadOf(s) { MadeOnTop(g, s, t); } else { MadeAside(g, s, t); }
    }
  }

  // ---- what becomes of a call ---------------------------------------------------------------------------------------

  ghost predicate Wrote<S>(s: System<S>, c: nat) { exists i :: 0 < i < |s.made| && s.made[i].call == c }

  /** On some version the call would write nothing. */
  ghost predicate Declines<S>(g: Setting<S>, s: System<S>, c: nat) {
    exists i :: 0 <= i < |s.made| && g.apply(s.made[i].manifest, c) == None
  }

  lemma {:induction false} StepSettles<S>(g: Setting<S>, s: System<S>, e: Step, c: nat)
    requires Inv(g, s) && (c in s.finished ==> Wrote(s, c) || Declines(g, s, c))
    ensures c in Next(g, s, e).finished ==> Wrote(Next(g, s, e), c) || Declines(g, Next(g, s, e), c)
    ensures c in s.finished ==> c in Next(g, s, e).finished
  {
    var t := Next(g, s, e);
    assert forall i :: 0 <= i < |s.made| ==> t.made[i] == s.made[i];
    if c in t.finished && c !in s.finished {
      assert e == Put(c) && c in s.bases;
      if t.made != s.made { assert t.made[|s.made|].call == c; }
    }
  }

  /** Over every run, a call that has ended has made its one version, or has met a version on which it writes
      nothing; a conflict never ends a call. */
  lemma {:induction false} FinishedIsSettled<S>(g: Setting<S>, steps: seq<Step>, c: nat)
    ensures c in Run(g, Start(g), steps).finished ==>
              Wrote(Run(g, Start(g), steps), c) || Declines(g, Run(g, Start(g), steps), c)
    decreases |steps|
  {
    if steps != [] {
      var n := |steps| - 1;
      FinishedIsSettled(g, steps[..n], c);
      RunKeepsInv(g, Start(g), steps[..n]);
      StepSettles(g, Run(g, Start(g), steps[..n]), steps[n], c);
    }
  }

  /** The same call again, now on the newest version. */
  function Retried<S>(g: Setting<S>, s: System<S>, c: nat): System<S> {
    Next(g, Next(g, s, Load(c, HeadOf(s))), Put(c))
  }

  /** A write that meets an existing file changes nothing and leaves its call pending, to be tried again. */
  lemma {:induction false} ConflictLeavesPending<S>(g: Setting<S>, s: System<S>, c: nat)
    requires Inv(g, s) && c in s.bases && s.made[s.bases[c]].number + 1 in s.files
    requires g.apply(s.made[s.bases[c]].manifest, c).Some?
    ensures var t := Next(g, s, Put(c));
            && t.made == s.made && t.files == s.files && t.bases == s.bases - {c} && t.finished == s.finished
            && Inv(g, t) && c !in t.finished && HeadOf(t) == HeadOf(s) && (Intact(s) ==> Intact(t))
  {
    PutKeepsInv(g, s, c);
  }

  /** A pending call that loads the newest version and writes makes its version the newest one, on top of what was; if
      it has nothing to write there, it ends. */
  lemma {:induction false} RetryPublishes<S>(g: Setting<S>, s: System<S>, c: nat)
    requires Inv(g, s) && Intact(s) && c !in s.finished
    ensures var u, h := Retried(g, s, c), HeadOf(s);
            && h < |s.made| && Inv(g, u) && Intact(u) && u.finished == s.finished + {c} && u.bases == s.bases - {c}
            && match g.apply(s.made[h].manifest, c)
               case None => u.made == s.made && u.files == s.files
               case Some(m) =>
                 && u.made == s.made + [Version(Top(s) + 1, m, h, c)]
                 && HeadOf(u) == |s.made| && Main(g, u) == Main(g, s) + [|s.made|]
  {
    HeadIsMade(g, s);
    if g.apply(s.made[HeadOf(s)].manifest, c).Some? { RetryWrites(g, s, c); } else { RetryEnds(g, s, c); }
  }

  lemma {:induction false} RetryWrites<S>(g: Setting<S>, s: System<S>, c: nat)
    requires Inv(g, s) && Intact(s) && c !in s.finished
    requires HeadOf(s) < |s.made| && g.apply(s.made[HeadOf(s)].manifest, c).Some?
    ensures var u, h := Retried(g, s, c), HeadOf(s);
            && Inv(g, u) && Intact(u) && u.finished == s.finished + {c} && u.bases == s.bases - {c}
            && u.made == s.made + [Version(Top(s) + 1, g.apply(s.made[h].manifest, c).value, h, c)]
            && HeadOf(u) == |s.made| && Main(g, u) == Main(g, s) + [|s.made|]
  {
    var v := Loaded(g, s, c);
    PublishedSince(g, s, c, v);
    assert Retried(g, s, c) == PutNext(g, v, c);
  }

  lemma {:induction false} PublishedSince<S>(g: Setting<S>, s: System<S>, c: nat, v: System<S>)
    requires v == s.(bases := s.bases[c := HeadOf(s)]) && HeadOf(v) < |v.made|
    requires Inv(g, s) && Inv(g, v) && Intact(v)
    requires HeadOf(v) == HeadOf(s) && Main(g, v) == Main(g, s) && Top(v) == Top(s)
    requires g.apply(s.made[HeadOf(s)].manifest, c).Some?
    ensures var u, h := PutNext(g, v, c), HeadOf(s);
            && Inv(g, u) && Intact(u) && u.finished == s.finished + {c} && u.bases == s.bases - {c}
            && u.made == s.made + [Version(Top(s) + 1, g.apply(s.made[h].manifest, c).value, h, c)]
            && HeadOf(u) == |s.made| && Main(g, u) == Main(g, s) + [|s.made|]
  {
    assert v.bases - {c} == s.bases - {c};
    PublishedFrom(g, v, c);
  }

  lemma {:induction false} PublishedFrom<S>(g: Setting<S>, v: System<S>, c: nat)
    requires Inv(g, v) && Intact(v) && HeadOf(v) < |v.made| && c in v.bases && v.bases[c] == HeadOf(v)
    requires g.apply(v.made[HeadOf(v)].manifest, c).Some?
    ensures var u, h := PutNext(g, v, c), HeadOf(v);
            && Inv(g, u) && Intact(u) && u.finished == v.finished + {c} && u.bases == v.bases - {c}
            && u.made == v.made + [Version(Top(v) + 1, g.apply(v.made[h].manifest, c).value, h, c)]
            && HeadOf(u) == |v.made| && Main(g, u) == Main(g, v) + [|v.made|]
  {
    IntactHead(g, v);
    FilesBelowTop(g, v);
    PublishedOnTop(g, v, c);
  }

  lemma {:induction false} RetryEnds<S>(g: Setting<S>, s: System<S>, c: nat)
    requires Inv(g, s) && Intact(s) && c !in s.finished
    requires HeadOf(s) < |s.made| && g.apply(s.made[HeadOf(s)].manifest, c).None?
    ensures var u := Retried(g, s, c);
            && Inv(g, u) && Intact(u) && u.finished == s.finished + {c} && u.bases == s.bases - {c}
            && u.made == s.made && u.files == s.files
  {
    var v := Loaded(g, s, c);
    assert v.bases - {c} == s.bases - {c};
    PutOnIntact(g, v, c);
  }

  lemma {:induction false} Loaded<S>(g: Setting<S>, s: System<S>, c: nat) returns (v: System<S>)
    requires Inv(g, s) && Intact(s) && c !in s.finished && HeadOf(s) < |s.made|
    ensures v == Next(g, s, Load(c, HeadOf(s))) && v == s.(bases := s.bases[c := HeadOf(s)])
    ensures Inv(g, v) && Intact(v) && HeadOf(v) == HeadOf(s) && Main(g, v) == Main(g, s) && Top(v) == Top(s)
  {
    v := s.(bases := s.bases[c := HeadOf(s)]);
  }

  lemma {:induction false} PublishedOnTop<S>(g: Setting<S>, s: System<S>, c: nat)
    requires Inv(g, s) && Intact(s) && c in s.bases && s.bases[c] == HeadOf(s) < |s.made|
    requires g.apply(s.made[HeadOf(s)].manifest, c).Some?
    requires Top(s) + 1 !in s.files && s.made[HeadOf(s)].number == Top(s)
    ensures var u := PutNext(g, s, c);
            && u.made == s.made + [Version(Top(s) + 1, g.apply(s.made[HeadOf(s)].manifest, c).value, HeadOf(s), c)]
            && Inv(g, u) && Intact(u) && HeadOf(u) == |s.made| && Main(g, u) == Main(g, s) + [|s.made|]
            && u.finished == s.finished + {c} && u.bases == s.bases - {c}
  {
    PutOnIntact(g, s, c);
    var u := PutNext(g, s, c);
    HeadIsMade(g, u);
    assert u.made[|s.made|].number == Top(u);
  }

  // ---- vacuums that see the newest version ------------------------------------------------------------------------

  /** The vacuum's second pass is against the newest version, or its first pass kept that, or it was not listed. */
  ghost predicate SeesNewest<S>(s: System<S>, e: Step) {
    e.Vacuum? && e.retention > 0 && e.head <= Top(s) && Top(s) > 0 ==>
      e.head == Top(s) || Top(s) in e.kept || Top(s) !in e.listed
  }

  /** A step keeps the history readers see, or extends it, if and only if it is not a vacuum that misses the
      newest version: such a vacuum deletes it. */
  lemma {:induction false} StepGrowsIff<S>(g: Setting<S>, s: System<S>, e: Step)
    requires Inv(g, s) && Intact(s)
    ensures Inv(g, Next(g, s, e))
    ensures Main(g, s) <= Main(g, Next(g, s, e)) <==> SeesNewest(s, e)
    ensures SeesNewest(s, e) ==> Intact(Next(g, s, e))
  {
    var t := Next(g, s, e);
    if e.Put? && e.call in s.bases && e.call !in s.finished { PutOnIntact(g, s, e.call); }
    if e.Load? { assert t.made == s.made && t.files == s.files; }
    if e.Vacuum? { VacuumGrowsIff(g, s, e); }
  }

  lemma {:induction false} VacuumGrowsIff<S>(g: Setting<S>, s: System<S>, e: Step)
    requires Inv(g, s) && Intact(s) && e.Vacuum?
    ensures Inv(g, Next(g, s, e))
    ensures Main(g, s) <= Main(g, Next(g, s, e)) <==> SeesNewest(s, e)
    ensures SeesNewest(s, e) ==> Intact(Next(g, s, e))
  {
    var t := Next(g, s, e);
    IntactHead(g, s);
    FilesBelowTop(g, s);
    if SeesNewest(s, e) {
      NewestIs(t.files, Top(s), Top(s));
    } else {
      assert Top(s) !in t.files;
      assert Newest(t) < Top(s) by { NewestMeaning(t.files, Top(s)); }
      HeadIsMade(g, s);
      HeadIsMade(g, t);
      LineNumbers(g, s.made, HeadOf(s));
      LineNumbers(g, s.made, HeadOf(t));
    }
  }

  /** The system after the first `k` steps of a run, and the history that readers then see. */
  function At<S>(g: Setting<S>, steps: seq<Step>, k: nat): System<S>
    requires k <= |steps|
  {
    Run(g, Start(g), steps[..k])
  }

  ghost function Seen<S>(g: Setting<S>, steps: seq<Step>, k: nat): seq<nat>
    requires k <= |steps|
  {
    RunKeepsInv(g, Start(g), steps[..k]);
    Main(g, At(g, steps, k))
  }

  ghost predicate SeesAt<S>(g: Setting<S>, steps: seq<Step>, k: nat)
    requires k < |steps|
  {
    SeesNewest(At(g, steps, k), steps[k])
  }

  ghost predicate GrowsAt<S>(g: Setting<S>, steps: seq<Step>, k: nat)
    requires k < |steps|
  {
    Seen(g, steps, k) <= Seen(g, steps, k + 1)
  }

  ghost predicate AllSeeNewest<S>(g: Setting<S>, steps: seq<Step>) {
    forall k :: 0 <= k < |steps| ==> SeesAt(g, steps, k)
  }

  ghost predicate Grows<S>(g: Setting<S>, steps: seq<Step>) {
    forall k :: 0 <= k < |steps| ==> GrowsAt(g, steps, k)
  }

  lemma {:induction false} StartIntact<S>(g: Setting<S>)
    ensures Inv(g, Start(g)) && Intact(Start(g)) && Top(Start(g)) == 0 && Main(g, Start(g)) == [0]
  {
    var made := Start(g).made;
    assert made[..0] == [] && TopOf(made) == Max(TopOf(made[..0]), 0);
  }

  lemma {:induction false} AtStep<S>(g: Setting<S>, steps: seq<Step>, k: nat)
    requires k < |steps|
    ensures At(g, steps, k + 1) == Next(g, At(g, steps, k), steps[k])
  {
    assert steps[..k + 1] == steps[..k] + [steps[k]];
    RunSnoc(g, Start(g), steps[..k], steps[k]);
  }

  lemma {:induction false} IntactWhileGrowing<S>(g: Setting<S>, steps: seq<Step>, k: nat)
    requires k <= |steps| && forall j :: 0 <= j < k ==> GrowsAt(g, steps, j) || SeesAt(g, steps, j)
    ensures Inv(g, At(g, steps, k)) && Intact(At(g, steps, k))
    decreases k
  {
    if k == 0 {
      StartIntact(g);
    } else {
      IntactWhileGrowing(g, steps, k - 1);
      GrowsWhereSeen(g, steps, k - 1);
    }
  }

  lemma {:induction false} GrowsWhereSeen<S>(g: Setting<S>, steps: seq<Step>, k: nat)
    requires k < |steps| && Inv(g, At(g, steps, k)) && Intact(At(g, steps, k))
    ensures GrowsAt(g, steps, k) <==> SeesAt(g, steps, k)
    ensures SeesAt(g, steps, k) ==> Inv(g, At(g, steps, k + 1)) && Intact(At(g, steps, k + 1))
  {
    AtStep(g, steps, k);
    StepGrowsIff(g, At(g, steps, k), steps[k]);
  }

  /** Over a whole run, no step ever takes back a version that was the newest one, if and only if every vacuum
      sees the newest version of its moment. */
  lemma {:induction false} HistoryGrowsIff<S>(g: Setting<S>, steps: seq<Step>)
    ensures Grows(g, steps) <==> AllSeeNewest(g, steps)
  {
    if Grows(g, steps) || AllSeeNewest(g, steps) {
      forall k | 0 <= k < |steps|
        ensures GrowsAt(g, steps, k) <==> SeesAt(g, steps, k)
      {
        IntactWhileGrowing(g, steps, k);
        GrowsWhereSeen(g, steps, k);
      }
    }
  }

  lemma {:induction false} SeenLater<S>(g: Setting<S>, steps: seq<Step>, i: nat, j: nat)
    requires i <= j <= |steps| && AllSeeNewest(g, steps)
    ensures Seen(g, steps, i) <= Seen(g, steps, j)
    decreases j
  {
    HistoryGrowsIff(g, steps);
    if i < j {
      SeenLater(g, steps, i, j - 1);
      assert GrowsAt(g, steps, j - 1);
    }
  }

  // ---- a vacuum that misses the newest version ----------------------------------------------------------------------

  /** Every call writes, whatever it has loaded. */
  ghost predicate AlwaysWrites<S(!new)>(g: Setting<S>) { forall m: S, c: nat :: g.apply(m, c).Some? }

  /** A vacuum that misses the newest version loses it, though its call had reported success: the next writer to load
      what is left publishes the number after that, which is the lost number again if the version before it survived,
      and the lost version is not in the history. */
  lemma {:induction false} MissedVersionIsLost<S(!new)>(g: Setting<S>, s: System<S>, e: Step, c: nat)
    requires AlwaysWrites(g) && Inv(g, s) && Intact(s) && !SeesNewest(s, e) && c !in s.finished
    ensures var s1 := Next(g, s, e);
            var s2 := Next(g, Next(g, s1, Load(c, HeadOf(s1))), Put(c));
            && Inv(g, s2) && s.made[HeadOf(s)].call in s2.finished
            && HeadOf(s2) == |s.made| && HeadOf(s) !in Main(g, s2)
            && s2.made[|s.made|].number == Newest(s1) + 1 <= Top(s)
            && (s2.made[|s.made|].number == Top(s) <==> Top(s) == 1 || Top(s) - 1 in s1.files)
  {
    var s1 := Next(g, s, e);
    assert Inv(g, s1) && Newest(s1) < Top(s) && forall u :: u in s1.files ==> u <= Newest(s1) by {
      MissedIsGone(g, s, e);
    }
    NewestMeaning(s1.files, Top(s));
    MadeAgain(g, s, s1, c);
  }

  lemma {:induction false} MissedIsGone<S>(g: Setting<S>, s: System<S>, e: Step)
    requires Inv(g, s) && Intact(s) && !SeesNewest(s, e)
    ensures var s1 := Next(g, s, e);
            Inv(g, s1) && Newest(s1) < Top(s) && forall u :: u in s1.files ==> u <= Newest(s1)
  {
    var s1 := Next(g, s, e);
    StepGrowsIff(g, s, e);
    FilesBelowTop(g, s);
    NewestMeaning(s1.files, Top(s));
  }

  lemma {:induction false} MadeAgain<S(!new)>(g: Setting<S>, s: System<S>, s1: System<S>, c: nat)
    requires AlwaysWrites(g) && Inv(g, s) && Intact(s) && Inv(g, s1) && c !in s.finished && Top(s) > 0
    requires s1 == s.(files := s1.files) && Newest(s1) < Top(s) && forall u :: u in s1.files ==> u <= Newest(s1)
    ensures var s2 := Next(g, Next(g, s1, Load(c, HeadOf(s1))), Put(c));
            && Inv(g, s2) && s.made[HeadOf(s)].call in s2.finished
            && HeadOf(s2) == |s.made| && HeadOf(s) !in Main(g, s2) && s2.made[|s.made|].number == Newest(s1) + 1
  {
    HeadIsMade(g, s);
    IntactHead(g, s);
    var s2 := Next(g, Next(g, s1, Load(c, HeadOf(s1))), Put(c));
    WrittenAfterNewest(g, s1, c);
    assert HeadOf(s) > 0;
    assert s2.made[HeadOf(s)] == s.made[HeadOf(s)];
    NotOnLine(g, s2.made, |s.made|, HeadOf(s));
  }

  /** A call that loads the newest existing version and writes makes the newest one. */
  lemma {:induction false} WrittenAfterNewest<S(!new)>(g: Setting<S>, s: System<S>, c: nat)
    requires AlwaysWrites(g) && Inv(g, s) && c !in s.finished
    requires Newest(s) < Top(s) && forall u :: u in s.files ==> u <= Newest(s)
    ensures var t := Next(g, Next(g, s, Load(c, HeadOf(s))), Put(c));
            && Inv(g, t) && |t.made| == |s.made| + 1 && t.made[..|s.made|] == s.made && HeadOf(t) == |s.made|
            && t.made[|s.made|].number == Newest(s) + 1 && s.finished <= t.finished
  {
    HeadIsMade(g, s);
    var n, u := Newest(s) + 1, Next(g, s, Load(c, HeadOf(s)));
    var t := Next(g, u, Put(c));
    assert Inv(g, t) by { PutKeepsInv(g, u, c); }
    assert t.made[..|s.made|] == s.made && Top(t) == Top(s);
    assert Newest(t) == n by { NewestIs(t.files, Top(t), n); }
  }

  /** A line holds no version but its last with as high a number. */
  lemma {:induction false} NotOnLine<S>(g: Setting<S>, made: seq<Version<S>>, i: nat, j: nat)
    requires Tree(g, made) && i < |made| && j < |made| && j != i && made[j].number >= made[i].number
    ensures j !in Line(made, i)
  {
    LineNumbers(g, made, i);
    var line := Line(made, i);
    forall k | 0 <= k < |line|
      ensures line[k] != j
    {
      assert line[k] <= i && made[line[k]].number == k;
    }
  }

  // ---- when a lost version can return -----------------------------------------------------------------------------

  /** A load of the newest version there is, a write, or a vacuum that spares the newest version. */
  ghost predicate Current<S>(s: System<S>, e: Step) {
    match e
    case Load(_, i) => i == HeadOf(s)
    case Put(_) => true
    case Vacuum(_, _, _, _) => Newest(s) !in Deleted(e)
  }

  ghost predicate AllCurrent<S>(g: Setting<S>, s: System<S>, steps: seq<Step>) {
    forall k :: 0 <= k < |steps| ==> Current(Run(g, s, steps[..k]), steps[k])
  }

  /** Version `i` is neither in the history nor in that of a version that a pending call has loaded. */
  ghost predicate Away<S>(g: Setting<S>, s: System<S>, i: nat)
    requires Inv(g, s)
  {
    i !in Main(g, s) && forall c :: c in s.bases ==> i !in Line(s.made, s.bases[c])
  }

  /** Creating a file changes the newest version only to the new one. */
  lemma {:induction false} NewestOrNew<S>(g: Setting<S>, s: System<S>, t: System<S>)
    requires Inv(g, s) && Inv(g, t) && |t.made| == |s.made| + 1 && t.made[..|s.made|] == s.made
    requires t.made[|s.made|].number !in s.files && t.files == s.files[t.made[|s.made|].number := |s.made|]
    ensures HeadOf(t) == if t.made[|s.made|].number > Newest(s) then |s.made| else HeadOf(s)
    ensures HeadOf(s) < |s.made|
  {
    var n := t.made[|s.made|].number;
    HeadIsMade(g, s);
    FilesBelowTop(g, s);
    FilesBelowTop(g, t);
    NewestMeaning(s.files, Top(s));
    assert n in t.files && n > 0;
    NewestIs(t.files, Top(t), if n > Newest(s) then n else Newest(s));
  }

  lemma {:induction false} PutStaysAway<S>(g: Setting<S>, s: System<S>, c: nat, i: nat)
    requires Inv(g, s) && i < |s.made| && Away(g, s, i) && c in s.bases
    ensures Inv(g, PutNext(g, s, c)) && Away(g, PutNext(g, s, c), i)
  {
    PutKeepsInv(g, s, c);
    var t := PutNext(g, s, c);
    if t.made != s.made {
      assert t.made[..|s.made|] == s.made;
      NewestOrNew(g, s, t);
      LineStays(s.made, t.made, HeadOf(s));
      LineStays(s.made, t.made, s.bases[c]);
      forall d | d in t.bases
        ensures i !in Line(t.made, t.bases[d])
      {
        LineStays(s.made, t.made, s.bases[d]);
      }
    }
  }

  lemma {:induction false} StaysAway<S>(g: Setting<S>, s: System<S>, e: Step, i: nat)
    requires Inv(g, s) && i < |s.made| && Away(g, s, i) && Current(s, e)
    ensures Inv(g, Next(g, s, e)) && Away(g, Next(g, s, e), i) && |s.made| <= |Next(g, s, e).made|
  {
    match e
    case Load(c, _) => LoadStaysAway(g, s, c, i);
    case Put(c) => if c in s.bases && c !in s.finished { PutStaysAway(g, s, c, i); }
    case Vacuum(_, _, _, _) => SameNewest(g, s, Next(g, s, e));
  }

  lemma {:induction false} LoadStaysAway<S>(g: Setting<S>, s: System<S>, c: nat, i: nat)
    requires Inv(g, s) && Away(g, s, i)
    ensures var t := Next(g, s, Load(c, HeadOf(s))); Inv(g, t) && Away(g, t, i) && t.made == s.made
  {
    HeadIsMade(g, s);
  }

  lemma {:induction false} SameNewest<S>(g: Setting<S>, s: System<S>, t: System<S>)
    requires Inv(g, s) && t == s.(files := t.files)
    requires forall v :: v in t.files ==> v in s.files && t.files[v] == s.files[v]
    requires Newest(s) in s.files ==> Newest(s) in t.files
    ensures Inv(g, t) && HeadOf(t) == HeadOf(s) < |s.made| && Newest(t) == Newest(s)
  {
    HeadIsMade(g, s);
    NewestMeaning(s.files, Top(s));
    NewestIs(t.files, Top(t), Newest(s));
  }

  lemma {:induction false} RunStaysAway<S>(g: Setting<S>, s: System<S>, steps: seq<Step>, i: nat)
    requires Inv(g, s) && i < |s.made| && Away(g, s, i) && AllCurrent(g, s, steps)
    ensures Inv(g, Run(g, s, steps)) && Away(g, Run(g, s, steps), i) && i < |Run(g, s, steps).made|
    decreases |steps|
  {
    if steps != [] {
      var n := |steps| - 1;
      assert AllCurrent(g, s, steps[..n]) by {
        assert forall k :: 0 <= k <= n ==> steps[..n][..k] == steps[..k];
      }
      assert Current(Run(g, s, steps[..n]), steps[n]);
      RunStaysAway(g, s, steps[..n], i);
      StaysAway(g, Run(g, s, steps[..n]), steps[n], i);
    }
  }

  lemma {:induction false} PutReturns<S(!new)>(g: Setting<S>, s: System<S>, c: nat, i: nat)
    requires AlwaysWrites(g) && Inv(g, s) && i < |s.made| && s.made[i].number >= Newest(s)
    requires c in s.bases && i in Line(s.made, s.bases[c])
    ensures Inv(g, Run(g, s, [Put(c)])) && i in Main(g, Run(g, s, [Put(c)]))
  {
    var b, t := s.bases[c], PutNext(g, s, c);
    RunSnoc(g, s, [], Put(c));
    assert [] + [Put(c)] == [Put(c)] && Run(g, s, [Put(c)]) == t;
    PutKeepsInv(g, s, c);
    LineNumbers(g, s.made, b);
    FilesBelowTop(g, s);
    NewestMeaning(s.files, Top(s));
    assert s.made[b].number + 1 !in s.files;
    assert t.made[..|s.made|] == s.made;
    NewestOrNew(g, s, t);
    LineStays(s.made, t.made, b);
  }

  ghost predicate ReturnsBy<S>(g: Setting<S>, s: System<S>, steps: seq<Step>, i: nat)
    requires Inv(g, s)
  {
    RunKeepsInv(g, s, steps);
    AllCurrent(g, s, steps) && i in Main(g, Run(g, s, steps))
  }

  /** A version that is not in the history, and not older than what is, can return to it in a run whose loads and
      vacuums see the newest version if and only if a pending call has loaded it or a version made on top of it. */
  lemma {:induction false} ReturnsIff<S(!new)>(g: Setting<S>, s: System<S>, i: nat)
    requires AlwaysWrites(g) && Inv(g, s) && i < |s.made| && i !in Main(g, s) && s.made[i].number >= Newest(s)
    ensures (exists steps :: ReturnsBy(g, s, steps, i)) <==> exists c :: c in s.bases && i in Line(s.made, s.bases[c])
  {
    if exists c :: c in s.bases && i in Line(s.made, s.bases[c]) {
      var c :| c in s.bases && i in Line(s.made, s.bases[c]);
      PutReturns(g, s, c, i);
      assert ReturnsBy(g, s, [Put(c)], i);
    } else {
      forall steps | AllCurrent(g, s, steps)
        ensures !ReturnsBy(g, s, steps, i)
      {
        RunStaysAway(g, s, steps, i);
      }
    }
  }

  /** So the version that a vacuum has missed can return after the next write exactly when a pending call has loaded it
      or a version made on top of it. */
  lemma {:induction false} MissedVersionReturnsIff<S(!new)>(g: Setting<S>, s: System<S>, e: Step, c: nat)
    requires AlwaysWrites(g) && Inv(g, s) && Intact(s) && !SeesNewest(s, e) && c !in s.finished
    ensures var s1 := Next(g, s, e);
            var s2 := Next(g, Next(g, s1, Load(c, HeadOf(s1))), Put(c));
            && Inv(g, s2) && HeadOf(s) < |s2.made|
            && ((exists steps :: ReturnsBy(g, s2, steps, HeadOf(s)))
                <==> exists d :: d in s2.bases && HeadOf(s) in Line(s2.made, s2.bases[d]))
  {
    var s1 := Next(g, s, e);
    var s2 := Next(g, Next(g, s1, Load(c, HeadOf(s1))), Put(c));
    MissedVersionIsLost(g, s, e, c);
    MissedIsGone(g, s, e);
    WrittenAfterNewest(g, s1, c);
    HeadIsMade(g, s);
    IntactHead(g, s);
    HeadIsMade(g, s2);
    assert s2.made[HeadOf(s)] == s.made[HeadOf(s)];
    ReturnsIff(g, s2, HeadOf(s));
  }

  /** Such a run from the empty table: calls 1 and 2 publish versions 1 and 2, a vacuum whose head is a cached version 1
      deletes file 2, and call 3 publishes version 2 again. Call 2 is not in the history. */
  lemma {:induction false} StaleVacuumRun<S(!new)>(g: Setting<S>)
    requires AlwaysWrites(g)
    ensures var s := Run(g, Start(g), [Load(0, 0)] + Publishing(2));
            var e := Vacuum(1, {}, 1, {1, 2});
            var s1 := Next(g, s, e);
            var s2 := Next(g, Next(g, s1, Load(3, HeadOf(s1))), Put(3));
            && Inv(g, s2) && Newest(s) == 2 && !SeesNewest(s, e)
            && |s2.made| == 4 && s2.made[2].call == 2 && 2 in s2.finished && HeadOf(s2) == 3 && 2 !in Main(g, s2)
  {
    PublishingNumbers(g, 2);
    PublishingIntact(g, 2);
    SecondIsLost(g, Run(g, Start(g), [Load(0, 0)] + Publishing(2)));
  }

  lemma {:induction false} SecondIsLost<S(!new)>(g: Setting<S>, s: System<S>)
    requires AlwaysWrites(g) && Inv(g, s) && Intact(s) && Numbered(s, 2) && Top(s) == 2
    ensures var e := Vacuum(1, {}, 1, {1, 2});
            var s1 := Next(g, s, e);
            var s2 := Next(g, Next(g, s1, Load(3, HeadOf(s1))), Put(3));
            && Inv(g, s2) && Newest(s) == 2 && !SeesNewest(s, e)
            && |s2.made| == 4 && s2.made[2].call == 2 && 2 in s2.finished && HeadOf(s2) == 3 && 2 !in Main(g, s2)
  {
    IntactHead(g, s);
    assert HeadOf(s) == 2;
    MissedVersionIsLost(g, s, Vacuum(1, {}, 1, {1, 2}), 3);
  }

  lemma {:induction false} PublishingIntact<S>(g: Setting<S>, k: nat)
    ensures var s := Run(g, Start(g), [Load(0, 0)] + Publishing(k)); Inv(g, s) && Intact(s)
  {
    var steps := [Load(0, 0)] + Publishing(k);
    PublishingOnly(k);
    forall i | 0 <= i < |steps|
      ensures SeesAt(g, steps, i)
    {
      assert i > 0 ==> steps[i] == Publishing(k)[i - 1];
    }
    assert steps[..|steps|] == steps;
    IntactWhileGrowing(g, steps, |steps|);
  }

  // ---- how far behind a call must be to be lost ---------------------------------------------------------------------

  /** No vacuum of the run, whatever head it has loaded, deletes one of the last `r` versions of its moment. */
  ghost predicate KeepsLast<S>(g: Setting<S>, steps: seq<Step>, r: nat) {
    forall k :: 0 <= k < |steps| ==> KeepsAt(At(g, steps, k), steps[k], r)
  }

  ghost predicate KeepsAt<S>(s: System<S>, e: Step, r: nat) {
    e.Vacuum? && e.retention > 0 && e.head <= Top(s) ==> forall v :: v in s.files && v in Deleted(e) ==> v + r <= Top(s)
  }

  ghost predicate Recent<S>(s: System<S>, r: nat) {
    forall v :: 0 < v <= Top(s) && Top(s) < v + r ==> v in s.files
  }

  lemma {:induction false} KeepsRecent<S>(g: Setting<S>, steps: seq<Step>, r: nat, k: nat)
    requires r >= 1 && KeepsLast(g, steps, r) && k <= |steps|
    ensures Inv(g, At(g, steps, k)) && Intact(At(g, steps, k)) && Recent(At(g, steps, k), r)
    decreases k
  {
    if k == 0 {
      StartIntact(g);
    } else {
      var s, e := At(g, steps, k - 1), steps[k - 1];
      KeepsRecent(g, steps, r, k - 1);
      AtStep(g, steps, k - 1);
      assert KeepsAt(s, e, r);
      StepKeepsRecent(g, s, e, r);
    }
  }

  lemma {:induction false} StepKeepsRecent<S>(g: Setting<S>, s: System<S>, e: Step, r: nat)
    requires r >= 1 && Inv(g, s) && Intact(s) && Recent(s, r) && KeepsAt(s, e, r)
    ensures Inv(g, Next(g, s, e)) && Intact(Next(g, s, e)) && Recent(Next(g, s, e), r)
  {
    StepGrowsIff(g, s, e);
    if e.Put? && e.call in s.bases && e.call !in s.finished { PutKeepsRecent(g, s, e.call, r); }
  }

  lemma {:induction false} PutKeepsRecent<S>(g: Setting<S>, s: System<S>, c: nat, r: nat)
    requires Inv(g, s) && Intact(s) && Recent(s, r) && c in s.bases
    ensures Recent(PutNext(g, s, c), r)
  {
    var t := PutNext(g, s, c);
    assert Top(s) <= Top(t) && (Top(t) == Top(s) || (Top(t) == Top(s) + 1 && Top(t) in t.files)) by {
      PutOnIntact(g, s, c);
      IntactHead(g, s);
      HeadIsMade(g, s);
    }
    forall v | 0 < v <= Top(t) && Top(t) < v + r
      ensures v in t.files
    {
      assert v <= Top(s) ==> v in s.files;
    }
  }

  /** In a run whose vacuums keep the last `r` versions, a write that is reported but not in the history is more than
      `r` versions behind: at least that many were published between its base and its write. */
  lemma {:induction false} LostOnlyIfBehind<S>(g: Setting<S>, steps: seq<Step>, r: nat, c: nat)
    requires r >= 1 && KeepsLast(g, steps, r)
    requires var s := Run(g, Start(g), steps); c in s.bases && PutNext(g, s, c).made != s.made
    ensures var s := Run(g, Start(g), steps);
            var t := PutNext(g, s, c);
            && Inv(g, s) && Inv(g, t)
            && (|s.made| !in Main(g, t) ==> Newest(s) > s.made[s.bases[c]].number + r)
  {
    RunKeepsRecent(g, steps, r);
    var s := Run(g, Start(g), steps);
    IntactHead(g, s);
    PutOnIntact(g, s, c);
  }

  function Upto(k: nat): (r: set<nat>)
    ensures forall v :: v in r <==> 0 < v <= k
  {
    if k == 0 then {} else Upto(k - 1) + {k}
  }

  /** Publishing `k` versions on top of each other. */
  function Publishing(k: nat): seq<Step> {
    if k == 0 then [] else Publishing(k - 1) + [Load(k, k - 1), Put(k)]
  }

  ghost predicate Numbered<S>(s: System<S>, k: nat) {
    && |s.made| == k + 1 && (forall i :: 0 <= i <= k ==> s.made[i].number == i)
    && (forall i :: 0 < i <= k ==> s.made[i].call == i)
    && (forall v :: v in s.files <==> 0 < v <= k) && (forall v :: v in s.files ==> s.files[v] == v)
    && s.bases == map[0 := 0]
    && (forall c :: c in s.finished <==> 0 < c <= k)
  }

  lemma {:induction false} PublishingNumbers<S(!new)>(g: Setting<S>, k: nat)
    requires AlwaysWrites(g)
    ensures Numbered(Run(g, Start(g), [Load(0, 0)] + Publishing(k)), k)
    ensures Top(Run(g, Start(g), [Load(0, 0)] + Publishing(k))) == k
    decreases k
  {
    var steps := [Load(0, 0)] + Publishing(k);
    if k == 0 {
      NoneYet(g);
    } else {
      var front := [Load(0, 0)] + Publishing(k - 1);
      var s := Run(g, Start(g), front);
      assert Run(g, Start(g), steps) == Next(g, Next(g, s, Load(k, k - 1)), Put(k)) by {
        assert steps == front + [Load(k, k - 1), Put(k)];
        RunTwo(g, front, Load(k, k - 1), Put(k));
      }
      PublishingNumbers(g, k - 1);
      PublishOne(g, s, k);
    }
  }

  lemma {:induction false} NoneYet<S>(g: Setting<S>)
    ensures Numbered(Run(g, Start(g), [Load(0, 0)] + Publishing(0)), 0)
    ensures Top(Run(g, Start(g), [Load(0, 0)] + Publishing(0))) == 0
  {
    assert [Load(0, 0)] + Publishing(0) == [] + [Load(0, 0)];
    RunSnoc(g, Start(g), [], Load(0, 0));
    StartIntact(g);
  }

  lemma {:induction false} PublishOne<S(!new)>(g: Setting<S>, s: System<S>, k: nat)
    requires AlwaysWrites(g) && k > 0 && Numbered(s, k - 1) && Top(s) == k - 1
    ensures var t := Next(g, Next(g, s, Load(k, k - 1)), Put(k)); Numbered(t, k) && Top(t) == k
  {
    var u := Next(g, s, Load(k, k - 1));
    var t := Next(g, u, Put(k));
    assert u == s.(bases := s.bases[k := k - 1]);
    assert s.bases[k := k - 1] - {k} == map[0 := 0];
    assert t.made[..|s.made|] == s.made;
  }

  /** The bound is tight: for every `r` there is such a run in which a write exactly one more than `r` versions behind
      is reported and not in the history. */
  lemma {:induction false} BoundIsTight<S(!new)>(g: Setting<S>, r: nat)
    requires AlwaysWrites(g) && r >= 1
    ensures var steps := [Load(0, 0)] + Publishing(r + 1) + [Vacuum(r, {}, r + 1, Upto(r + 1))];
            var s := Run(g, Start(g), steps);
            && KeepsLast(g, steps, r) && Inv(g, s) && s.bases == map[0 := 0] && Newest(s) == r + 1
            && Inv(g, PutNext(g, s, 0)) && PutNext(g, s, 0).made != s.made && |s.made| !in Main(g, PutNext(g, s, 0))
  {
    TightRunKeeps(g, r);
    TightRunEnds(g, r);
    LostAtEnd(g, [Load(0, 0)] + Publishing(r + 1) + [Vacuum(r, {}, r + 1, Upto(r + 1))], r);
  }

  lemma {:induction false} TightRunEnds<S(!new)>(g: Setting<S>, r: nat)
    requires AlwaysWrites(g) && r >= 1
    ensures var s := Run(g, Start(g), [Load(0, 0)] + Publishing(r + 1) + [Vacuum(r, {}, r + 1, Upto(r + 1))]);
            s.bases == map[0 := 0] && Top(s) == r + 1 && 1 !in s.files
  {
    var front := [Load(0, 0)] + Publishing(r + 1);
    var s := Run(g, Start(g), front);
    assert Numbered(s, r + 1) && Top(s) == r + 1 by { PublishingNumbers(g, r + 1); }
    assert s.bases == map[0 := 0];
    VacuumedFirst(g, s, r);
    RunSnoc(g, Start(g), front, Vacuum(r, {}, r + 1, Upto(r + 1)));
  }

  lemma {:induction false} LostAtEnd<S(!new)>(g: Setting<S>, steps: seq<Step>, r: nat)
    requires AlwaysWrites(g) && r >= 1 && KeepsLast(g, steps, r)
    requires var s := Run(g, Start(g), steps); s.bases == map[0 := 0] && Top(s) == r + 1 && 1 !in s.files
    ensures var s := Run(g, Start(g), steps);
            && Inv(g, s) && Newest(s) == r + 1
            && Inv(g, PutNext(g, s, 0)) && PutNext(g, s, 0).made != s.made && |s.made| !in Main(g, PutNext(g, s, 0))
  {
    RunKeepsRecent(g, steps, r);
    LostOne(g, Run(g, Start(g), steps));
  }

  lemma {:induction false} RunKeepsRecent<S>(g: Setting<S>, steps: seq<Step>, r: nat)
    requires r >= 1 && KeepsLast(g, steps, r)
    ensures var s := Run(g, Start(g), steps); Inv(g, s) && Intact(s) && Recent(s, r)
  {
    assert steps[..|steps|] == steps;
    KeepsRecent(g, steps, r, |steps|);
  }

  lemma {:induction false} VacuumedFirst<S>(g: Setting<S>, s: System<S>, r: nat)
    requires r >= 1 && Numbered(s, r + 1) && Top(s) == r + 1
    ensures var t := Next(g, s, Vacuum(r, {}, r + 1, Upto(r + 1)));
            t.bases == s.bases && Top(t) == Top(s) && 1 !in t.files
  {
    assert 1 in Deleted(Vacuum(r, {}, r + 1, Upto(r + 1)));
  }

  lemma {:induction false} LostOne<S(!new)>(g: Setting<S>, s: System<S>)
    requires AlwaysWrites(g) && Inv(g, s) && Intact(s) && s.bases == map[0 := 0] && Top(s) > 1 && 1 !in s.files
    ensures Newest(s) == Top(s) && Inv(g, PutNext(g, s, 0))
    ensures PutNext(g, s, 0).made != s.made && |s.made| !in Main(g, PutNext(g, s, 0))
  {
    IntactHead(g, s);
    HeadIsMade(g, s);
    PutOnIntact(g, s, 0);
    LineNumbers(g, s.made, HeadOf(s));
  }

  lemma {:induction false} TightRunKeeps<S(!new)>(g: Setting<S>, r: nat)
    requires AlwaysWrites(g) && r >= 1
    ensures KeepsLast(g, [Load(0, 0)] + Publishing(r + 1) + [Vacuum(r, {}, r + 1, Upto(r + 1))], r)
  {
    var front := [Load(0, 0)] + Publishing(r + 1);
    var steps := front + [Vacuum(r, {}, r + 1, Upto(r + 1))];
    PublishingNumbers(g, r + 1);
    PublishingOnly(r + 1);
    forall k | 0 <= k < |steps|
      ensures KeepsAt(At(g, steps, k), steps[k], r)
    {
      if k == |front| { assert steps[..k] == front; } else { assert !front[k].Vacuum? && steps[k] == front[k]; }
    }
  }

  lemma {:induction false} PublishingOnly(k: nat)
    ensures forall i :: 0 <= i < |Publishing(k)| ==> !Publishing(k)[i].Vacuum?
  {
    if k > 0 { PublishingOnly(k - 1); }
  }

  ghost predicate AllOnMain<S>(g: Setting<S>, s: System<S>)
    requires Inv(g, s)
  {
    forall i :: 0 <= i < |s.made| ==> i in Main(g, s)
  }

  /** Without vacuums every version ever made is in the history. */
  lemma {:induction false} NoVacuumNothingLost<S>(g: Setting<S>, steps: seq<Step>, k: nat)
    requires k <= |steps| && forall i :: 0 <= i < |steps| ==> !steps[i].Vacuum?
    ensures var s := At(g, steps, k); Inv(g, s) && Intact(s) && Recent(s, Top(s) + 1) && AllOnMain(g, s)
    decreases k
  {
    if k == 0 {
      StartIntact(g);
    } else {
      NoVacuumNothingLost(g, steps, k - 1);
      AtStep(g, steps, k - 1);
      StepLosesNothing(g, At(g, steps, k - 1), steps[k - 1]);
    }
  }

  lemma {:induction false} StepLosesNothing<S>(g: Setting<S>, s: System<S>, e: Step)
    requires Inv(g, s) && Intact(s) && Recent(s, Top(s) + 1) && AllOnMain(g, s) && !e.Vacuum?
    ensures var t := Next(g, s, e); Inv(g, t) && Intact(t) && Recent(t, Top(t) + 1) && AllOnMain(g, t)
  {
    StepGrowsIff(g, s, e);
    if e.Put? && e.call in s.bases && e.call !in s.finished { PutLosesNothing(g, s, e.call); }
  }

  lemma {:induction false} PutLosesNothing<S>(g: Setting<S>, s: System<S>, c: nat)
    requires Inv(g, s) && Intact(s) && Recent(s, Top(s) + 1) && c in s.bases && AllOnMain(g, s)
    ensures var t := PutNext(g, s, c); Inv(g, t) && Recent(t, Top(t) + 1) && AllOnMain(g, t)
  {
    var t := PutNext(g, s, c);
    PutOnIntact(g, s, c);
    assert Recent(t, Top(t) + 1) by {
      PutKeepsRecent(g, s, c, Top(s) + 1);
      if Top(t) == Top(s) + 1 { PutKeepsRecent(g, s, c, Top(s) + 2); }
    }
    if t.made != s.made {
      assert s.bases[c] == HeadOf(s) by { FreeIsOnTop(g, s, c); }
      OneLonger(Main(g, s), Main(g, t), |s.made|);
    }
  }

  /** Where no file is missing, only the number after the newest is free. */
  lemma {:induction false} FreeIsOnTop<S>(g: Setting<S>, s: System<S>, c: nat)
    requires Inv(g, s) && Intact(s) && Recent(s, Top(s) + 1) && c in s.bases && PutNext(g, s, c).made != s.made
    ensures s.bases[c] == HeadOf(s)
  {
    var n := s.made[s.bases[c]].number + 1;
    TopBounds(s.made);
    assert n !in s.files;
  }

  lemma {:induction false} OneLonger(a: seq<nat>, b: seq<nat>, n: nat)
    requires b == a + [n] && forall i :: 0 <= i < n ==> i in a
    ensures forall i :: 0 <= i <= n ==> i in b
  {
    assert b[|a|] == n;
    forall i | 0 <= i < n
      ensures i in b
    {
      assert i in a;
    }
  }
}
