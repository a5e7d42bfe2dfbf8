/** The rows of a table under concurrent commits: appends, compactions, merges, row deletes, index attachments and
    index imports, each published onto whatever version is the newest by then. A row is visible if it is in a live
    file and no delete file of the snapshot drops it from that file. */
module TableRows {
  import opened Seqs
  import opened Snapshots
  import CP = CommitProtocol

  datatype Request = Commit(change: Change) | Import(entries: seq<Entry>)

  function Apply(l: Layout, limit: nat, base: Snapshot, q: Request): Outcome {
    match q
    case Commit(change) => Attempt(l, limit, base, change)
    case Import(es) => Write(Imported(l, base, es))
  }

  /** What a call was planned from: the files it reads, and the delete files it saw. An append has no inputs. */
  datatype Plan = Plan(inputs: set<string>, seen: set<string>)

  datatype Table = Table(layout: Layout, limit: nat, request: nat -> Request, plan: nat -> Plan)

  /** The commit protocol over manifest snapshots. */
  function Protocol(t: Table): CP.Setting<Snapshot> {
    CP.Setting(GENESIS, (m: Snapshot, c: nat) =>
      match Apply(t.layout, t.limit, m, t.request(c)) { case Write(next) => Some(next) case _ => None })
  }

  // ---- rows, files and delete files -----------------------------------------------------------------------

  /** The rows of every data file, and the rows that a delete file drops from a data file, by their paths. Files are
      never rewritten. */
  datatype Store = Store(rows: string -> set<int>, drops: (string, string) -> set<int>)

  ghost predicate Dropped(x: Store, deletes: set<string>, p: string, r: int) {
    exists d :: d in deletes && r in x.drops(d, p)
  }

  ghost predicate Visible(x: Store, deletes: set<string>, p: string, r: int) {
    r in x.rows(p) && !Dropped(x, deletes, p, r)
  }

  ghost predicate InSome(x: Store, paths: set<string>, r: int) { exists p :: p in paths && r in x.rows(p) }

  ghost predicate Shown(x: Store, live: set<string>, deletes: set<string>, r: int) {
    exists p :: p in live && Visible(x, deletes, p, r)
  }

  ghost predicate Apart(x: Store, paths: set<string>) {
    forall p, q :: p in paths && q in paths && p != q ==> x.rows(p) !! x.rows(q)
  }

  /** No row is visible in two live files. */
  ghost predicate ShownOnce(x: Store, live: set<string>, deletes: set<string>) {
    forall p, q, r :: p in live && q in live && Visible(x, deletes, p, r) && Visible(x, deletes, q, r) ==> p == q
  }

  /** Every row for which `was` holds is visible in exactly one of the files, and no other row is visible in any. */
  ghost predicate Once(x: Store, live: set<string>, deletes: set<string>, was: int -> bool) {
    ShownOnce(x, live, deletes) && forall r :: Shown(x, live, deletes, r) <==> was(r)
  }

  // ---- what a call does ---------------------------------------------------------------------------------------

  function Removes(q: Request): set<string> { if q.Commit? then set p | p in q.change.remove else {} }

  function Adds(q: Request): set<string> { if q.Commit? then Paths(q.change.add) else {} }

  /** The delete files that the added entries carry: new ones, and those their plan had attached to them. */
  function Carries(q: Request): set<string> { if q.Commit? then set d | d in q.change.deletes else {} }

  /** The files a call writes itself, as opposed to those it lists again with other index or delete files. */
  function NewFiles(q: Request, f: Plan): set<string> { Adds(q) - f.inputs }

  /** An input that a call lists again. */
  predicate Relists(q: Request, f: Plan, p: string) { p in f.inputs && p in Adds(q) }

  /** An input that a call takes away, its rows being in new files or dropped. */
  predicate Replaces(q: Request, f: Plan, p: string) { p in f.inputs && p !in Adds(q) }

  /** The row was visible in this input when the call was planned. */
  ghost predicate Planned(x: Store, f: Plan, p: string, r: int) { p in f.inputs && Visible(x, f.seen, p, r) }

  ghost predicate Copies(x: Store, q: Request, f: Plan, p: string, r: int) {
    Replaces(q, f, p) && Planned(x, f, p, r) && InSome(x, NewFiles(q, f), r)
  }

  /** The call means to drop this row of its input: by a delete file, or by leaving it out of the new files. */
  ghost predicate DropsFrom(x: Store, q: Request, f: Plan, p: string, r: int) {
    && Planned(x, f, p, r)
    && if p in Adds(q) then Dropped(x, Carries(q), p, r) else !InSome(x, NewFiles(q, f), r)
  }

  ghost predicate Drops(x: Store, q: Request, f: Plan, r: int) { exists p :: DropsFrom(x, q, f, p, r) }

  ghost predicate Brings(x: Store, q: Request, f: Plan, r: int) {
    InSome(x, NewFiles(q, f), r) && !InSome(x, f.inputs, r)
  }

  /** What a caller knows of its own call: it removes or lists again exactly its inputs; the files it adds do not
      overlap; of its inputs' rows it copies only visible ones, from files it replaces; and the delete files it
      carries drop none of the rows it writes, nor rows of its inputs from other files. */
  ghost predicate Consistent(x: Store, q: Request, f: Plan) {
    && Removes(q) <= f.inputs <= Removes(q) + Adds(q)
    && Apart(x, Adds(q)) && Apart(x, f.inputs)
    && (forall n, p, r :: n in NewFiles(q, f) && r in x.rows(n) && p in f.inputs && r in x.rows(p) ==>
          Replaces(q, f, p) && Planned(x, f, p, r))
    && (forall d, p, r :: d in Carries(q) && r in x.drops(d, p) ==>
          !InSome(x, NewFiles(q, f), r) && (p in f.inputs || !InSome(x, f.inputs, r)))
  }

  /** Different calls write different files and bring different rows. */
  ghost predicate Distinguished(t: Table, x: Store) {
    && (forall c: nat, d: nat :: c != d ==> NewFiles(t.request(c), t.plan(c)) !! NewFiles(t.request(d), t.plan(d)))
    && (forall c: nat, d: nat, r ::
          c != d && Brings(x, t.request(c), t.plan(c), r) ==> !Brings(x, t.request(d), t.plan(d), r))
  }

  ghost predicate Sane(t: Table, x: Store) {
    Sound(t.layout) && (forall c: nat :: Consistent(x, t.request(c), t.plan(c))) && Distinguished(t, x)
  }

  /** No delete file drops rows of a file that is published after it: a delete file names files its call has read, and a
      call's files can be read once its version is made, which it makes only once. */
  ghost predicate Causal(t: Table, x: Store, log: seq<nat>) {
    forall i, j, n :: 0 <= i < j < |log| && n in NewFiles(t.request(log[j]), t.plan(log[j])) ==>
      Spares(x, Carries(t.request(log[i])), n)
  }

  ghost predicate Spares(x: Store, deletes: set<string>, p: string) {
    forall r :: r in x.rows(p) ==> !Dropped(x, deletes, p, r)
  }

  /** The rows the table should hold after the calls of a log. */
  ghost predicate Holds(t: Table, x: Store, log: seq<nat>, r: int)
    decreases |log|
  {
    log != [] &&
      var c := log[|log| - 1];
      || (Holds(t, x, log[..|log| - 1], r) && !Drops(x, t.request(c), t.plan(c), r))
      || Brings(x, t.request(c), t.plan(c), r)
  }

  lemma {:induction false} HoldsSnoc(t: Table, x: Store, log: seq<nat>, c: nat, r: int)
    ensures Holds(t, x, log + [c], r)
       <==> (Holds(t, x, log, r) && !Drops(x, t.request(c), t.plan(c), r)) || Brings(x, t.request(c), t.plan(c), r)
  {
    assert (log + [c])[..|log + [c]| - 1] == log;
  }

  lemma {:induction false} HoldsBrought(t: Table, x: Store, log: seq<nat>, r: int)
    requires Holds(t, x, log, r)
    ensures exists k :: 0 <= k < |log| && Brings(x, t.request(log[k]), t.plan(log[k]), r)
    decreases |log|
  {
    var n := |log| - 1;
    if !Brings(x, t.request(log[n]), t.plan(log[n]), r) {
      HoldsBrought(t, x, log[..n], r);
      var k :| 0 <= k < n && Brings(x, t.request(log[..n][k]), t.plan(log[..n][k]), r);
      assert log[k] == log[..n][k];
    }
  }

  // ---- one call --------------------------------------------------------------------------------------------

  /** A live file that the call does not replace loses only rows that its plan meant. */
  ghost predicate LosesOnlyPlanned(x: Store, q: Request, f: Plan, live: set<string>, deletes: set<string>) {
    forall p, r :: p in live && !Replaces(q, f, p) && Visible(x, deletes, p, r) && Dropped(x, Carries(q), p, r) ==>
      Planned(x, f, p, r)
  }

  /** A live file that the call replaces shows no row that the plan did not see. */
  ghost predicate SeesAll(x: Store, q: Request, f: Plan, live: set<string>, deletes: set<string>) {
    forall p, r :: p in live && Replaces(q, f, p) && Visible(x, deletes, p, r) ==> Planned(x, f, p, r)
  }

  /** The rows the call copies are still visible where it copied them from. */
  ghost predicate CopiesVisible(x: Store, q: Request, f: Plan, live: set<string>, deletes: set<string>) {
    forall p, r :: Copies(x, q, f, p, r) ==> p in live && Visible(x, deletes, p, r)
  }

  /** A file that is no longer live and listed again shows nothing. */
  ghost predicate RevivesNothing(x: Store, q: Request, f: Plan, live: set<string>, deletes: set<string>) {
    forall p, r :: Relists(q, f, p) && p !in live && r in x.rows(p) ==> Dropped(x, deletes + Carries(q), p, r)
  }

  /** The rows the call means to drop are visible where it drops them, or nowhere. */
  ghost predicate DropsVisible(x: Store, q: Request, f: Plan, live: set<string>, deletes: set<string>, was: int -> bool)
  {
    forall p, r :: DropsFrom(x, q, f, p, r) && was(r) ==> p in live && Visible(x, deletes, p, r)
  }

  /** The call comes in time: what it was planned from still is what is there. */
  ghost predicate InTime(x: Store, q: Request, f: Plan, live: set<string>, deletes: set<string>, was: int -> bool) {
    && LosesOnlyPlanned(x, q, f, live, deletes) && SeesAll(x, q, f, live, deletes)
    && CopiesVisible(x, q, f, live, deletes) && RevivesNothing(x, q, f, live, deletes)
    && DropsVisible(x, q, f, live, deletes, was)
  }

  /** What is known when a call is published: every row is visible once; the new files show all their rows and no live
      file under the same path shows any; and the rows the call brings are new. */
  ghost predicate Publishes(x: Store, q: Request, f: Plan, live: set<string>, deletes: set<string>, was: int -> bool,
                            now: int -> bool) {
    && Consistent(x, q, f) && Once(x, live, deletes, was)
    && (forall n :: n in NewFiles(q, f) ==> Spares(x, deletes, n))
    && (forall n, r :: n in NewFiles(q, f) && n in live ==> !Visible(x, deletes, n, r))
    && (forall r :: Brings(x, q, f, r) ==> !was(r))
    && (forall r :: now(r) <==> (was(r) && !Drops(x, q, f, r)) || Brings(x, q, f, r))
  }

  function LiveAfter(q: Request, f: Plan, live: set<string>): set<string> { live - f.inputs + Adds(q) }

  lemma {:induction false} DroppedBoth(x: Store, a: set<string>, b: set<string>, p: string, r: int)
    ensures Dropped(x, a + b, p, r) <==> Dropped(x, a, p, r) || Dropped(x, b, p, r)
  {
  }

  /** The new files show exactly their rows. */
  lemma {:induction false} NewShows(x: Store, q: Request, f: Plan, live: set<string>, deletes: set<string>,
                                    was: int -> bool, now: int -> bool, n: string, r: int)
    requires Publishes(x, q, f, live, deletes, was, now) && n in NewFiles(q, f)
    ensures Visible(x, deletes + Carries(q), n, r) <==> r in x.rows(n)
  {
    DroppedBoth(x, deletes, Carries(q), n, r);
    assert r in x.rows(n) ==> InSome(x, NewFiles(q, f), r);
    assert Spares(x, deletes, n);
  }

  /** A row of an input is in no other input. */
  lemma {:induction false} OneInput(x: Store, q: Request, f: Plan, p: string, p': string, r: int)
    requires Consistent(x, q, f) && p in f.inputs && p' in f.inputs && r in x.rows(p) && r in x.rows(p')
    ensures p == p'
  {
  }

  /** A row that a call drops, or copies, is visible nowhere but in that input, if the call comes in time. */
  lemma {:induction false} DroppedThere(x: Store, q: Request, f: Plan, live: set<string>, deletes: set<string>,
                                        was: int -> bool, now: int -> bool, l: string, r: int)
    requires Publishes(x, q, f, live, deletes, was, now) && InTime(x, q, f, live, deletes, was)
    requires l in live && Visible(x, deletes, l, r) && Drops(x, q, f, r)
    ensures DropsFrom(x, q, f, l, r)
  {
    assert Shown(x, live, deletes, r);
    var p :| DropsFrom(x, q, f, p, r);
    assert p in live && Visible(x, deletes, p, r);
  }

  lemma {:induction false} CopiedFrom(x: Store, q: Request, f: Plan, n: string, r: int) returns (p: string)
    requires Consistent(x, q, f) && n in NewFiles(q, f) && r in x.rows(n) && !Brings(x, q, f, r)
    ensures Copies(x, q, f, p, r)
  {
    assert InSome(x, NewFiles(q, f), r);
    p :| p in f.inputs && r in x.rows(p);
  }

  /** In time, every file shows after the call only rows that the table should hold. */
  lemma {:induction false} ShowsOnlyHeld(x: Store, q: Request, f: Plan, live: set<string>, deletes: set<string>,
                                         was: int -> bool, now: int -> bool, p: string, r: int)
    requires Publishes(x, q, f, live, deletes, was, now) && InTime(x, q, f, live, deletes, was)
    requires p in LiveAfter(q, f, live) && Visible(x, deletes + Carries(q), p, r)
    ensures now(r)
    ensures p !in NewFiles(q, f) ==> p in live && Visible(x, deletes, p, r)
  {
    DroppedBoth(x, deletes, Carries(q), p, r);
    if p in NewFiles(q, f) {
      if !Brings(x, q, f, r) {
        var i := CopiedFrom(x, q, f, p, r);
        assert i in live && Visible(x, deletes, i, r) && Shown(x, live, deletes, r);
        if Drops(x, q, f, r) { DroppedThere(x, q, f, live, deletes, was, now, i, r); }
      }
    } else {
      assert p in live;
      assert Shown(x, live, deletes, r);
      if Drops(x, q, f, r) { DroppedThere(x, q, f, live, deletes, was, now, p, r); }
    }
  }

  /** In time, every row that the table should hold is visible after the call. */
  lemma {:induction false} ShowsAllHeld(x: Store, q: Request, f: Plan, live: set<string>, deletes: set<string>,
                                        was: int -> bool, now: int -> bool, r: int)
    requires Publishes(x, q, f, live, deletes, was, now) && InTime(x, q, f, live, deletes, was) && now(r)
    ensures Shown(x, LiveAfter(q, f, live), deletes + Carries(q), r)
  {
    var next, all := LiveAfter(q, f, live), deletes + Carries(q);
    if InSome(x, NewFiles(q, f), r) {
      var n :| n in NewFiles(q, f) && r in x.rows(n);
      NewShows(x, q, f, live, deletes, was, now, n, r);
      assert n in next;
    } else {
      var l :| l in live && Visible(x, deletes, l, r);
      DroppedBoth(x, deletes, Carries(q), l, r);
      assert DropsFrom(x, q, f, l, r) ==> Drops(x, q, f, r);
      assert !Replaces(q, f, l) && !Dropped(x, Carries(q), l, r);
      assert l in next && Visible(x, all, l, r);
    }
  }

  lemma {:induction false} InTimeIsOnce(x: Store, q: Request, f: Plan, live: set<string>, deletes: set<string>,
                                        was: int -> bool, now: int -> bool)
    requires Publishes(x, q, f, live, deletes, was, now) && InTime(x, q, f, live, deletes, was)
    ensures Once(x, LiveAfter(q, f, live), deletes + Carries(q), now)
  {
    var next, all := LiveAfter(q, f, live), deletes + Carries(q);
    forall r
      ensures Shown(x, next, all, r) <==> now(r)
    {
      if Shown(x, next, all, r) {
        var p :| p in next && Visible(x, all, p, r);
        ShowsOnlyHeld(x, q, f, live, deletes, was, now, p, r);
      }
      if now(r) { ShowsAllHeld(x, q, f, live, deletes, was, now, r); }
    }
    forall p, p', r | p in next && p' in next && Visible(x, all, p, r) && Visible(x, all, p', r)
      ensures p == p'
    {
      ShowsOnlyHeld(x, q, f, live, deletes, was, now, p, r);
      ShowsOnlyHeld(x, q, f, live, deletes, was, now, p', r);
      if p in NewFiles(q, f) && p' !in NewFiles(q, f) { NewIsAlone(x, q, f, live, deletes, was, now, p, p', r); }
      if p' in NewFiles(q, f) && p !in NewFiles(q, f) { NewIsAlone(x, q, f, live, deletes, was, now, p', p, r); }
    }
  }

  lemma {:induction false} NewIsAlone(x: Store, q: Request, f: Plan, live: set<string>, deletes: set<string>,
                                      was: int -> bool, now: int -> bool, n: string, p: string, r: int)
    requires Publishes(x, q, f, live, deletes, was, now) && InTime(x, q, f, live, deletes, was)
    requires n in NewFiles(q, f) && r in x.rows(n)
    ensures !(p in LiveAfter(q, f, live) && p !in NewFiles(q, f) && p in live && Visible(x, deletes, p, r))
  {
    if Brings(x, q, f, r) {
      assert !Shown(x, live, deletes, r);
    } else {
      var i := CopiedFrom(x, q, f, n, r);
      assert i in live && Visible(x, deletes, i, r);
    }
  }

  /** A row visible in a live file that is no input stays visible there, if it is a row of an input or of a new file. */
  lemma {:induction false} StaysThere(x: Store, q: Request, f: Plan, live: set<string>, deletes: set<string>, l: string,
                                      r: int)
    requires Consistent(x, q, f) && l in live && l !in f.inputs && Visible(x, deletes, l, r)
    requires InSome(x, f.inputs, r) || InSome(x, NewFiles(q, f), r)
    ensures l in LiveAfter(q, f, live) && Visible(x, deletes + Carries(q), l, r)
  {
    DroppedBoth(x, deletes, Carries(q), l, r);
  }

  lemma {:induction false} OnceSeesAll(x: Store, q: Request, f: Plan, live: set<string>, deletes: set<string>,
                                       was: int -> bool, now: int -> bool, p: string, r: int)
    requires Publishes(x, q, f, live, deletes, was, now)
    requires Once(x, LiveAfter(q, f, live), deletes + Carries(q), now)
    requires p in live && Visible(x, deletes, p, r)
    requires Replaces(q, f, p) || Dropped(x, Carries(q), p, r)
    ensures Planned(x, f, p, r)
  {
    var next, all := LiveAfter(q, f, live), deletes + Carries(q);
    if !Planned(x, f, p, r) {
      assert Shown(x, live, deletes, r);
      if Drops(x, q, f, r) {
        var i :| DropsFrom(x, q, f, i, r);
        assert InSome(x, f.inputs, r);
      }
      assert now(r) && Shown(x, next, all, r);
      var l :| l in next && Visible(x, all, l, r);
      DroppedBoth(x, deletes, Carries(q), l, r);
      assert l in NewFiles(q, f) ==> InSome(x, NewFiles(q, f), r);
      assert !InSome(x, NewFiles(q, f), r) by { NotCopied(x, q, f, p, r); }
      assert l !in live ==> InSome(x, f.inputs, r);
      DroppedBoth(x, deletes, Carries(q), p, r);
    }
  }

  lemma {:induction false} NotCopied(x: Store, q: Request, f: Plan, p: string, r: int)
    requires Consistent(x, q, f) && r in x.rows(p) && !Planned(x, f, p, r)
    requires Replaces(q, f, p) || Dropped(x, Carries(q), p, r)
    ensures !InSome(x, NewFiles(q, f), r)
  {
  }

  lemma {:induction false} OnceCopiesVisible(x: Store, q: Request, f: Plan, live: set<string>, deletes: set<string>,
                                             was: int -> bool, now: int -> bool, p: string, r: int)
    requires Publishes(x, q, f, live, deletes, was, now)
    requires Once(x, LiveAfter(q, f, live), deletes + Carries(q), now) && Copies(x, q, f, p, r)
    ensures p in live && Visible(x, deletes, p, r)
  {
    var next, all := LiveAfter(q, f, live), deletes + Carries(q);
    var n :| n in NewFiles(q, f) && r in x.rows(n);
    NewShows(x, q, f, live, deletes, was, now, n, r);
    assert n in next && Shown(x, next, all, r) && InSome(x, f.inputs, r);
    var l :| l in live && Visible(x, deletes, l, r);
    if l in f.inputs {
      OneInput(x, q, f, l, p, r);
    } else {
      StaysThere(x, q, f, live, deletes, l, r);
    }
  }

  lemma {:induction false} OnceRevivesNothing(x: Store, q: Request, f: Plan, live: set<string>, deletes: set<string>,
                                              was: int -> bool, now: int -> bool, p: string, r: int)
    requires Publishes(x, q, f, live, deletes, was, now)
    requires Once(x, LiveAfter(q, f, live), deletes + Carries(q), now)
    requires Relists(q, f, p) && p !in live && r in x.rows(p)
    ensures Dropped(x, deletes + Carries(q), p, r)
  {
    var next, all := LiveAfter(q, f, live), deletes + Carries(q);
    if !Dropped(x, all, p, r) {
      assert p in next && Visible(x, all, p, r) && Shown(x, next, all, r) && InSome(x, f.inputs, r);
      var l :| l in live && Visible(x, deletes, l, r);
      if l in f.inputs { OneInput(x, q, f, l, p, r); }
      StaysThere(x, q, f, live, deletes, l, r);
    }
  }

  lemma {:induction false} OnceDropsVisible(x: Store, q: Request, f: Plan, live: set<string>, deletes: set<string>,
                                            was: int -> bool, now: int -> bool, p: string, r: int)
    requires Publishes(x, q, f, live, deletes, was, now)
    requires Once(x, LiveAfter(q, f, live), deletes + Carries(q), now) && DropsFrom(x, q, f, p, r) && was(r)
    ensures p in live && Visible(x, deletes, p, r)
  {
    var next, all := LiveAfter(q, f, live), deletes + Carries(q);
    assert InSome(x, f.inputs, r) && Drops(x, q, f, r) && !now(r);
    var l :| l in live && Visible(x, deletes, l, r);
    if l in f.inputs {
      OneInput(x, q, f, l, p, r);
    } else {
      StaysThere(x, q, f, live, deletes, l, r);
      assert Shown(x, next, all, r);
    }
  }

  /** A published call leaves every row that the table should hold visible in exactly one live file, and no other, if
      and only if it comes in time. */
  lemma {:induction false} CallKeepsOnceIff(x: Store, q: Request, f: Plan, live: set<string>, deletes: set<string>,
                                            was: int -> bool, now: int -> bool)
    requires Publishes(x, q, f, live, deletes, was, now)
    ensures Once(x, LiveAfter(q, f, live), deletes + Carries(q), now) <==> InTime(x, q, f, live, deletes, was)
  {
    if InTime(x, q, f, live, deletes, was) {
      InTimeIsOnce(x, q, f, live, deletes, was, now);
    }
    if Once(x, LiveAfter(q, f, live), deletes + Carries(q), now) {
      forall p, r | p in live && Visible(x, deletes, p, r) && (Replaces(q, f, p) || Dropped(x, Carries(q), p, r))
        ensures Planned(x, f, p, r)
      {
        OnceSeesAll(x, q, f, live, deletes, was, now, p, r);
      }
      forall p, r | Copies(x, q, f, p, r)
        ensures p in live && Visible(x, deletes, p, r)
      {
        OnceCopiesVisible(x, q, f, live, deletes, was, now, p, r);
      }
      forall p, r | Relists(q, f, p) && p !in live && r in x.rows(p)
        ensures Dropped(x, deletes + Carries(q), p, r)
      {
        OnceRevivesNothing(x, q, f, live, deletes, was, now, p, r);
      }
      forall p, r | DropsFrom(x, q, f, p, r) && was(r)
        ensures p in live && Visible(x, deletes, p, r)
      {
        OnceDropsVisible(x, q, f, live, deletes, was, now, p, r);
      }
    }
  }

  // ---- histories ---------------------------------------------------------------------------------------------

  ghost predicate Serial(t: Table, history: seq<Snapshot>, log: seq<nat>) {
    CP.Serial(Protocol(t), history, log) && CP.Unrepeated(log)
  }

  function Deletes(s: Snapshot): set<string> { set d | d in s.deletes }

  /** Every row that should be in the table is visible in exactly one live file, and no other row is visible. */
  ghost predicate Conserved(t: Table, x: Store, s: Snapshot, log: seq<nat>) {
    Once(x, LoadAll(s).Keys, Deletes(s), r => Holds(t, x, log, r))
  }

  ghost predicate CallInTime(t: Table, x: Store, s: Snapshot, log: seq<nat>, c: nat) {
    InTime(x, t.request(c), t.plan(c), LoadAll(s).Keys, Deletes(s), r => Holds(t, x, log, r))
  }

  /** Live files that show rows were written by published calls, which also brought the delete files; and no inline
      entry is missing from the list. */
  ghost predicate Traced(t: Table, x: Store, s: Snapshot, log: seq<nat>) {
    && InlineCovered(s)
    && (forall p, r :: p in LoadAll(s) && Visible(x, Deletes(s), p, r) ==> Written(t, log, p))
    && (forall d :: d in s.deletes ==> Carried(t, log, d))
  }

  ghost predicate Written(t: Table, log: seq<nat>, p: string) {
    exists k :: 0 <= k < |log| && p in NewFiles(t.request(log[k]), t.plan(log[k]))
  }

  ghost predicate Carried(t: Table, log: seq<nat>, d: string) {
    exists k :: 0 <= k < |log| && d in Carries(t.request(log[k]))
  }

  lemma {:induction false} WrittenSnoc(t: Table, log: seq<nat>, c: nat, p: string)
    requires Written(t, log, p) || p in NewFiles(t.request(c), t.plan(c))
    ensures Written(t, log + [c], p)
  {
    if Written(t, log, p) {
      var k :| 0 <= k < |log| && p in NewFiles(t.request(log[k]), t.plan(log[k]));
      assert (log + [c])[k] == log[k];
    } else {
      assert (log + [c])[|log|] == c;
    }
  }

  lemma {:induction false} CarriedSnoc(t: Table, log: seq<nat>, c: nat, d: string)
    requires Carried(t, log, d) || d in Carries(t.request(c))
    ensures Carried(t, log + [c], d)
  {
    if Carried(t, log, d) {
      var k :| 0 <= k < |log| && d in Carries(t.request(log[k]));
      assert (log + [c])[k] == log[k];
    } else {
      assert (log + [c])[|log|] == c;
    }
  }

  lemma {:induction false} WrittenElsewhere(t: Table, x: Store, log: seq<nat>, c: nat, p: string)
    requires Distinguished(t, x) && c !in log && p in NewFiles(t.request(c), t.plan(c))
    ensures !Written(t, log, p)
  {
    forall k | 0 <= k < |log|
      ensures p !in NewFiles(t.request(log[k]), t.plan(log[k]))
    {
      assert log[k] != c;
    }
  }

  /** The live files and the delete files after a call. */
  lemma {:induction false} PathsAfter(t: Table, x: Store, s: Snapshot, c: nat, next: Snapshot)
    requires Sound(t.layout) && InlineCovered(s) && Consistent(x, t.request(c), t.plan(c))
    requires Apply(t.layout, t.limit, s, t.request(c)) == Write(next)
    ensures InlineCovered(next) && LoadAll(next).Keys == LiveAfter(t.request(c), t.plan(c), LoadAll(s).Keys)
    ensures Deletes(next) == Deletes(s) + Carries(t.request(c))
  {
    var q := t.request(c);
    match q
    case Import(es) => ImportLoads(t.layout, s, es);
    case Commit(change) =>
      CommitPathsIff(t.layout, t.limit, s, change);
      CommitDeletes(t.layout, t.limit, s, change);
      assert LoadAll(next).Keys == LoadAll(s).Keys - Removes(q) + Adds(q);
  }

  /** The files of the next call are spared by the delete files so far. */
  lemma {:induction false} NewIsSpared(t: Table, x: Store, s: Snapshot, log: seq<nat>, c: nat, n: string)
    requires Traced(t, x, s, log) && Causal(t, x, log + [c]) && n in NewFiles(t.request(c), t.plan(c))
    ensures Spares(x, Deletes(s), n)
  {
    forall r | r in x.rows(n)
      ensures !Dropped(x, Deletes(s), n, r)
    {
      forall d | d in Deletes(s)
        ensures r !in x.drops(d, n)
      {
        assert Carried(t, log, d);
        var k :| 0 <= k < |log| && d in Carries(t.request(log[k]));
        var all := log + [c];
        assert all[k] == log[k] && all[|log|] == c;
        assert Spares(x, Carries(t.request(all[k])), n);
      }
    }
  }

  /** The facts that `CallKeepsOnceIff` needs hold whenever a call is published onto a conserved version. */
  lemma {:induction false} StepPublishes(t: Table, x: Store, s: Snapshot, log: seq<nat>, c: nat)
    requires Sane(t, x) && Conserved(t, x, s, log) && Traced(t, x, s, log) && c !in log && Causal(t, x, log + [c])
    ensures Publishes(x, t.request(c), t.plan(c), LoadAll(s).Keys, Deletes(s), r => Holds(t, x, log, r),
                      r => Holds(t, x, log + [c], r))
  {
    var q, f, live := t.request(c), t.plan(c), LoadAll(s).Keys;
    forall n | n in NewFiles(q, f)
      ensures Spares(x, Deletes(s), n)
      ensures forall r :: n in live ==> !Visible(x, Deletes(s), n, r)
    {
      NewIsSpared(t, x, s, log, c, n);
      WrittenElsewhere(t, x, log, c, n);
    }
    forall r
      ensures Brings(x, q, f, r) ==> !Holds(t, x, log, r)
    {
      if Holds(t, x, log, r) {
        HoldsBrought(t, x, log, r);
        var k :| 0 <= k < |log| && Brings(x, t.request(log[k]), t.plan(log[k]), r);
        assert log[k] != c;
      }
    }
    forall r
      ensures Holds(t, x, log + [c], r) <==> (Holds(t, x, log, r) && !Drops(x, q, f, r)) || Brings(x, q, f, r)
    {
      HoldsSnoc(t, x, log, c, r);
    }
  }

  /** Publishing a call onto a conserved version conserves the rows exactly when it comes in time. */
  lemma {:induction false} StepConservesIff(t: Table, x: Store, s: Snapshot, log: seq<nat>, c: nat, next: Snapshot)
    requires Sane(t, x) && Conserved(t, x, s, log) && Traced(t, x, s, log) && c !in log && Causal(t, x, log + [c])
    requires Apply(t.layout, t.limit, s, t.request(c)) == Write(next)
    ensures Conserved(t, x, next, log + [c]) <==> CallInTime(t, x, s, log, c)
    ensures CallInTime(t, x, s, log, c) ==> Traced(t, x, next, log + [c])
  {
    var q, f, live := t.request(c), t.plan(c), LoadAll(s).Keys;
    PathsAfter(t, x, s, c, next);
    StepPublishes(t, x, s, log, c);
    CallKeepsOnceIff(x, q, f, live, Deletes(s), r => Holds(t, x, log, r), r => Holds(t, x, log + [c], r));
    if CallInTime(t, x, s, log, c) { StaysTraced(t, x, s, log, c, next); }
  }

  lemma {:induction false} StaysTraced(t: Table, x: Store, s: Snapshot, log: seq<nat>, c: nat, next: Snapshot)
    requires Sane(t, x) && Conserved(t, x, s, log) && Traced(t, x, s, log) && c !in log && Causal(t, x, log + [c])
    requires Apply(t.layout, t.limit, s, t.request(c)) == Write(next) && CallInTime(t, x, s, log, c)
    ensures Traced(t, x, next, log + [c])
  {
    var q, f, live := t.request(c), t.plan(c), LoadAll(s).Keys;
    PathsAfter(t, x, s, c, next);
    StepPublishes(t, x, s, log, c);
    forall p, r | p in LoadAll(next) && Visible(x, Deletes(next), p, r)
      ensures Written(t, log + [c], p)
    {
      ShowsOnlyHeld(x, q, f, live, Deletes(s), r => Holds(t, x, log, r), r => Holds(t, x, log + [c], r), p, r);
      WrittenSnoc(t, log, c, p);
    }
    forall d | d in next.deletes
      ensures Carried(t, log + [c], d)
    {
      assert d in Deletes(next);
      CarriedSnoc(t, log, c, d);
    }
  }

  ghost predicate ConservedAt(t: Table, x: Store, history: seq<Snapshot>, log: seq<nat>, k: nat)
    requires k < |history| && k <= |log|
  {
    Conserved(t, x, history[k], log[..k])
  }

  ghost predicate ConservedNext(t: Table, x: Store, history: seq<Snapshot>, log: seq<nat>, k: nat)
    requires k + 1 < |history| && k < |log|
  {
    ConservedAt(t, x, history, log, k + 1)
  }

  ghost predicate InTimeAt(t: Table, x: Store, history: seq<Snapshot>, log: seq<nat>, k: nat)
    requires k < |history| && k < |log|
  {
    CallInTime(t, x, history[k], log[..k], log[k])
  }

  lemma {:induction false} Step(t: Table, x: Store, history: seq<Snapshot>, log: seq<nat>, k: nat)
    requires Sane(t, x) && Serial(t, history, log) && Causal(t, x, log) && k < |log|
    requires ConservedAt(t, x, history, log, k) && Traced(t, x, history[k], log[..k])
    ensures ConservedNext(t, x, history, log, k) <==> InTimeAt(t, x, history, log, k)
    ensures InTimeAt(t, x, history, log, k) ==> Traced(t, x, history[k + 1], log[..k + 1])
  {
    assert log[..k + 1] == log[..k] + [log[k]];
    assert log[k] !in log[..k];
    assert Protocol(t).apply(history[k], log[k]) == Some(history[k + 1]);
    CausalFront(t, x, log, k + 1);
    StepConservesIff(t, x, history[k], log[..k], log[k], history[k + 1]);
  }

  lemma {:induction false} CausalFront(t: Table, x: Store, log: seq<nat>, k: nat)
    requires Causal(t, x, log) && k <= |log|
    ensures Causal(t, x, log[..k])
  {
    forall i, j, n | 0 <= i < j < k && n in NewFiles(t.request(log[..k][j]), t.plan(log[..k][j]))
      ensures Spares(x, Carries(t.request(log[..k][i])), n)
    {
      assert log[..k][i] == log[i] && log[..k][j] == log[j];
    }
  }

  lemma {:induction false} NothingYet(t: Table, x: Store)
    ensures Conserved(t, x, GENESIS, []) && Traced(t, x, GENESIS, [])
  {
    assert LoadAll(GENESIS) == map[];
  }

  lemma {:induction false} ConservedSoFar(t: Table, x: Store, history: seq<Snapshot>, log: seq<nat>, k: nat)
    requires Sane(t, x) && Serial(t, history, log) && Causal(t, x, log) && k <= |log|
    requires forall j :: 0 <= j < k ==> InTimeAt(t, x, history, log, j) || ConservedNext(t, x, history, log, j)
    ensures ConservedAt(t, x, history, log, k) && Traced(t, x, history[k], log[..k])
    ensures forall j :: 0 <= j < k ==> InTimeAt(t, x, history, log, j)
    decreases k
  {
    if k == 0 {
      NothingYet(t, x);
      assert log[..0] == [] && history[0] == GENESIS;
    } else {
      assert InTimeAt(t, x, history, log, k - 1) || ConservedNext(t, x, history, log, k - 1);
      ConservedSoFar(t, x, history, log, k - 1);
      Step(t, x, history, log, k - 1);
    }
  }

  /** Over every serial history of such calls, every row that should be in the table is visible in exactly one live file
      of every version, and no other row is, if and only if every call is published in time. */
  lemma {:induction false} RowsConservedIff(t: Table, x: Store, history: seq<Snapshot>, log: seq<nat>)
    requires Sane(t, x) && Serial(t, history, log) && Causal(t, x, log)
    ensures (forall k :: 0 <= k <= |log| ==> ConservedAt(t, x, history, log, k))
       <==> (forall k :: 0 <= k < |log| ==> InTimeAt(t, x, history, log, k))
  {
    if forall k :: 0 <= k <= |log| ==> ConservedAt(t, x, history, log, k) {
      assert forall j :: 0 <= j < |log| ==> ConservedNext(t, x, history, log, j);
      ConservedSoFar(t, x, history, log, |log|);
    }
    if forall k :: 0 <= k < |log| ==> InTimeAt(t, x, history, log, k) {
      forall k | 0 <= k <= |log|
        ensures ConservedAt(t, x, history, log, k)
      {
        ConservedSoFar(t, x, history, log, k);
      }
    }
  }

  /** For every interleaving of writers, stale reads, conflicts and vacuums, and every version ever made: its line
      conserves the rows at every version exactly when every call on it came in time. */
  lemma {:induction false} RunsConserveIff(t: Table, x: Store, steps: seq<CP.Step>, i: nat)
    requires Sane(t, x) && i < |CP.Run(Protocol(t), CP.Start(Protocol(t)), steps).made|
    ensures var made := CP.Run(Protocol(t), CP.Start(Protocol(t)), steps).made;
            && CP.Tree(Protocol(t), made)
            && var history, log := CP.History(made, i), CP.Log(made, i);
            && Serial(t, history, log)
            && (Causal(t, x, log) ==>
                  ((forall k :: 0 <= k <= |log| ==> ConservedAt(t, x, history, log, k))
                   <==> (forall k :: 0 <= k < |log| ==> InTimeAt(t, x, history, log, k))))
  {
    CP.RunIsSerial(Protocol(t), steps, i);
    var made := CP.Run(Protocol(t), CP.Start(Protocol(t)), steps).made;
    var history, log := CP.History(made, i), CP.Log(made, i);
    if Causal(t, x, log) { RowsConservedIff(t, x, history, log); }
  }

  // ---- which calls are in time -------------------------------------------------------------------------------------

  /** The rows of an input that are visible now. */
  ghost predicate VisibleNow(x: Store, s: Snapshot, p: string, r: int) {
    p in LoadAll(s) && Visible(x, Deletes(s), p, r)
  }

  /** A call that only moves rows: it replaces its inputs by files with all the rows it saw. */
  ghost predicate Compacts(x: Store, q: Request, f: Plan) {
    && (forall p :: p in f.inputs ==> Replaces(q, f, p)) && Carries(q) == {}
    && (forall p, r :: Planned(x, f, p, r) ==> InSome(x, NewFiles(q, f), r))
  }

  /** A compaction is in time exactly when its inputs show what they showed when it was planned: those that had visible
      rows are live, and the same delete files hit them. */
  lemma {:induction false} CompactionInTimeIff(t: Table, x: Store, s: Snapshot, log: seq<nat>, c: nat)
    requires Compacts(x, t.request(c), t.plan(c))
    ensures CallInTime(t, x, s, log, c)
            <==> forall p, r :: p in t.plan(c).inputs ==> (VisibleNow(x, s, p, r) <==> Planned(x, t.plan(c), p, r))
  {
    var q, f := t.request(c), t.plan(c);
    if CallInTime(t, x, s, log, c) {
      forall p, r | p in f.inputs
        ensures VisibleNow(x, s, p, r) <==> Planned(x, f, p, r)
      {
        assert Planned(x, f, p, r) ==> Copies(x, q, f, p, r);
      }
    }
  }

  /** A call that lists its inputs again is consistent whatever rows they have, as long as no row is in two of them and
      the delete files it carries drop no row of theirs from another file. */
  lemma {:induction false} RelistingIsConsistent(x: Store, q: Request, f: Plan)
    requires Removes(q) <= Adds(q) == f.inputs && Apart(x, Adds(q))
    requires forall d, p, r :: d in Carries(q) && r in x.drops(d, p) ==> p in f.inputs || !InSome(x, f.inputs, r)
    ensures Consistent(x, q, f)
  {
    assert forall r :: !InSome(x, NewFiles(q, f), r);
  }

  /** A call that only lists files again and adds no delete file, as attaching indexes after a flush does, is in time
      exactly when every file it lists is live or would show nothing. */
  lemma {:induction false} AttachInTimeIff(t: Table, x: Store, s: Snapshot, log: seq<nat>, c: nat)
    requires Consistent(x, t.request(c), t.plan(c)) && t.plan(c).inputs == Adds(t.request(c))
    requires Carries(t.request(c)) <= t.plan(c).seen && Carries(t.request(c)) <= Deletes(s)
    ensures CallInTime(t, x, s, log, c)
            <==> forall p, r :: p in Adds(t.request(c)) && Visible(x, Deletes(s), p, r) ==> p in LoadAll(s)
  {
    var q, f, live := t.request(c), t.plan(c), LoadAll(s).Keys;
    assert forall p, r :: !DropsFrom(x, q, f, p, r) && !Copies(x, q, f, p, r);
    assert Deletes(s) + Carries(q) == Deletes(s);
    if CallInTime(t, x, s, log, c) {
      forall p, r | p in Adds(q) && Visible(x, Deletes(s), p, r)
        ensures p in live
      {
        assert Relists(q, f, p);
      }
    }
    if forall p, r :: p in Adds(q) && Visible(x, Deletes(s), p, r) ==> p in live {
      forall p, r | Relists(q, f, p) && p !in live && r in x.rows(p)
        ensures Dropped(x, Deletes(s) + Carries(q), p, r)
      {
        assert !Visible(x, Deletes(s), p, r);
      }
    }
  }

  /** A call that removes its inputs under a flag that gives up or fails when one is missing, or that has none. */
  predicate Guarded(q: Request, f: Plan) {
    f.inputs == {} || (q.Commit? && f.inputs == Removes(q) &&
                       (q.change.flags.discard || (q.change.flags.require && !q.change.flags.skip)))
  }

  lemma {:induction false} GuardedInputsLive(t: Table, s: Snapshot, c: nat, p: string)
    requires Guarded(t.request(c), t.plan(c)) && Apply(t.layout, t.limit, s, t.request(c)).Write?
    requires p in t.plan(c).inputs
    ensures p in LoadAll(s)
  {
    var q := t.request(c);
    var i :| 0 <= i < |q.change.remove| && q.change.remove[i] == p;
  }

  /** The flags are what it takes: a call that removes its inputs is guarded exactly when it is never published on a
      snapshot where one of them is missing. */
  lemma {:induction false} GuardedIff(l: Layout, limit: nat, q: Request, f: Plan)
    requires q.Commit? && f.inputs == Removes(q)
    ensures Guarded(q, f) <==> forall s :: Apply(l, limit, s, q).Write? ==> f.inputs <= LoadAll(s).Keys
  {
    if Guarded(q, f) {
      forall s, p | Apply(l, limit, s, q).Write? && p in f.inputs
        ensures p in LoadAll(s)
      {
        var i :| 0 <= i < |q.change.remove| && q.change.remove[i] == p;
      }
    } else {
      var p :| p in f.inputs;
      assert Apply(l, limit, GENESIS, q).Write? && p !in LoadAll(GENESIS);
    }
  }

  /** Without delete files, appends, index imports and compactions, which give up when an input is gone, conserve the
      rows in every version of every history. */
  lemma {:induction false} GuardedCallsConserve(t: Table, x: Store, history: seq<Snapshot>, log: seq<nat>)
    requires Sane(t, x) && Serial(t, history, log)
    requires forall c: nat :: Guarded(t.request(c), t.plan(c)) && Carries(t.request(c)) == {} && t.plan(c).seen == {}
    ensures forall k :: 0 <= k <= |log| ==> ConservedAt(t, x, history, log, k)
  {
    assert Causal(t, x, log);
    forall k | 0 <= k <= |log|
      ensures ConservedAt(t, x, history, log, k)
    {
      GuardedSoFar(t, x, history, log, k);
    }
  }

  lemma {:induction false} GuardedSoFar(t: Table, x: Store, history: seq<Snapshot>, log: seq<nat>, k: nat)
    requires Sane(t, x) && Serial(t, history, log) && Causal(t, x, log) && k <= |log|
    requires forall c: nat :: Guarded(t.request(c), t.plan(c)) && Carries(t.request(c)) == {} && t.plan(c).seen == {}
    ensures ConservedAt(t, x, history, log, k) && Traced(t, x, history[k], log[..k])
    decreases k
  {
    if k == 0 {
      ConservedSoFar(t, x, history, log, 0);
    } else {
      GuardedSoFar(t, x, history, log, k - 1);
      assert Protocol(t).apply(history[k - 1], log[k - 1]) == Some(history[k]);
      GuardedInTime(t, x, history[k - 1], log[..k - 1], log[k - 1]);
      Step(t, x, history, log, k - 1);
    }
  }

  lemma {:induction false} GuardedInTime(t: Table, x: Store, s: Snapshot, log: seq<nat>, c: nat)
    requires Guarded(t.request(c), t.plan(c)) && Apply(t.layout, t.limit, s, t.request(c)).Write?
    requires Consistent(x, t.request(c), t.plan(c)) && Traced(t, x, s, log)
    requires forall c: nat :: Carries(t.request(c)) == {} && t.plan(c).seen == {}
    ensures CallInTime(t, x, s, log, c)
  {
    var q, f := t.request(c), t.plan(c);
    assert forall d :: !Carried(t, log, d);
    assert forall p, r :: !Dropped(x, Deletes(s), p, r) && !Dropped(x, f.seen, p, r) && !Dropped(x, Carries(q), p, r);
    forall p | p in f.inputs
      ensures p in LoadAll(s)
    {
      GuardedInputsLive(t, s, c, p);
    }
  }

  // ---- two failing runs -------------------------------------------------------------------------------------------

  const DEFAULT := Flags(false, false, false)
  const COMPACTION := Flags(true, true, true)

  /** A failing run: a flush appends file `a`, a compaction replaces it by `b`, and the index build of the flush then
      attaches its indexes to `a` by removing and adding it. Both files are live and every row is in both. */
  lemma {:induction false} AttachAfterCompaction(t: Table, x: Store, log: seq<nat>, a: Entry, b: Entry, indexed: Entry)
    returns (history: seq<Snapshot>)
    requires Sound(t.layout) && a.path != b.path && indexed.path == a.path && x.rows(a.path) == x.rows(b.path)
    requires |log| == 3 && CP.Unrepeated(log)
    requires t.request(log[0]) == Commit(Change([a], [], [], DEFAULT))
    requires t.request(log[1]) == Commit(Change([b], [a.path], [], COMPACTION))
    requires t.request(log[2]) == Commit(Change([indexed], [a.path], [], DEFAULT))
    ensures Serial(t, history, log) && LoadAll(history[2]).Keys == {b.path}
    ensures LoadAll(history[3]).Keys == {a.path, b.path} && Deletes(history[3]) == {}
    ensures CP.Straight(CP.Run(Protocol(t), CP.Start(Protocol(t)), CP.Sequential(log)), history, log)
  {
    NothingLive();
    var s1 := Listing(t, GENESIS, log[0], a, []);
    var s2 := Swapping(t, s1, log[1], b, a.path, COMPACTION);
    var s3 := Swapping(t, s2, log[2], indexed, a.path, DEFAULT);
    history := [GENESIS, s1, s2, s3];
    ThreeCalls(t, log, s1, s2, s3);
  }

  /** The other: a compaction of file `a` is planned, a row delete lists `a` again with delete file `d`, and the
      compaction is published after it. Its input is live, so nothing is discarded; its output `b` holds the deleted
      rows, which `d` does not drop from `b`, so they are visible again. */
  lemma {:induction false} CompactionAfterDelete(t: Table, x: Store, log: seq<nat>, a: Entry, b: Entry, d: string)
    returns (history: seq<Snapshot>)
    requires Sound(t.layout) && a.path != b.path && x.rows(a.path) == x.rows(b.path) && x.drops(d, b.path) == {}
    requires |log| == 3 && CP.Unrepeated(log)
    requires t.request(log[0]) == Commit(Change([a], [], [], DEFAULT)) && t.plan(log[0]) == Plan({}, {})
    requires t.request(log[1]) == Commit(Change([a], [], [d], DEFAULT)) && t.plan(log[1]) == Plan({a.path}, {})
    requires t.request(log[2]) == Commit(Change([b], [a.path], [], COMPACTION)) && t.plan(log[2]) == Plan({a.path}, {})
    ensures Serial(t, history, log)
    ensures forall r :: r in x.rows(a.path) && r in x.drops(d, a.path) ==>
              && !Shown(x, LoadAll(history[2]).Keys, Deletes(history[2]), r)
              && Shown(x, LoadAll(history[3]).Keys, Deletes(history[3]), r) && !Holds(t, x, log, r)
    ensures CP.Straight(CP.Run(Protocol(t), CP.Start(Protocol(t)), CP.Sequential(log)), history, log)
  {
    NothingLive();
    var s1 := Listing(t, GENESIS, log[0], a, []);
    var s2 := Listing(t, s1, log[1], a, [d]);
    var s3 := Swapping(t, s2, log[2], b, a.path, COMPACTION);
    history := [GENESIS, s1, s2, s3];
    ThreeCalls(t, log, s1, s2, s3);
    assert Deletes(s2) == {d} && Deletes(s3) == {d} && LoadAll(s3).Keys == {b.path};
    forall r | r in x.rows(a.path) && r in x.drops(d, a.path)
      ensures !Shown(x, {a.path}, {d}, r) && Shown(x, {b.path}, {d}, r) && !Holds(t, x, log, r)
    {
      assert Visible(x, {d}, b.path, r);
      DeletedIsNotHeld(t, x, log, a, b, d, r);
    }
  }

  lemma {:induction false} ThreeCalls(t: Table, log: seq<nat>, s1: Snapshot, s2: Snapshot, s3: Snapshot)
    requires |log| == 3 && CP.Unrepeated(log) && Protocol(t).apply(GENESIS, log[0]) == Some(s1)
    requires Protocol(t).apply(s1, log[1]) == Some(s2) && Protocol(t).apply(s2, log[2]) == Some(s3)
    ensures var history := [GENESIS, s1, s2, s3];
            && Serial(t, history, log)
            && CP.Straight(CP.Run(Protocol(t), CP.Start(Protocol(t)), CP.Sequential(log)), history, log)
  {
    CP.SerialIsRun(Protocol(t), [GENESIS, s1, s2, s3], log);
  }

  lemma {:induction false} NothingLive()
    ensures InlineCovered(GENESIS) && LoadAll(GENESIS).Keys == {} && Deletes(GENESIS) == {}
  {
    assert LoadAll(GENESIS) == map[];
  }

  lemma {:induction false} DeletedIsNotHeld(t: Table, x: Store, log: seq<nat>, a: Entry, b: Entry, d: string, r: int)
    requires |log| == 3 && r in x.rows(a.path) && r in x.drops(d, a.path)
    requires t.request(log[1]) == Commit(Change([a], [], [d], DEFAULT)) && t.plan(log[1]) == Plan({a.path}, {})
    requires t.request(log[2]) == Commit(Change([b], [a.path], [], COMPACTION)) && t.plan(log[2]) == Plan({a.path}, {})
    ensures !Holds(t, x, log, r)
  {
    assert log == [log[0], log[1]] + [log[2]] && [log[0], log[1]] == [log[0]] + [log[1]];
    HoldsSnoc(t, x, [log[0], log[1]], log[2], r);
    HoldsSnoc(t, x, [log[0]], log[1], r);
    assert InSome(x, {a.path}, r) && Paths([a]) == {a.path};
    assert DropsFrom(x, t.request(log[1]), t.plan(log[1]), a.path, r);
  }

  lemma {:induction false} Listing(t: Table, s: Snapshot, c: nat, e: Entry, deletes: seq<string>)
    returns (next: Snapshot)
    requires Sound(t.layout) && InlineCovered(s) && t.request(c) == Commit(Change([e], [], deletes, DEFAULT))
    ensures Protocol(t).apply(s, c) == Some(next) && InlineCovered(next)
    ensures LoadAll(next).Keys == LoadAll(s).Keys + {e.path} && Deletes(next) == Deletes(s) + (set d | d in deletes)
  {
    next := Onto(t, s, c, e);
  }

  lemma {:induction false} Swapping(t: Table, s: Snapshot, c: nat, e: Entry, p: string, flags: Flags)
    returns (next: Snapshot)
    requires Sound(t.layout) && InlineCovered(s) && t.request(c) == Commit(Change([e], [p], [], flags))
    requires flags == DEFAULT || (flags == COMPACTION && p in LoadAll(s))
    ensures Protocol(t).apply(s, c) == Some(next) && InlineCovered(next)
    ensures LoadAll(next).Keys == LoadAll(s).Keys - {p} + {e.path} && Deletes(next) == Deletes(s)
  {
    assert Removes(t.request(c)) == {p};
    next := Onto(t, s, c, e);
  }

  lemma {:induction false} Onto(t: Table, s: Snapshot, c: nat, e: Entry) returns (next: Snapshot)
    requires Sound(t.layout) && InlineCovered(s) && t.request(c).Commit? && t.request(c).change.add == [e]
    requires t.request(c).change.flags == DEFAULT
          || (t.request(c).change.flags == COMPACTION && Removes(t.request(c)) <= LoadAll(s).Keys)
    ensures Protocol(t).apply(s, c) == Some(next) && InlineCovered(next)
    ensures LoadAll(next).Keys == LoadAll(s).Keys - Removes(t.request(c)) + {e.path}
    ensures Deletes(next) == Deletes(s) + Carries(t.request(c))
  {
    var change := t.request(c).change;
    assert !(change.flags.discard && IsMissing(LoadAll(s), change.remove)) by {
      forall i | 0 <= i < |change.remove|
        ensures change.flags == DEFAULT || change.remove[i] in LoadAll(s)
      {
        assert change.remove[i] in Removes(t.request(c));
      }
    }
    next := Attempt(t.layout, t.limit, s, change).next;
    CommitPathsIff(t.layout, t.limit, s, change);
    CommitDeletes(t.layout, t.limit, s, change);
    assert Paths([e]) == {e.path};
  }
}
