/** The session ledger of the benchmark reports (`session_provenance`): every measured
    section is stamped with the machine session it ran in, and a report is
    refused when the stamps disagree. */
module Ledger {
  import opened Seqs
  import opened Strings
  import opened Sorting
  import opened Dedup

  datatype Session<S> = Session(firstSeen: string, sections: seq<string>, calibrations: seq<S>)

  /** `session` is absent in ledgers written by hand. */
  datatype Entry = Entry(session: Option<string>, artifacts: seq<string>)

  datatype Book<S> = Book(sessions: map<string, Session<S>>, sections: map<string, Entry>)

  /** One stamp: the section, its artifacts, the machine's session id, the time and one sample. */
  datatype Stamp<S> = Stamp(section: string, artifacts: seq<string>, session: string, now: string, sample: S)

  // ---- stamping ----------------------------------------------------------------------------

  const KEPT_SAMPLES: nat := 100

  /** `del samples[:-100]`. */
  function Recent<S>(samples: seq<S>): seq<S> {
    if |samples| > KEPT_SAMPLES then samples[|samples| - KEPT_SAMPLES..] else samples
  }

  function Name(s: string): string { s }

  function Stamped<S>(b: Book<S>, s: Stamp<S>): Book<S> {
    var known := if s.session in b.sessions then b.sessions[s.session] else Session(s.now, [], []);
    var sections := if s.section in known.sections then known.sections else known.sections + [s.section];
    var session := Session(known.firstSeen, sections, Recent(known.calibrations + [s.sample]));
    var existing := if s.section in b.sections then b.sections[s.section].artifacts else [];
    Book(b.sessions[s.session := session],
         b.sections[s.section := Entry(Some(s.session), FirstByKey(Name, existing + s.artifacts))])
  }

  function StampedAll<S>(b: Book<S>, stamps: seq<Stamp<S>>): Book<S>
    decreases |stamps|
  {
    if stamps == [] then b else Stamped(StampedAll(b, stamps[..|stamps| - 1]), stamps[|stamps| - 1])
  }

  function Empty<S>(): Book<S> { Book(map[], map[]) }

  /** Every stamped section points to a session that lists it, no session lists a section twice,
      and no artifact is recorded twice. */
  ghost predicate Inv<S>(b: Book<S>) {
    && (forall n :: n in b.sections ==>
          && b.sections[n].session.Some? && b.sections[n].session.value in b.sessions
          && n in b.sessions[b.sections[n].session.value].sections
          && DistinctKeys(Name, b.sections[n].artifacts))
    && (forall id :: id in b.sessions ==> DistinctKeys(Name, b.sessions[id].sections))
  }

  lemma {:induction false} StampKeepsInv<S>(b: Book<S>, s: Stamp<S>)
    requires Inv(b)
    ensures Inv(Stamped(b, s))
  {
    var existing := if s.section in b.sections then b.sections[s.section].artifacts else [];
    var b' := Stamped(b, s);
    assert DistinctKeys(Name, b'.sections[s.section].artifacts) by {
      FirstByKeyMeaning(Name, existing + s.artifacts);
    }
    assert DistinctKeys(Name, b'.sessions[s.session].sections) && s.section in b'.sessions[s.session].sections;
    forall n | n in b'.sections && n != s.section
      ensures var id := b'.sections[n].session;
              id.Some? && id.value in b'.sessions && n in b'.sessions[id.value].sections
    {
      assert b'.sections[n] == b.sections[n];
    }
  }

  /** The samples that a sequence of stamps took in one session. */
  function SamplesOf<S>(stamps: seq<Stamp<S>>, id: string): seq<S>
    decreases |stamps|
  {
    if stamps == [] then []
    else
      var last := stamps[|stamps| - 1];
      SamplesOf(stamps[..|stamps| - 1], id) + (if last.session == id then [last.sample] else [])
  }

  lemma {:induction false} RecentOfRecent<S>(all: seq<S>, sample: S)
    ensures Recent(Recent(all) + [sample]) == Recent(all + [sample])
  {}

  /** The artifacts a sequence of stamps gave for one section. */
  function ArtifactsOf<S>(stamps: seq<Stamp<S>>, section: string): seq<string>
    decreases |stamps|
  {
    if stamps == [] then []
    else
      var last := stamps[|stamps| - 1];
      ArtifactsOf(stamps[..|stamps| - 1], section) + (if last.section == section then last.artifacts else [])
  }

  lemma {:induction false} LedgerInvAfter<S>(stamps: seq<Stamp<S>>)
    ensures Inv(StampedAll(Empty<S>(), stamps))
    decreases |stamps|
  {
    if stamps != [] {
      LedgerInvAfter(stamps[..|stamps| - 1]);
      StampKeepsInv(StampedAll(Empty<S>(), stamps[..|stamps| - 1]), stamps[|stamps| - 1]);
    }
  }

  /** After any sequence of stamps, a session's calibration list is a suffix of the samples taken in
      it: all of them up to 100, and then the last 100. */
  lemma {:induction false} CalibrationsAfter<S>(stamps: seq<Stamp<S>>, id: string)
    ensures var b, all := StampedAll(Empty<S>(), stamps), SamplesOf(stamps, id);
            if id in b.sessions
            then b.sessions[id].calibrations == all[if |all| > 100 then |all| - 100 else 0..]
            else all == []
  {
    RecentAfter(stamps, id);
  }

  lemma {:induction false} RecentAfter<S>(stamps: seq<Stamp<S>>, id: string)
    ensures var b := StampedAll(Empty<S>(), stamps);
            if id in b.sessions then b.sessions[id].calibrations == Recent(SamplesOf(stamps, id))
            else SamplesOf(stamps, id) == []
    decreases |stamps|
  {
    if stamps != [] {
      var front, last := stamps[..|stamps| - 1], stamps[|stamps| - 1];
      RecentAfter(front, id);
      if id == last.session { RecentOfRecent(SamplesOf(front, id), last.sample); }
      assert SamplesOf(front, id) + [] == SamplesOf(front, id);
    }
  }

  /** The sections that a sequence of stamps named in one session. */
  function SectionsOf<S>(stamps: seq<Stamp<S>>, id: string): seq<string>
    decreases |stamps|
  {
    if stamps == [] then []
    else
      var last := stamps[|stamps| - 1];
      SectionsOf(stamps[..|stamps| - 1], id) + (if last.session == id then [last.section] else [])
  }

  lemma {:induction false} SectionsAfter<S>(stamps: seq<Stamp<S>>, id: string)
    ensures var b := StampedAll(Empty<S>(), stamps);
            FirstByKey(Name, SectionsOf(stamps, id)) == if id in b.sessions then b.sessions[id].sections else []
    decreases |stamps|
  {
    if stamps != [] {
      var front, last := stamps[..|stamps| - 1], stamps[|stamps| - 1];
      var names := SectionsOf(front, id);
      SectionsAfter(front, id);
      assert names + [] == names;
      if last.session == id {
        FirstByKeySnoc(Name, names, last.section);
        FirstByKeyMeaning(Name, names);
        NameIn(names, last.section);
        NameIn(FirstByKey(Name, names), last.section);
      }
    }
  }

  lemma {:induction false} NameIn(names: seq<string>, n: string)
    ensures HasKey(Name, names, n) <==> n in names
  {}

  /** After any sequence of stamps, a session was first seen at the time of its first stamp, and lists
      the sections stamped in it, each once and in the order of their first stamps. */
  lemma {:induction false} SessionAfter<S>(stamps: seq<Stamp<S>>, i: nat)
    requires i < |stamps| && forall j :: 0 <= j < i ==> stamps[j].session != stamps[i].session
    ensures var b, id := StampedAll(Empty<S>(), stamps), stamps[i].session;
            && id in b.sessions && b.sessions[id].firstSeen == stamps[i].now
            && b.sessions[id].sections == FirstByKey(Name, SectionsOf(stamps, id))
    decreases |stamps|
  {
    SectionsAfter(stamps, stamps[i].session);
    var front, last := stamps[..|stamps| - 1], stamps[|stamps| - 1];
    assert stamps == front + [last];
    if i < |front| {
      assert front[i] == stamps[i];
      SessionAfter(front, i);
    } else {
      NoSuchSession(front, last.session);
    }
  }

  lemma {:induction false} NoSuchSession<S>(stamps: seq<Stamp<S>>, id: string)
    requires forall s :: s in stamps ==> s.session != id
    ensures id !in StampedAll(Empty<S>(), stamps).sessions
    decreases |stamps|
  {
    if stamps != [] { NoSuchSession(stamps[..|stamps| - 1], id); }
  }

  /** After any sequence of stamps, a section carries the session of its latest stamp, and the first
      occurrences of all artifacts ever stamped for it. */
  lemma {:induction false} SectionAfter<S>(stamps: seq<Stamp<S>>, i: nat)
    requires i < |stamps| && forall j :: i < j < |stamps| ==> stamps[j].section != stamps[i].section
    ensures var b, n := StampedAll(Empty<S>(), stamps), stamps[i].section;
            && n in b.sections && b.sections[n].session == Some(stamps[i].session)
            && b.sections[n].artifacts == FirstByKey(Name, ArtifactsOf(stamps, n))
    decreases |stamps|
  {
    var front, last := stamps[..|stamps| - 1], stamps[|stamps| - 1];
    var n := stamps[i].section;
    ArtifactsAfter(stamps, n);
    if i < |front| {
      assert front[i] == stamps[i] && forall j :: i < j < |front| ==> front[j] == stamps[j];
      SectionAfter(front, i);
    }
  }

  lemma {:induction false} ArtifactsAfter<S>(stamps: seq<Stamp<S>>, n: string)
    ensures var b := StampedAll(Empty<S>(), stamps);
            FirstByKey(Name, ArtifactsOf(stamps, n)) == if n in b.sections then b.sections[n].artifacts else []
    decreases |stamps|
  {
    if stamps != [] {
      var front, last := stamps[..|stamps| - 1], stamps[|stamps| - 1];
      ArtifactsAfter(front, n);
      assert ArtifactsOf(front, n) + [] == ArtifactsOf(front, n);
      if last.section == n { FirstByKeyTwice(Name, ArtifactsOf(front, n), last.artifacts); }
    }
  }

  // ---- verifying ---------------------------------------------------------------------------

  /** Iterating a ledger's sections visits each name once. */
  ghost predicate Lists(names: seq<string>, keys: set<string>) {
    && (forall i, j :: 0 <= i < j < |names| ==> names[i] != names[j])
    && (forall n :: n in names <==> n in keys)
  }

  /** The session a section was measured in, if it is stamped; an empty id is none. */
  function SessionOf<S>(b: Book<S>, n: string): Option<string> {
    if n in b.sections && b.sections[n].session != Some("") then b.sections[n].session else None
  }

  /** How many of the named sections were measured in a session. */
  function Count<S>(b: Book<S>, names: seq<string>, id: string): nat
  {
    if names == [] then 0
    else (if SessionOf(b, names[0]) == Some(id) then 1 else 0) + Count(b, names[1..], id)
  }

  function StampedCount<S>(b: Book<S>, names: seq<string>): nat
  {
    if names == [] then 0
    else (if SessionOf(b, names[0]).Some? then 1 else 0) + StampedCount(b, names[1..])
  }

  function FirstSeen<S>(b: Book<S>, id: string): string {
    if id in b.sessions then b.sessions[id].firstSeen else ""
  }

  /** The sections measured outside a session, in the order of `names`. */
  function Outside<S>(b: Book<S>, names: seq<string>, id: string): seq<(string, string)>
  {
    if names == [] then []
    else
      var e := SessionOf(b, names[0]);
      (if e.Some? && e.value != id then [(names[0], e.value)] else []) + Outside(b, names[1..], id)
  }

  /** A session's mismatches are the stamped sections it did not measure. */
  lemma {:induction false} OutsideCount<S>(b: Book<S>, names: seq<string>, id: string)
    ensures |Outside(b, names, id)| + Count(b, names, id) == StampedCount(b, names)
  {
    if names != [] { OutsideCount(b, names[1..], id); }
  }

  lemma {:induction false} OutsideHas<S>(b: Book<S>, names: seq<string>, id: string, n: string)
    requires n in names && SessionOf(b, n).Some? && SessionOf(b, n).value != id
    ensures (n, SessionOf(b, n).value) in Outside(b, names, id)
  {
    if names[0] != n {
      assert n in names[1..];
      OutsideHas(b, names[1..], id, n);
    }
  }

  lemma {:induction false} OutsideOnly<S>(b: Book<S>, names: seq<string>, id: string, x: (string, string))
    requires x in Outside(b, names, id)
    ensures x.0 in names && SessionOf(b, x.0) == Some(x.1) && x.1 != id
  {
    var e := SessionOf(b, names[0]);
    if !(e.Some? && e.value != id && x == (names[0], e.value)) {
      OutsideOnly(b, names[1..], id, x);
      assert x.0 in names[1..];
    }
  }

  ghost predicate MeasuredIn<S>(b: Book<S>, n: string, id: string) {
    n in b.sections && b.sections[n].session == Some(id) && id != ""
  }

  /** The stamped sections all come from one session. */
  ghost predicate OneSession<S>(b: Book<S>) {
    forall m, n, id, id' :: MeasuredIn(b, m, id) && MeasuredIn(b, n, id') ==> id == id'
  }

  lemma {:induction false} OneSessionIff<S>(b: Book<S>)
    ensures OneSession(b)
            <==> forall m, n :: SessionOf(b, m).Some? && SessionOf(b, n).Some? ==> SessionOf(b, m) == SessionOf(b, n)
  {
    forall n, id
      ensures MeasuredIn(b, n, id) <==> SessionOf(b, n) == Some(id)
    {
    }
    if OneSession(b) {
      forall m, n | SessionOf(b, m).Some? && SessionOf(b, n).Some?
        ensures SessionOf(b, m) == SessionOf(b, n)
      {
        assert MeasuredIn(b, m, SessionOf(b, m).value) && MeasuredIn(b, n, SessionOf(b, n).value);
      }
    }
  }

  lemma {:induction false} CountPositive<S>(b: Book<S>, names: seq<string>, id: string)
    ensures Count(b, names, id) > 0 <==> exists n :: n in names && SessionOf(b, n) == Some(id)
  {
    if names != [] {
      CountPositive(b, names[1..], id);
      assert names[0] in names && forall n :: n in names[1..] ==> n in names;
      assert forall n :: n in names ==> n == names[0] || n in names[1..];
    }
  }

  /** If the primary session measured some section, it has no mismatch exactly when all stamped
      sections come from one session. */
  lemma {:induction false} NoMismatchIffOneSession<S>(b: Book<S>, names: seq<string>, id: string)
    requires (forall n :: n in names <==> n in b.sections) && Count(b, names, id) > 0
    ensures Outside(b, names, id) == [] <==> OneSession(b)
  {
    OneSessionIff(b);
    CountPositive(b, names, id);
    var p :| p in names && SessionOf(b, p) == Some(id);
    if OneSession(b) && Outside(b, names, id) != [] {
      var x := Outside(b, names, id)[0];
      OutsideOnly(b, names, id, x);
    }
    if Outside(b, names, id) == [] {
      forall n | SessionOf(b, n).Some?
        ensures SessionOf(b, n).value == id
      {
        if SessionOf(b, n).value != id { OutsideHas(b, names, id, n); }
      }
    }
  }

  predicate NameLeq(a: string, b: string) { a == b || Less(a, b) }

  /** What `verify` returns: the session that measured the most sections, the earliest of those, and
      the sections measured elsewhere. */
  ghost predicate Verdict<S>(b: Book<S>, names: seq<string>, primary: Option<string>, mismatches: seq<(string, string)>)
  {
    match primary
    case None => StampedCount(b, names) == 0 && mismatches == []
    case Some(p) =>
      && Count(b, names, p) > 0
      && (forall id :: Count(b, names, id) <= Count(b, names, p))
      && (forall id :: Count(b, names, id) == Count(b, names, p) ==> !Less(FirstSeen(b, id), FirstSeen(b, p)))
      && mismatches == Outside(b, Sort(NameLeq, names), p)
  }

  lemma {:induction false} SortedNames<S>(b: Book<S>, names: seq<string>)
    ensures forall n :: n in Sort(NameLeq, names) <==> n in names
    ensures forall id :: Count(b, Sort(NameLeq, names), id) == Count(b, names, id)
  {
    var sorted := Sort(NameLeq, names);
    SortElements(NameLeq, names);
    assert forall n :: n in sorted <==> n in multiset(sorted);
    assert forall n :: n in names <==> n in multiset(names);
    forall id
      ensures Count(b, sorted, id) == Count(b, names, id)
    {
      CountOfPermutation(b, names, sorted, id);
    }
  }

  lemma {:induction false} CountAppend<S>(b: Book<S>, x: seq<string>, y: seq<string>, id: string)
    ensures Count(b, x + y, id) == Count(b, x, id) + Count(b, y, id)
    ensures StampedCount(b, x + y) == StampedCount(b, x) + StampedCount(b, y)
  {
    if x == [] {
      assert x + y == y;
    } else {
      assert (x + y)[0] == x[0] && (x + y)[1..] == x[1..] + y;
      CountAppend(b, x[1..], y, id);
    }
  }

  lemma {:induction false} CountOfPermutation<S>(b: Book<S>, x: seq<string>, y: seq<string>, id: string)
    requires multiset(x) == multiset(y)
    ensures Count(b, x, id) == Count(b, y, id)
    decreases |x|
  {
    if x == [] {
      assert |multiset(y)| == 0;
    } else {
      var k := TakeOut(x, y);
      CountOfPermutation(b, x[1..], y[..k] + y[k + 1..], id);
      CountAppend(b, y[..k], y[k + 1..], id);
      CountAppend(b, y[..k], [y[k]] + y[k + 1..], id);
      assert ([y[k]] + y[k + 1..])[1..] == y[k + 1..];
    }
  }

  /** The report is refused exactly when two stamped sections come from different sessions, unless
      overridden; and no other session would have had fewer mismatches. */
  lemma {:induction false} RefusedIffMixed<S>(b: Book<S>, names: seq<string>, primary: Option<string>,
                                              mismatches: seq<(string, string)>, allowMixed: bool)
    requires Lists(names, b.sections.Keys) && Verdict(b, names, primary, mismatches)
    ensures mismatches != [] && !allowMixed <==> !OneSession(b) && !allowMixed
    ensures forall id :: |mismatches| <= |Outside(b, Sort(NameLeq, names), id)|
  {
    OneSessionIff(b);
    SortedNames(b, names);
    var sorted := Sort(NameLeq, names);
    match primary
    case None => Unstamped(b, names);
    case Some(p) =>
      NoMismatchIffOneSession(b, sorted, p);
      forall id
        ensures |mismatches| <= |Outside(b, sorted, id)|
      {
        OutsideCount(b, sorted, id);
        OutsideCount(b, sorted, p);
      }
  }

  lemma {:induction false} NamesTotal()
    ensures TotalPreorder(NameLeq)
  {
    forall a, b
      ensures NameLeq(a, b) || NameLeq(b, a)
    {
      LessTotal(a, b);
    }
    forall a, b, c
      ensures NameLeq(a, b) && NameLeq(b, c) ==> NameLeq(a, c)
    {
      if Less(a, b) && Less(b, c) { LessTransitive(a, b, c); }
    }
  }

  lemma {:induction false} OutsideSorted<S>(b: Book<S>, names: seq<string>, id: string)
    requires Sorted(NameLeq, names)
    ensures forall i, j :: 0 <= i < j < |Outside(b, names, id)| ==>
              !Less(Outside(b, names, id)[j].0, Outside(b, names, id)[i].0)
  {
    if names != [] {
      var rest := Outside(b, names[1..], id);
      OutsideSorted(b, names[1..], id);
      forall j | 0 <= j < |rest|
        ensures !Less(rest[j].0, names[0])
      {
        OutsideOnly(b, names[1..], id, rest[j]);
        var k :| 0 <= k < |names[1..]| && names[1..][k] == rest[j].0;
        assert NameLeq(names[0], names[k + 1]);
        NotBefore(names[0], rest[j].0);
      }
    }
  }

  lemma {:induction false} NotBefore(a: string, b: string)
    requires NameLeq(a, b)
    ensures !Less(b, a)
  {
    LessIrreflexive(a);
    if Less(a, b) && Less(b, a) { LessTransitive(a, b, a); }
  }

  /** The mismatches are exactly the sections measured outside the primary session, by rising name; and a session
      without a record counts as the earliest. */
  lemma {:induction false} MismatchesAre<S>(b: Book<S>, names: seq<string>, p: string,
                                            mismatches: seq<(string, string)>)
    requires Lists(names, b.sections.Keys) && Verdict(b, names, Some(p), mismatches)
    ensures forall n, id :: (n, id) in mismatches <==> MeasuredIn(b, n, id) && id != p
    ensures forall i, j :: 0 <= i < j < |mismatches| ==> !Less(mismatches[j].0, mismatches[i].0)
    ensures forall id :: id !in b.sessions && Count(b, names, id) == Count(b, names, p) ==>
              p !in b.sessions || b.sessions[p].firstSeen == ""
  {
    var sorted := Sort(NameLeq, names);
    SortedNames(b, names);
    NamesTotal();
    SortSorted(NameLeq, names);
    OutsideSorted(b, sorted, p);
    forall n, id
      ensures (n, id) in mismatches <==> MeasuredIn(b, n, id) && id != p
    {
      if (n, id) in mismatches { OutsideOnly(b, sorted, p, (n, id)); }
      if MeasuredIn(b, n, id) && id != p { OutsideHas(b, sorted, p, n); }
    }
  }

  lemma {:induction false} Unstamped<S>(b: Book<S>, names: seq<string>)
    requires StampedCount(b, names) == 0
    ensures forall n :: n in names ==> SessionOf(b, n).None?
  {
    if names != [] {
      Unstamped(b, names[1..]);
      assert forall n :: n in names ==> n == names[0] || n in names[1..];
    }
  }

  // ---- the ledger itself --------------------------------------------------------------------------

  class SessionLedger<S> {
    var sessions: map<string, Session<S>>
    var sections: map<string, Entry>

    ghost function Value(): Book<S>
      reads this
    {
      Book(sessions, sections)
    }

    constructor ()
      ensures Value() == Empty()
    {
      sessions, sections := map[], map[];
    }

    method AddStamp(s: Stamp<S>)
      modifies this
      ensures Value() == Stamped(old(Value()), s)
      ensures old(Inv(Value())) ==> Inv(Value())
    {
      if Inv(Value()) { StampKeepsInv(Value(), s); }
      var session := if s.session in sessions then sessions[s.session] else Session(s.now, [], []);
      if s.section !in session.sections {
        session := session.(sections := session.sections + [s.section]);
      }
      session := session.(calibrations := Recent(session.calibrations + [s.sample]));
      var existing := if s.section in sections then sections[s.section].artifacts else [];
      var artifacts := FilterSeen(Name, existing + s.artifacts);
      sessions := sessions[s.session := session];
      sections := sections[s.section := Entry(Some(s.session), artifacts)];
    }

    /** Counts sections per session, and picks the primary one. */
    method Verify(names: seq<string>) returns (primary: Option<string>, mismatches: seq<(string, string)>)
      requires Lists(names, sections.Keys)
      ensures Verdict(Value(), names, primary, mismatches)
    {
      var counts: map<string, nat> := map[];
      var b := Book(sessions, sections);
      assert names[..0] == [];
      for i := 0 to |names|
        invariant forall id :: id in counts <==> Count(b, names[..i], id) > 0
        invariant forall id :: id in counts ==> counts[id] == Count(b, names[..i], id)
        invariant counts == map[] <==> StampedCount(b, names[..i]) == 0
      {
        CountSnoc(b, names, i);
        var e := sections[names[i]].session;
        if e.Some? && e.value != "" {
          counts := counts[e.value := (if e.value in counts then counts[e.value] else 0) + 1];
        }
      }
      assert names[..|names|] == names;
      if counts == map[] { return None, []; }
      var left := counts.Keys;
      var best :| best in left;
      left := left - {best};
      LessIrreflexive(FirstSeen(b, best));
      while left != {}
        invariant left <= counts.Keys && best in counts
        invariant forall id :: id in counts && id !in left ==> counts[id] <= counts[best]
        invariant forall id :: id in counts && id !in left && counts[id] == counts[best] ==>
                    !Less(FirstSeen(b, id), FirstSeen(b, best))
        decreases left
      {
        var id :| id in left;
        left := left - {id};
        if counts[id] > counts[best] || (counts[id] == counts[best] && Less(FirstSeen(b, id), FirstSeen(b, best))) {
          NewBest(b, counts, left, best, id);
          best := id;
        }
      }
      primary := Some(best);
      var sorted := Sort(NameLeq, names);
      SortedNames(b, names);
      mismatches := Outside(b, sorted, best);
    }
  }

  lemma {:induction false} CountSnoc<S>(b: Book<S>, names: seq<string>, i: nat)
    requires i < |names|
    ensures var e := SessionOf(b, names[i]);
            && StampedCount(b, names[..i + 1]) == StampedCount(b, names[..i]) + (if e.Some? then 1 else 0)
            && forall id ::
                 Count(b, names[..i + 1], id) == Count(b, names[..i], id) + (if e == Some(id) then 1 else 0)
  {
    assert names[..i + 1] == names[..i] + [names[i]];
    CountAppend(b, names[..i], [names[i]], "");
    forall id
      ensures Count(b, names[..i + 1], id)
              == Count(b, names[..i], id) + (if SessionOf(b, names[i]) == Some(id) then 1 else 0)
    {
      CountAppend(b, names[..i], [names[i]], id);
    }
  }

  lemma {:induction false} NewBest<S>(b: Book<S>, counts: map<string, nat>, left: set<string>, best: string, id: string)
    requires best in counts && id in counts
    requires forall x :: x in counts && x !in left && x != id ==> counts[x] <= counts[best]
    requires forall x :: x in counts && x !in left && x != id && counts[x] == counts[best] ==>
               !Less(FirstSeen(b, x), FirstSeen(b, best))
    requires counts[id] > counts[best] || (counts[id] == counts[best] && Less(FirstSeen(b, id), FirstSeen(b, best)))
    ensures forall x :: x in counts && x !in left ==> counts[x] <= counts[id]
    ensures forall x :: x in counts && x !in left && counts[x] == counts[id] ==>
              !Less(FirstSeen(b, x), FirstSeen(b, id))
  {
    LessIrreflexive(FirstSeen(b, id));
    forall x | x in counts && x !in left && counts[x] == counts[id] && x != id
      ensures !Less(FirstSeen(b, x), FirstSeen(b, id))
    {
      if Less(FirstSeen(b, x), FirstSeen(b, id)) && Less(FirstSeen(b, id), FirstSeen(b, best)) {
        LessTransitive(FirstSeen(b, x), FirstSeen(b, id), FirstSeen(b, best));
      }
    }
  }
}
