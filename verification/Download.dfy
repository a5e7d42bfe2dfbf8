/** The resumable download (`download_file`): a partial file is continued by range
    requests (sections 14.2 and 15.3.7 of RFC 9110) and renamed when it is complete. */
module Download {
  import opened Seqs

  /** How a response body ends: the stream is closed, or an exception interrupts the read loop. */
  datatype Ending = Closed | Broken

  /** What one attempt meets: no usable response (refused, timed out, 4xx, 5xx), or a body in chunks.
      `openFails` is a failure to open the partial file. */
  datatype Reply<B> =
    | Refused
    | Serves(partial: bool, length: Option<nat>, openFails: bool, chunks: seq<seq<B>>, ending: Ending)

  /** The partial file, the finished file, and the loop's byte count. */
  datatype State<B> = State(part: Option<seq<B>>, file: Option<seq<B>>, pos: nat)

  function Size<B>(part: Option<seq<B>>): nat {
    if part.Some? then |part.value| else 0
  }

  // ---- one attempt ---------------------------------------------------------------------

  function Attempt<B>(s: State<B>, reply: Reply<B>): State<B> {
    match reply
    case Refused => s
    case Serves(partial, length, openFails, chunks, ending) =>
      var resumed := partial && s.pos > 0;
      var start := if resumed then s.pos else 0;
      if openFails then s.(pos := start)
      else
        var body := Flatten(chunks);
        var kept := if resumed && s.part.Some? then s.part.value else [];
        var total := start + (if length.Some? then length.value else 0);
        var pos := start + |body|;
        if ending.Broken? || (total > 0 && pos < total) then State(Some(kept + body), None, pos)
        else State(None, Some(kept + body), pos)
  }

  /** Attempts until one completes or they run out. */
  function Attempts<B>(s: State<B>, replies: seq<Reply<B>>): State<B>
    decreases |replies|
  {
    if replies == [] || s.file.Some? then s else Attempts(Attempt(s, replies[0]), replies[1..])
  }

  /** One call of the downloader: skip if the file exists, otherwise start from the partial file's size. */
  function Call<B>(s: State<B>, replies: seq<Reply<B>>): State<B> {
    if s.file.Some? then s else Attempts(s.(pos := Size(s.part)), replies)
  }

  function Calls<B>(s: State<B>, calls: seq<seq<Reply<B>>>): State<B>
    decreases |calls|
  {
    if calls == [] then s else Calls(Call(s, calls[0]), calls[1..])
  }

  // ---- a server that honours ranges ------------------------------------------------------

  /** A 206 continues the requested range and a 200 starts over; a body may stop early; a
      Content-Length states the full length of the body that was begun. */
  ghost predicate Honours<B>(remote: seq<B>, pos: nat, reply: Reply<B>) {
    reply.Serves? ==>
      var from := if reply.partial then pos else 0;
      && (reply.partial ==> 0 < pos < |remote|)
      && from <= |remote|
      && Flatten(reply.chunks) <= remote[from..]
      && (reply.length.Some? ==> reply.length.value == |remote| - from)
  }

  /** The server answers every attempt of a call honestly, at the position the loop asks for. */
  ghost predicate HonestReplies<B>(remote: seq<B>, s: State<B>, replies: seq<Reply<B>>)
    decreases |replies|
  {
    replies == [] || s.file.Some?
    || (Honours(remote, s.pos, replies[0]) && HonestReplies(remote, Attempt(s, replies[0]), replies[1..]))
  }

  ghost predicate HonestCalls<B>(remote: seq<B>, s: State<B>, calls: seq<seq<Reply<B>>>)
    decreases |calls|
  {
    calls == []
    || ((s.file.None? ==> HonestReplies(remote, s.(pos := Size(s.part)), calls[0]))
        && HonestCalls(remote, Call(s, calls[0]), calls[1..]))
  }

  // ---- the partial file is always a prefix ---------------------------------------------------

  /** `pos` is the partial file's size, except after a fallback whose file could not be opened. */
  ghost predicate Inv<B>(remote: seq<B>, s: State<B>) {
    && (s.part.Some? ==> s.part.value <= remote)
    && (s.file.None? ==> s.pos == 0 || (s.part.Some? && s.pos == |s.part.value|))
    && (s.file.Some? ==> s.file.value <= remote && s.pos == |s.file.value|)
  }

  lemma {:induction false} AttemptKeepsPrefix<B>(remote: seq<B>, s: State<B>, reply: Reply<B>)
    requires Inv(remote, s) && s.file.None? && Honours(remote, s.pos, reply)
    ensures Inv(remote, Attempt(s, reply))
  {
    if reply.Serves? && !reply.openFails {
      var resumed := reply.partial && s.pos > 0;
      var body := Flatten(reply.chunks);
      var kept := if resumed && s.part.Some? then s.part.value else [];
      if resumed { assert kept == remote[..s.pos] && kept + remote[s.pos..] == remote; }
      assert kept + body <= remote;
    }
  }

  /** The bytes that the partial or the finished file holds. */
  function Held<B>(s: State<B>): seq<B> {
    if s.file.Some? then s.file.value else if s.part.Some? then s.part.value else []
  }

  /** A 206 adds all that arrived to what was there, whether or not the body breaks off, and only a 200
      starts the file over; an attempt completes exactly when its body ends in order, and with the
      announced length if there is one. */
  lemma {:induction false} AttemptKeepsArrived<B>(remote: seq<B>, s: State<B>, reply: Reply<B>)
    requires Inv(remote, s) && s.file.None? && Honours(remote, s.pos, reply)
    ensures var t := Attempt(s, reply);
            && (reply.Serves? && !reply.openFails ==>
                  && Held(t) == (if reply.partial then Held(s) else []) + Flatten(reply.chunks)
                  && (t.file.Some? <==> reply.ending.Closed?
                                        && (reply.length.Some? ==> |Flatten(reply.chunks)| == reply.length.value)))
            && (!(reply.Serves? && !reply.openFails) ==> Held(t) == Held(s) && t.file.None?)
  {
    if reply.Serves? && !reply.openFails { assert |Flatten(reply.chunks)| <= |remote|; }
  }

  /** A request for the whole object starts the file over, whatever status its response has. */
  lemma {:induction false} WholeRequestStartsOver<B>(s: State<B>, reply: Reply<B>)
    requires s.pos == 0 && s.file.None? && reply.Serves? && !reply.openFails
    ensures Held(Attempt(s, reply)) == Flatten(reply.chunks)
  {
    assert [] + Flatten(reply.chunks) == Flatten(reply.chunks);
  }

  /** What arrived over some attempts. */
  function Arrived<B>(replies: seq<Reply<B>>): seq<B> {
    if replies == [] then []
    else (if replies[0].Serves? && !replies[0].openFails then Flatten(replies[0].chunks) else [])
         + Arrived(replies[1..])
  }

  /** Unless the server falls back to a 200, the file only grows over a call, and a call that does not
      complete holds all that ever arrived. */
  lemma {:induction false} ResumedCallGrows<B>(remote: seq<B>, s: State<B>, replies: seq<Reply<B>>)
    requires Inv(remote, s) && HonestReplies(remote, s, replies)
    requires forall r :: r in replies && r.Serves? ==> r.partial
    ensures var t := Attempts(s, replies);
            Held(s) <= Held(t) <= Held(s) + Arrived(replies)
            && (t.file.None? ==> Held(t) == Held(s) + Arrived(replies))
    decreases |replies|
  {
    if replies != [] && s.file.None? {
      var t := Attempt(s, replies[0]);
      AttemptKeepsArrived(remote, s, replies[0]);
      AttemptKeepsPrefix(remote, s, replies[0]);
      ResumedCallGrows(remote, t, replies[1..]);
      GrowsBy(Held(s), Held(t), Held(Attempts(s, replies)), Arrived(replies), Arrived(replies[1..]));
    }
  }

  lemma {:induction false} GrowsBy<B>(a: seq<B>, b: seq<B>, c: seq<B>, all: seq<B>, rest: seq<B>)
    requires a <= b <= c <= b + rest && exists x :: b == a + x && all == x + rest
    ensures a <= c <= a + all && a + all == b + rest
  {
    var x :| b == a + x && all == x + rest;
    Regroup(a, x, rest);
  }

  /** A completed attempt has the whole object exactly when the server announced a length or the
      body it sent was complete. */
  lemma {:induction false} CompletedIsWholeIff<B>(remote: seq<B>, s: State<B>, reply: Reply<B>)
    requires Inv(remote, s) && s.file.None? && Honours(remote, s.pos, reply)
    requires Attempt(s, reply).file.Some?
    ensures reply.Serves?
    ensures Attempt(s, reply).file.value == remote
            <==> reply.length.Some? || |Flatten(reply.chunks)| == |remote| - (if reply.partial then s.pos else 0)
  {
    AttemptKeepsPrefix(remote, s, reply);
    var t := Attempt(s, reply);
    assert t.file.value <= remote && t.pos == |t.file.value|;
  }

  ghost predicate AllLengths<B>(replies: seq<Reply<B>>) {
    forall i :: 0 <= i < |replies| && replies[i].Serves? ==> replies[i].length.Some?
  }

  lemma {:induction false} AttemptsKeepPrefix<B>(remote: seq<B>, s: State<B>, replies: seq<Reply<B>>)
    requires Inv(remote, s) && HonestReplies(remote, s, replies)
    ensures Inv(remote, Attempts(s, replies))
    ensures AllLengths(replies) && s.file.None? && Attempts(s, replies).file.Some?
            ==> Attempts(s, replies).file.value == remote
    decreases |replies|
  {
    if replies != [] && s.file.None? {
      AttemptKeepsPrefix(remote, s, replies[0]);
      var t := Attempt(s, replies[0]);
      if t.file.Some? { CompletedIsWholeIff(remote, s, replies[0]); }
      AttemptsKeepPrefix(remote, t, replies[1..]);
    }
  }

  /** Over any number of calls and attempts, whether the server resumes, starts over, refuses or
      drops early, the partial file is a prefix of the object; and if every answer announced its
      length, a finished file is the object. */
  lemma {:induction false} CallsKeepPrefix<B>(remote: seq<B>, s: State<B>, calls: seq<seq<Reply<B>>>)
    requires Inv(remote, s) && HonestCalls(remote, s, calls)
    ensures Inv(remote, Calls(s, calls))
    ensures (forall i :: 0 <= i < |calls| ==> AllLengths(calls[i])) && s.file.None? && Calls(s, calls).file.Some?
            ==> Calls(s, calls).file.value == remote
    decreases |calls|
  {
    if calls != [] {
      if s.file.None? { AttemptsKeepPrefix(remote, s.(pos := Size(s.part)), calls[0]); }
      var t := Call(s, calls[0]);
      if t.file.Some? { CallsStop(t, calls[1..]); }
      CallsKeepPrefix(remote, t, calls[1..]);
    }
  }

  lemma {:induction false} CallsStop<B>(s: State<B>, calls: seq<seq<Reply<B>>>)
    requires s.file.Some?
    ensures Calls(s, calls) == s
    decreases |calls|
  {
    if calls != [] { CallsStop(s, calls[1..]); }
  }

  // ---- when a retry can complete ------------------------------------------------------------------

  /** The best a range-supporting server can do: the whole object, the whole rest of it, or a
      refusal when the range starts at or past the end (section 15.5.17 of RFC 9110). */
  function BestReply<B>(remote: seq<B>, pos: nat): Reply<B> {
    if pos == 0 then Serves(false, Some(|remote|), false, [remote], Closed)
    else if pos < |remote| then Serves(true, Some(|remote| - pos), false, [remote[pos..]], Closed)
    else Refused
  }

  /** Such a server completes the download at once, unless the partial file already is the whole
      object: then the attempt fails and changes nothing. */
  lemma {:induction false} BestReplyCompletesIff<B>(remote: seq<B>, s: State<B>)
    requires Inv(remote, s) && s.file.None?
    ensures Honours(remote, s.pos, BestReply(remote, s.pos))
    ensures Attempt(s, BestReply(remote, s.pos)).file == Some(remote) <==> s.pos == 0 || s.pos < |remote|
    ensures s.pos == |remote| > 0 ==> Attempt(s, BestReply(remote, s.pos)) == s
  {
    assert Flatten([remote]) == remote + Flatten([remote][1..]) == remote && [] + remote == remote;
    if 0 < s.pos < |remote| {
      var rest := remote[s.pos..];
      assert Flatten([rest]) == rest + Flatten([rest][1..]) == rest;
      assert s.part.value + rest == remote;
    }
  }

  /** A server that always serves the requested range never answers a request past the end. */
  ghost predicate Ranging<B>(pos: nat, reply: Reply<B>) {
    pos > 0 && reply.Serves? ==> reply.partial
  }

  /** Once the partial file is the whole object, no number of attempts against a server that
      honours ranges finishes the download. */
  lemma {:induction false} WholePartNeverCompletes<B>(remote: seq<B>, s: State<B>, replies: seq<Reply<B>>)
    requires s.part == Some(remote) && s.file.None? && s.pos == |remote| > 0
    requires forall i :: 0 <= i < |replies| ==> Honours(remote, |remote|, replies[i]) && Ranging(|remote|, replies[i])
    ensures Attempts(s, replies) == s
    decreases |replies|
  {
    if replies != [] { WholePartNeverCompletes(remote, s, replies[1..]); }
  }

  /** That state is reachable: the body arrives completely, but the read loop ends in an exception. */
  lemma {:induction false} WholePartReachable<B>(remote: seq<B>)
    requires remote != []
    ensures var reply := Serves(false, None, false, [remote], Broken);
            && Honours(remote, 0, reply)
            && Call(State(None, None, 0), [reply]) == State(Some(remote), None, |remote|)
  {
    var reply := Serves(false, None, false, [remote], Broken);
    assert Flatten([remote]) == remote + Flatten([remote][1..]) == remote && [] + remote == remote;
    var s: State<B> := State(None, None, 0);
    assert Attempt(s, reply) == State(Some(remote), None, |remote|);
    assert [reply][1..] == [] && Attempts(s, [reply]) == Attempts(Attempt(s, reply), []);
    assert s.(pos := Size(s.part)) == s;
  }

  // ---- the downloader itself ----------------------------------------------------------------------

  class Downloader<B> {
    var part: Option<seq<B>>
    var file: Option<seq<B>>

    constructor ()
      ensures part == None && file == None
    {
      part, file := None, None;
    }

    /** One turn of the retry loop: the request, the read loop, the early-close test and the rename. */
    method Try(pos: nat, reply: Reply<B>) returns (pos': nat)
      requires file == None && (pos > 0 ==> part.Some?)
      modifies this
      ensures State(part, file, pos') == Attempt(old(State(part, file, pos)), reply)
    {
      pos' := pos;
      match reply
      case Refused =>
      case Serves(partial, length, openFails, chunks, ending) =>
        var resumed := partial && pos' > 0;
        if !resumed { pos' := 0; }
        var total := pos' + (if length.Some? then length.value else 0);
        if openFails { return; }
        if !resumed { part := Some([]); }
        ghost var start, kept := pos', part.value;
        assert Flatten(chunks[..0]) == [] && kept + [] == kept;
        for i := 0 to |chunks|
          invariant part == Some(kept + Flatten(chunks[..i])) && pos' == start + |Flatten(chunks[..i])|
          invariant file == None
        {
          FlattenSnoc(chunks[..i], chunks[i]);
          assert chunks[..i + 1] == chunks[..i] + [chunks[i]];
          Regroup(kept, Flatten(chunks[..i]), chunks[i]);
          part := Some(part.value + chunks[i]);
          pos' := pos' + |chunks[i]|;
        }
        assert chunks[..|chunks|] == chunks;
        if ending.Broken? { return; }
        if total > 0 && pos' < total { return; }
        file, part := part, None;
    }

    method DownloadFile(replies: seq<Reply<B>>) returns (ok: bool)
      modifies this
      ensures ok == file.Some?
      ensures State(part, file, 0) == Call(State(old(part), old(file), 0), replies).(pos := 0)
    {
      if file.Some? { return true; }
      var pos := Size(part);
      ghost var end := Call(State(part, file, 0), replies);
      for i := 0 to |replies|
        invariant file == None && (pos > 0 ==> part.Some?)
        invariant Attempts(State(part, file, pos), replies[i..]) == end
      {
        assert replies[i..][0] == replies[i] && replies[i..][1..] == replies[i + 1..];
        pos := Try(pos, replies[i]);
        if file.Some? { return true; }
      }
      return false;
    }
  }
}
