/**
 The downloader as the agent runs it, one attempt at a time: what the connection and the disk do to an attempt
 are its parameters, and every change it makes is a step of Downloads, listed in the ghost result `trace`.
 */
module Downloader {
  import opened Wrappers
  import opened Ranking
  import opened Downloads

  const DEFAULT_MAX_LOCAL_VERSIONS := 3

  type Positive = n: nat | n >= 1 witness 1

  datatype Reply = NoReply | Status200 | Status206 | OtherStatus

  /** The reply, the body as it is read, whether it is read to its end, and the first file operation to fail. */
  datatype Exchange = Exchange(reply: Reply, body: seq<Bytes>, whole: bool, failAt: nat)

  /** Two artifacts have the same digest only when they are the same. */
  datatype Digest = Sha256(of: Bytes) | OtherText(text: string)

  datatype DownloadResult = DownloadResult(dir: Dir, checksum: Digest, size: nat)

  datatype DownloadError = MkdirFailed | FetchFailed | ChecksumFailed | StatFailed

  function Flatten(body: seq<Bytes>): Bytes {
    if |body| == 0 then [] else Flatten(body[..|body| - 1]) + body[|body| - 1]
  }

  /** What the reply promises to a request for all that follows `size` bytes. */
  function Promised(s: Server, key: ArtifactKey, size: nat, reply: Reply): Option<Bytes> {
    if key !in s.artifacts then None
    else if reply == Status200 && (s.ranges ==> size == 0) then Some(s.artifacts[key])
    else if reply == Status206 && 0 < size < |s.artifacts[key]| then Some(s.artifacts[key][size..])
    else None
  }

  /** A success reply carries what it promises, or less of it and then an error. */
  ghost predicate IsExchange(s: Server, key: ArtifactKey, size: nat, x: Exchange) {
    x.reply in {Status200, Status206} ==>
      var promised := Promised(s, key, size, x.reply);
      && promised.Some?
      && Flatten(x.body) <= promised.value
      && (x.whole ==> Flatten(x.body) == promised.value)
  }

  lemma {:induction false} FlattenPrefix(body: seq<Bytes>, i: nat)
    requires i <= |body|
    ensures Flatten(body[..i]) <= Flatten(body)
    decreases |body|
  {
    if i < |body| {
      var n := |body| - 1;
      FlattenPrefix(body[..n], i);
      assert body[..n][..i] == body[..i];
    } else {
      assert body[..i] == body;
    }
  }

  lemma {:induction false} RunSplit(s: Server, w: Disk, a: seq<Step>, b: seq<Step>)
    ensures Run(s, w, a + b) == Run(s, Run(s, w, a), b)
    decreases |b|
  {
    if |b| == 0 {
      assert a + b == a;
    } else {
      var n := |b| - 1;
      RunSplit(s, w, a, b[..n]);
      assert (a + b)[..|a + b| - 1] == a + b[..n];
    }
  }

  /** One more chunk of the body is one more copying step. */
  lemma CopyChunk(s: Server, w: Disk, dir: Dir, key: ArtifactKey, from: nat, body: seq<Bytes>, i: nat, promised: Bytes)
    requires i < |body| && key in s.artifacts && from <= |s.artifacts[key]| && promised == s.artifacts[key][from..]
    requires Flatten(body) <= promised
    requires dir in w.flights && w.flights[dir] == Copying(key, from + |Flatten(body[..i])|)
    requires dir in w.dirs && w.dirs[dir].part.Some?
    ensures var v := Do(s, w, Copy(dir, |body[i]|));
            && v.dirs == w.dirs[dir := w.dirs[dir].(part := Some(w.dirs[dir].part.value + body[i]))]
            && v.flights == w.flights[dir := Copying(key, from + |Flatten(body[..i + 1])|)]
    ensures Flatten(body[..i + 1]) == Flatten(body[..i]) + body[i]
  {
    FlattenPrefix(body, i + 1);
    assert body[..i + 1][..i] == body[..i];
    var a := |Flatten(body[..i])|;
    var b := a + |body[i]|;
    assert Flatten(body[..i + 1]) == promised[..b];
    assert s.artifacts[key][from + a..from + b] == promised[a..b] == body[i];
  }

  function Put(dirs: map<Dir, DirState>, dir: Dir, part: Option<Bytes>, dest: Option<Bytes>): map<Dir, DirState> {
    dirs[dir := DirState(part, dest)]
  }

  /** One turn of the copying loop, on the disk and in the run. */
  lemma CopiedChunk(
    s: Server, start: Disk, steps: seq<Step>, dirs: map<Dir, DirState>, dir: Dir, key: ArtifactKey, from: nat,
    had: Bytes, body: seq<Bytes>, i: nat)
    requires i < |body| && key in s.artifacts && from <= |s.artifacts[key]|
    requires Flatten(body) <= s.artifacts[key][from..]
    requires dir in dirs && dirs[dir].part == Some(had + Flatten(body[..i]))
    requires Run(s, start, steps) == Disk(dirs, map[dir := Copying(key, from + |Flatten(body[..i])|)])
    ensures var part := had + Flatten(body[..i + 1]);
            && part == dirs[dir].part.value + body[i]
            && Run(s, start, steps + [Copy(dir, |body[i]|)])
                 == Disk(Put(dirs, dir, Some(part), dirs[dir].dest),
                         map[dir := Copying(key, from + |Flatten(body[..i + 1])|)])
  {
    CopyChunk(s, Run(s, start, steps), dir, key, from, body, i, s.artifacts[key][from..]);
    RunOne(s, start, steps, Copy(dir, |body[i]|));
    assert had + Flatten(body[..i]) + body[i] == had + Flatten(body[..i + 1]);
  }

  /** An attempt from its start to the opening of the partial file. */
  lemma Opened(s: Server, dirs: map<Dir, DirState>, key: ArtifactKey, x: Exchange)
    requires ModelDir(key) in dirs && x.reply in {Status200, Status206}
    requires IsExchange(s, key, PartSize(dirs, ModelDir(key)), x)
    ensures var dir := ModelDir(key);
            var size := if x.reply == Status200 then 0 else PartSize(dirs, dir);
            var part := if size == 0 then Some([]) else dirs[dir].part;
            && key in s.artifacts && size <= |s.artifacts[key]|
            && Promised(s, key, PartSize(dirs, dir), x.reply) == Some(s.artifacts[key][size..])
            && part.Some?
            && Run(s, Disk(dirs, map[]), [Start(key)]
                + [if x.reply == Status200 then AnswerFull(dir) else AnswerPartial(dir)])
                 == Disk(Put(dirs, dir, part, dirs[dir].dest), map[dir := Copying(key, size)])
  {
    var dir := ModelDir(key);
    var start := Disk(dirs, map[]);
    var answer := if x.reply == Status200 then AnswerFull(dir) else AnswerPartial(dir);
    RunOne(s, start, [], Start(key));
    assert [] + [Start(key)] == [Start(key)];
    assert Run(s, start, [Start(key)]) == Disk(dirs, map[dir := Requested(key, PartSize(dirs, dir))]);
    RunOne(s, start, [Start(key)], answer);
    assert s.artifacts[key][0..] == s.artifacts[key];
  }

  lemma Refused(s: Server, dirs: map<Dir, DirState>, key: ArtifactKey)
    requires ModelDir(key) in dirs
    ensures Run(s, Disk(dirs, map[]), [Start(key)] + [Abort(ModelDir(key))]) == Disk(dirs, map[])
  {
    var start := Disk(dirs, map[]);
    RunOne(s, start, [], Start(key));
    assert [] + [Start(key)] == [Start(key)];
    RunOne(s, start, [Start(key)], Abort(ModelDir(key)));
  }

  lemma Aborted(s: Server, start: Disk, steps: seq<Step>, dirs: map<Dir, DirState>, dir: Dir, f: Flight)
    requires Run(s, start, steps) == Disk(dirs, map[dir := f])
    ensures Run(s, start, steps + [Abort(dir)]) == Disk(dirs, map[])
  {
    RunOne(s, start, steps, Abort(dir));
  }

  /** A rename leaves the artifact, if the attempt began in a state that a run can reach. */
  lemma Renamed(s: Server, start: Disk, steps: seq<Step>, dirs: map<Dir, DirState>, dir: Dir, key: ArtifactKey)
    requires key in s.artifacts && dir in dirs && dirs[dir].part.Some?
    requires Run(s, start, steps) == Disk(dirs, map[dir := Copying(key, |s.artifacts[key]|)])
    ensures Run(s, start, steps + [Finish(dir)]) == Disk(Put(dirs, dir, None, dirs[dir].part), map[])
    ensures Compatible(s) && Inv(s, start) ==> dirs[dir].part == Some(s.artifacts[key])
  {
    RunOne(s, start, steps, Finish(dir));
    if Compatible(s) && Inv(s, start) {
      InvAlways(s, start, steps);
      CompletionIsExact(s, Run(s, start, steps), Finish(dir));
    }
  }

  /** One more directory removed. */
  lemma PrunedOne(s: Server, start: Disk, steps: seq<Step>, dirs: map<Dir, DirState>, d: Dir)
    requires Run(s, start, steps) == Disk(dirs, map[])
    ensures Run(s, start, steps + [Prune(d)]) == Disk(dirs - {d}, map[])
  {
    RunOne(s, start, steps, Prune(d));
  }

  lemma DiscardedOne(s: Server, start: Disk, steps: seq<Step>, dirs: map<Dir, DirState>, d: Dir)
    requires Run(s, start, steps) == Disk(dirs, map[]) && d in dirs
    ensures Run(s, start, steps + [Discard(d)]) == Disk(Put(dirs, d, dirs[d].part, None), map[])
  {
    RunOne(s, start, steps, Discard(d));
  }

  /** No directory of the listing was modified as late as `d`. */
  ghost predicate IsLatest(times: map<Dir, int>, d: Dir) {
    d in times && forall e :: e in times && e != d ==> times[e] < times[d]
  }

  lemma LatestIsFirst(order: seq<Dir>, times: map<Dir, int>, keep: Positive)
    requires IsListing(order, times) && keep <= |order|
    ensures forall d :: IsLatest(times, d) ==> d !in order[keep..]
  {
    forall d | IsLatest(times, d) ensures d !in order[keep..] {
      assert order[0] in order;
      assert forall i :: 0 < i < |order| ==> times[order[0]] >= times[order[i]] && order[i] != order[0];
    }
  }

  lemma MadeDir(s: Server, dirs: map<Dir, DirState>, key: ArtifactKey)
    ensures Run(s, Disk(dirs, map[]), [Start(key)] + [Abort(ModelDir(key))])
        == Disk(WithDir(dirs, ModelDir(key)), map[])
    ensures Inv(s, Disk(dirs, map[])) ==> Inv(s, Disk(WithDir(dirs, ModelDir(key)), map[]))
  {
    var start := Disk(dirs, map[]);
    RunOne(s, start, [], Start(key));
    assert [] + [Start(key)] == [Start(key)];
    RunOne(s, start, [Start(key)], Abort(ModelDir(key)));
  }

  class Downloader {
    var dirs: map<Dir, DirState>
    const maxLocalVersions: Positive

    constructor (maxVersions: int)
      ensures dirs == map[]
      ensures maxLocalVersions == if maxVersions <= 0 then 3 else maxVersions
    {
      dirs := map[];
      maxLocalVersions := if maxVersions <= 0 then DEFAULT_MAX_LOCAL_VERSIONS else maxVersions;
    }

    /** The copying loop; `steps` is what the attempt has done so far. */
    method CopyBody(
      dir: Dir, body: seq<Bytes>, ghost s: Server, ghost key: ArtifactKey, ghost from: nat, ghost start: Disk,
      ghost steps: seq<Step>)
      returns (ghost trace: seq<Step>)
      requires key in s.artifacts && from <= |s.artifacts[key]| && Flatten(body) <= s.artifacts[key][from..]
      requires dir in dirs && dirs[dir].part.Some?
      requires Run(s, start, steps) == Disk(dirs, map[dir := Copying(key, from)])
      modifies this`dirs
      ensures Run(s, start, trace) == Disk(dirs, map[dir := Copying(key, from + |Flatten(body)|)])
      ensures dirs == Put(old(dirs), dir, Some(old(dirs)[dir].part.value + Flatten(body)), old(dirs)[dir].dest)
    {
      trace := steps;
      ghost var was := dirs;
      ghost var had := dirs[dir].part.value;
      assert had + Flatten(body[..0]) == had;
      var i := 0;
      while i < |body|
        invariant 0 <= i <= |body|
        invariant dirs == Put(was, dir, Some(had + Flatten(body[..i])), was[dir].dest)
        invariant Run(s, start, trace) == Disk(dirs, map[dir := Copying(key, from + |Flatten(body[..i])|)])
      {
        CopiedChunk(s, start, trace, dirs, dir, key, from, had, body, i);
        trace := trace + [Copy(dir, |body[i]|)];
        dirs := dirs[dir := dirs[dir].(part := Some(dirs[dir].part.value + body[i]))];
        i := i + 1;
      }
      assert body[..i] == body;
    }

    /** File operations: 0 builds the request, 1 opens the partial file, 2 closes it, 3 renames it. */
    method DownloadWithResume(key: ArtifactKey, x: Exchange, ghost s: Server) returns (ok: bool, ghost trace: seq<Step>)
      requires ModelDir(key) in dirs
      requires IsExchange(s, key, PartSize(dirs, ModelDir(key)), x)
      modifies this`dirs
      ensures ok <==> x.reply in {Status200, Status206} && x.whole && x.failAt > 3
      ensures Run(s, Disk(old(dirs), map[]), trace) == Disk(dirs, map[])
      ensures ok ==> exists b :: dirs == Put(old(dirs), ModelDir(key), None, Some(b))
      ensures !ok ==> exists p :: dirs == Put(old(dirs), ModelDir(key), p, old(dirs)[ModelDir(key)].dest)
      ensures ok && Compatible(s) && Inv(s, Disk(old(dirs), map[])) ==>
                dirs == Put(old(dirs), ModelDir(key), None, Some(s.artifacts[key]))
    {
      var dir := ModelDir(key);
      ghost var was := dirs;
      ghost var start := Disk(dirs, map[]);
      var existingSize := PartSize(dirs, dir);
      if x.failAt <= 1 || x.reply !in {Status200, Status206} {
        Refused(s, dirs, key);
        assert dirs == Put(dirs, dir, dirs[dir].part, dirs[dir].dest);
        return false, [Start(key)] + [Abort(dir)];
      }
      Opened(s, dirs, key, x);
      if x.reply == Status200 {
        existingSize := 0;
      }
      if existingSize == 0 {
        dirs := dirs[dir := dirs[dir].(part := Some([]))];
      }
      assert dirs == Put(was, dir, dirs[dir].part, was[dir].dest);
      trace := CopyBody(dir, x.body, s, key, existingSize, start,
                        [Start(key)] + [if x.reply == Status200 then AnswerFull(dir) else AnswerPartial(dir)]);
      if !x.whole || x.failAt <= 3 {
        Aborted(s, start, trace, dirs, dir, Copying(key, existingSize + |Flatten(x.body)|));
        assert dirs == Put(was, dir, dirs[dir].part, was[dir].dest);
        return false, trace + [Abort(dir)];
      }
      Renamed(s, start, trace, dirs, dir, key);
      dirs := dirs[dir := DirState(None, dirs[dir].part)];
      assert dirs == Put(was, dir, None, dirs[dir].dest);
      return true, trace + [Finish(dir)];
    }
  
    /**
     `order` lists the version directories of one model by their modification times, latest first. `stuck` are
     those that cannot be removed; that is only logged.
     */
    method PruneOldVersions(
      order: seq<Dir>, ghost times: map<Dir, int>, stuck: set<Dir>, unreadable: bool,
      ghost s: Server, ghost start: Disk, ghost steps: seq<Step>)
      returns (ghost trace: seq<Step>)
      requires IsListing(order, times)
      requires Run(s, start, steps) == Disk(dirs, map[])
      modifies this`dirs
      ensures Run(s, start, trace) == Disk(dirs, map[])
      ensures forall d :: d in dirs ==> d in old(dirs) && dirs[d] == old(dirs)[d]
      ensures !unreadable && NoTies(times) ==>
                forall d :: d in old(dirs) ==>
                    (d in dirs <==> d !in times || d in Top(times, maxLocalVersions) || d in stuck)
      ensures unreadable ==> dirs == old(dirs)
      ensures forall d :: d in old(dirs) && IsLatest(times, d) ==> d in dirs
      ensures forall d :: d in old(dirs) && d !in times ==> d in dirs
    {
      trace := steps;
      if unreadable || |order| <= maxLocalVersions {
        if NoTies(times) {
          TopOfListing(order, times, maxLocalVersions);
          assert order[..|order|] == order;
        }
        return;
      }
      ghost var was := dirs;
      var victims := order[maxLocalVersions..];
      var i := 0;
      while i < |victims|
        invariant 0 <= i <= |victims|
        invariant forall d :: d in dirs <==> d in was && (d in victims[..i] ==> d in stuck)
        invariant forall d :: d in dirs ==> dirs[d] == was[d]
        invariant Run(s, start, trace) == Disk(dirs, map[])
      {
        if victims[i] !in stuck {
          PrunedOne(s, start, trace, dirs, victims[i]);
          trace := trace + [Prune(victims[i])];
          dirs := dirs - {victims[i]};
        }
        assert victims[..i + 1] == victims[..i] + [victims[i]];
        i := i + 1;
      }
      assert victims[..i] == victims;
      if NoTies(times) {
        RestOfListing(order, times, maxLocalVersions);
        assert forall d :: d in victims <==> d in Elements(victims);
      }
      assert forall d :: d in victims ==> d in order;
      LatestIsFirst(order, times, maxLocalVersions);
    }

    /**
     File operations around the attempt: `mkdirFails` makes the directory, `verifyAt` 0 reads the file to check it,
     1 removes it when it is wrong, 2 and 3 read its size and digest. After a success old versions are pruned.
     */
    method Download(
      key: ArtifactKey, expected: Option<Digest>, x: Exchange, mkdirFails: bool, verifyAt: set<nat>,
      order: seq<Dir>, ghost times: map<Dir, int>, stuck: set<Dir>, unreadable: bool, ghost s: Server)
      returns (r: Result<DownloadResult, DownloadError>, ghost trace: seq<Step>)
      requires IsExchange(s, key, PartSize(dirs, ModelDir(key)), x)
      requires IsListing(order, times) && forall d :: d in times ==> d.base == ModelDir(key).base
      modifies this`dirs
      ensures Run(s, Disk(old(dirs), map[]), trace) == Disk(dirs, map[])
      ensures r.Ok? ==>
                && r.value.dir == ModelDir(key) && r.value.checksum.Sha256? && r.value.size == |r.value.checksum.of|
                && (expected.Some? ==> r.value.checksum == expected.value)
                && (ModelDir(key) in dirs ==> dirs[ModelDir(key)] == DirState(None, Some(r.value.checksum.of)))
      ensures r.Ok? && Compatible(s) && Inv(s, Disk(old(dirs), map[])) ==>
                key in s.artifacts && r.value.checksum.of == s.artifacts[key]
      ensures r.Ok? && !unreadable && NoTies(times) ==>
                forall d :: d in old(dirs) ==>
                    (d in dirs <==> d !in times || d in Top(times, maxLocalVersions) || d in stuck)
      ensures forall d :: d in old(dirs) && d.base != ModelDir(key).base ==> d in dirs && dirs[d] == old(dirs)[d]
      ensures r.Ok? && (IsLatest(times, ModelDir(key)) || ModelDir(key) !in times) ==>
                ModelDir(key) in dirs && dirs[ModelDir(key)] == DirState(None, Some(r.value.checksum.of))
      ensures r == Err(ChecksumFailed) && 1 !in verifyAt ==> ModelDir(key) in dirs && dirs[ModelDir(key)].dest == None
    {
      var dir := ModelDir(key);
      ghost var start := Disk(dirs, map[]);
      if mkdirFails {
        return Err(MkdirFailed), [];
      }
      MadeDir(s, dirs, key);
      dirs := WithDir(dirs, dir);
      var ok, fetched := DownloadWithResume(key, x, s);
      RunSplit(s, start, [Start(key)] + [Abort(dir)], fetched);
      trace := [Start(key)] + [Abort(dir)] + fetched;
      if !ok {
        return Err(FetchFailed), trace;
      }
      var got := Sha256(dirs[dir].dest.value);
      if expected.Some? && (0 in verifyAt || got != expected.value) {
        if 1 !in verifyAt {
          DiscardedOne(s, start, trace, dirs, dir);
          trace := trace + [Discard(dir)];
          dirs := dirs[dir := dirs[dir].(dest := None)];
        }
        return Err(ChecksumFailed), trace;
      }
      if 2 in verifyAt || 3 in verifyAt {
        return Err(StatFailed), trace;
      }
      var size := |dirs[dir].dest.value|;
      trace := PruneOldVersions(order, times, stuck, unreadable, s, start, trace);
      return Ok(DownloadResult(dir, got, size)), trace;
    }
  }
}
