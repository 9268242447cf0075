/**
 The agent's resumable downloads: the `.part` file and the finished file of each model version, any
 interleaving of attempts, interruptions and prunings, at most one attempt at a time per directory.
 The artifacts never change. Removing a directory is one step.
 */
module Downloads {
  import opened Wrappers

  type Byte = b: int | 0 <= b < 256
  type Bytes = seq<Byte>

  datatype ArtifactKey = ArtifactKey(name: string, version: string)

  datatype Dir = Dir(base: string, version: string)

  /** `part` and `dest` are the files model.bin.part and model.bin. */
  datatype DirState = DirState(part: Option<Bytes>, dest: Option<Bytes>)

  /** An attempt that has sent its request for what follows `size` bytes, or is copying and has `next` bytes. */
  datatype Flight = Requested(key: ArtifactKey, size: nat) | Copying(key: ArtifactKey, next: nat)

  /** A server with `ranges` answers every Range request as one; others may send the whole artifact instead. */
  datatype Server = Server(artifacts: map<ArtifactKey, Bytes>, ranges: bool)

  datatype Disk = Disk(dirs: map<Dir, DirState>, flights: map<Dir, Flight>)

  datatype Step =
    | Start(key: ArtifactKey)
    | AnswerFull(dir: Dir)
    | AnswerPartial(dir: Dir)
    | Copy(dir: Dir, n: nat)
    | Finish(dir: Dir)
    | Abort(dir: Dir)
    | Discard(dir: Dir)
    | Prune(dir: Dir)

  function SanitizeName(name: string): string {
    seq(|name|, i requires 0 <= i < |name| => if name[i] == '/' then '_' else name[i])
  }

  function ModelDir(key: ArtifactKey): Dir {
    Dir(SanitizeName(key.name), key.version)
  }

  /** Two artifacts share a directory exactly when they have one version, and names that differ only in "/" and "_". */
  lemma ModelDirsCollideIff(j: ArtifactKey, k: ArtifactKey)
    ensures ModelDir(j) == ModelDir(k) <==>
              && j.version == k.version && |j.name| == |k.name|
              && forall i :: 0 <= i < |j.name| ==>
                   j.name[i] == k.name[i] || (j.name[i] in {'/', '_'} && k.name[i] in {'/', '_'})
  {
    if ModelDir(j) == ModelDir(k) {
      assert |SanitizeName(j.name)| == |SanitizeName(k.name)|;
      forall i | 0 <= i < |j.name|
        ensures j.name[i] == k.name[i] || (j.name[i] in {'/', '_'} && k.name[i] in {'/', '_'})
      {
        assert SanitizeName(j.name)[i] == SanitizeName(k.name)[i];
      }
    }
  }

  function PartSize(dirs: map<Dir, DirState>, dir: Dir): nat {
    if dir in dirs && dirs[dir].part.Some? then |dirs[dir].part.value| else 0
  }

  /** Making a directory that exists changes nothing. */
  function WithDir(dirs: map<Dir, DirState>, dir: Dir): map<Dir, DirState> {
    if dir in dirs then dirs else dirs[dir := DirState(None, None)]
  }

  predicate IsOpen(w: Disk, dir: Dir) {
    dir in w.dirs && w.dirs[dir].part.Some?
  }

  function SetPart(w: Disk, dir: Dir, bytes: Bytes): Disk
    requires dir in w.dirs
  {
    w.(dirs := w.dirs[dir := w.dirs[dir].(part := Some(bytes))])
  }

  function Fly(w: Disk, dir: Dir, f: Flight): Disk {
    w.(flights := w.flights[dir := f])
  }

  function Land(w: Disk, dir: Dir): Disk {
    w.(flights := w.flights - {dir})
  }

  predicate Answerable(s: Server, w: Disk, dir: Dir) {
    dir in w.flights && w.flights[dir].Requested? && w.flights[dir].key in s.artifacts && dir in w.dirs
  }

  predicate IsCopying(s: Server, w: Disk, dir: Dir) {
    && dir in w.flights && w.flights[dir].Copying?
    && w.flights[dir].key in s.artifacts && w.flights[dir].next <= |s.artifacts[w.flights[dir].key]|
  }

  /** Once its directory is gone an attempt goes on writing to the removed file, and its rename fails. */
  function Do(s: Server, w: Disk, step: Step): Disk {
    match step
    case Start(key) =>
      var dir := ModelDir(key);
      if dir in w.flights then w
      else Fly(w.(dirs := WithDir(w.dirs, dir)), dir, Requested(key, PartSize(w.dirs, dir)))
    case AnswerFull(dir) =>
      if Answerable(s, w, dir) && (s.ranges ==> w.flights[dir].size == 0) then
        Fly(SetPart(w, dir, []), dir, Copying(w.flights[dir].key, 0))
      else w
    case AnswerPartial(dir) =>
      if Answerable(s, w, dir) && 0 < w.flights[dir].size < |s.artifacts[w.flights[dir].key]| then
        Fly(SetPart(w, dir, if IsOpen(w, dir) then w.dirs[dir].part.value else []),
            dir, Copying(w.flights[dir].key, w.flights[dir].size))
      else w
    case Copy(dir, n) =>
      if IsCopying(s, w, dir) && w.flights[dir].next + n <= |s.artifacts[w.flights[dir].key]| then
        var f := w.flights[dir];
        var moved := Fly(w, dir, f.(next := f.next + n));
        if IsOpen(w, dir) then
          SetPart(moved, dir, w.dirs[dir].part.value + s.artifacts[f.key][f.next..f.next + n])
        else moved
      else w
    case Finish(dir) =>
      if IsCopying(s, w, dir) && w.flights[dir].next == |s.artifacts[w.flights[dir].key]| then
        var landed := Land(w, dir);
        if IsOpen(w, dir) then landed.(dirs := w.dirs[dir := DirState(None, w.dirs[dir].part)]) else landed
      else w
    case Abort(dir) => Land(w, dir)
    case Discard(dir) => if dir in w.dirs then w.(dirs := w.dirs[dir := w.dirs[dir].(dest := None)]) else w
    case Prune(dir) => w.(dirs := w.dirs - {dir})
  }

  function Run(s: Server, w: Disk, steps: seq<Step>): Disk {
    if |steps| == 0 then w else Do(s, Run(s, w, steps[..|steps| - 1]), steps[|steps| - 1])
  }

  const BLANK := Disk(map[], map[])

  // ---- what an attempt keeps ----

  /** Artifacts that share a directory agree on every prefix at which one can be resumed as the other. */
  ghost predicate Compatible(s: Server) {
    forall j, k, e: nat :: Resumes(s, j, k, e) ==> s.artifacts[j][..e] == s.artifacts[k][..e]
  }

  predicate Resumes(s: Server, j: ArtifactKey, k: ArtifactKey, e: nat) {
    && j in s.artifacts && k in s.artifacts && ModelDir(j) == ModelDir(k)
    && 0 < e < |s.artifacts[k]| && e <= |s.artifacts[j]|
  }

  predicate Begins(s: Server, dir: Dir, bytes: Bytes, k: ArtifactKey) {
    k in s.artifacts && ModelDir(k) == dir && bytes <= s.artifacts[k]
  }

  /** A partial file is a prefix of an artifact kept in this directory, and a finished one all of such an artifact. */
  ghost predicate FilesInv(s: Server, dir: Dir, d: DirState) {
    && (d.part.Some? ==> exists k :: Begins(s, dir, d.part.value, k))
    && (d.dest.Some? ==> exists k :: Begins(s, dir, d.dest.value, k) && d.dest.value == s.artifacts[k])
  }

  ghost predicate FlightInv(s: Server, w: Disk, dir: Dir)
    requires dir in w.flights
  {
    var f := w.flights[dir];
    && ModelDir(f.key) == dir
    && (f.Requested? && dir in w.dirs ==> f.size == PartSize(w.dirs, dir))
    && (f.Copying? ==>
          f.key in s.artifacts && f.next <= |s.artifacts[f.key]|
          && (dir in w.dirs ==> w.dirs[dir].part == Some(s.artifacts[f.key][..f.next])))
  }

  ghost predicate Inv(s: Server, w: Disk) {
    && (forall dir :: dir in w.dirs ==> FilesInv(s, dir, w.dirs[dir]))
    && (forall dir :: dir in w.flights ==> FlightInv(s, w, dir))
  }

  predicate StepDirIs(step: Step, dir: Dir) {
    (if step.Start? then ModelDir(step.key) else step.dir) == dir
  }

  /** A step leaves other directories alone. */
  lemma ElsewhereUnchanged(s: Server, w: Disk, step: Step, dir: Dir)
    requires !StepDirIs(step, dir)
    ensures var v := Do(s, w, step);
            && (dir in v.dirs <==> dir in w.dirs) && (dir in w.dirs ==> v.dirs[dir] == w.dirs[dir])
            && (dir in v.flights <==> dir in w.flights) && (dir in w.flights ==> v.flights[dir] == w.flights[dir])
  {
  }

  ghost predicate DirInv(s: Server, w: Disk, dir: Dir) {
    && (dir in w.dirs ==> FilesInv(s, dir, w.dirs[dir]))
    && (dir in w.flights ==> FlightInv(s, w, dir))
  }

  lemma AnswerKept(s: Server, w: Disk, dir: Dir)
    requires Compatible(s) && DirInv(s, w, dir)
    ensures DirInv(s, Do(s, w, AnswerFull(dir)), dir) && DirInv(s, Do(s, w, AnswerPartial(dir)), dir)
  {
    if Answerable(s, w, dir) {
      var k := w.flights[dir].key;
      var e := w.flights[dir].size;
      assert Begins(s, dir, [], k);
      if 0 < e < |s.artifacts[k]| {
        var j :| Begins(s, dir, w.dirs[dir].part.value, j);
        assert Resumes(s, j, k, e);
        assert w.dirs[dir].part.value == s.artifacts[j][..e];
      }
    }
  }

  lemma CopyKept(s: Server, w: Disk, dir: Dir, n: nat)
    requires DirInv(s, w, dir)
    ensures DirInv(s, Do(s, w, Copy(dir, n)), dir) && DirInv(s, Do(s, w, Finish(dir)), dir)
  {
    if IsCopying(s, w, dir) {
      var f := w.flights[dir];
      var whole := s.artifacts[f.key];
      assert whole[..|whole|] == whole;
      if f.next + n <= |whole| {
        assert whole[..f.next] + whole[f.next..f.next + n] == whole[..f.next + n];
        assert Begins(s, dir, whole[..f.next + n], f.key);
      }
      assert Begins(s, dir, whole, f.key);
    }
  }

  lemma StepKept(s: Server, w: Disk, step: Step)
    requires Compatible(s) && Inv(s, w)
    ensures Inv(s, Do(s, w, step))
  {
    var v := Do(s, w, step);
    forall dir | dir in v.dirs || dir in v.flights ensures DirInv(s, v, dir) {
      if !StepDirIs(step, dir) {
        ElsewhereUnchanged(s, w, step, dir);
      } else {
        assert DirInv(s, w, dir);
        match step
        case AnswerFull(_) => AnswerKept(s, w, dir);
        case AnswerPartial(_) => AnswerKept(s, w, dir);
        case Copy(_, n) => CopyKept(s, w, dir, n);
        case Finish(_) => CopyKept(s, w, dir, 0);
        case _ =>
      }
    }
  }

  lemma {:induction false} InvAlways(s: Server, w: Disk, steps: seq<Step>)
    requires Compatible(s) && Inv(s, w)
    ensures Inv(s, Run(s, w, steps))
  {
    if |steps| > 0 {
      InvAlways(s, w, steps[..|steps| - 1]);
      StepKept(s, Run(s, w, steps[..|steps| - 1]), steps[|steps| - 1]);
    }
  }

  // ---- when every completed download is exact ----

  predicate Completes(s: Server, w: Disk, step: Step) {
    step.Finish? && IsCopying(s, w, step.dir) && w.flights[step.dir].next == |s.artifacts[w.flights[step.dir].key]|
    && IsOpen(w, step.dir)
  }

  /** If the run ends in a rename, the file it leaves is the artifact that was asked for. */
  predicate EndsExactly(s: Server, steps: seq<Step>) {
    |steps| > 0 ==>
      var before := Run(s, BLANK, steps[..|steps| - 1]);
      var step := steps[|steps| - 1];
      Completes(s, before, step) ==>
        Do(s, before, step).dirs[step.dir] == DirState(None, Some(s.artifacts[before.flights[step.dir].key]))
  }

  /**
   In every state the partial file of an attempt that copies is the artifact's first bytes, exactly those it has
   received.
   */
  lemma PartIsPrefix(s: Server, steps: seq<Step>, dir: Dir)
    requires Compatible(s)
    requires var w := Run(s, BLANK, steps); dir in w.flights && w.flights[dir].Copying? && dir in w.dirs
    ensures var w := Run(s, BLANK, steps);
            && w.flights[dir].key in s.artifacts
            && w.flights[dir].next <= |s.artifacts[w.flights[dir].key]|
            && w.dirs[dir].part == Some(s.artifacts[w.flights[dir].key][..w.flights[dir].next])
  {
    InvAlways(s, BLANK, steps);
  }

  lemma CompletionIsExact(s: Server, w: Disk, step: Step)
    requires Inv(s, w) && Completes(s, w, step)
    ensures Do(s, w, step).dirs[step.dir] == DirState(None, Some(s.artifacts[w.flights[step.dir].key]))
  {
    assert FlightInv(s, w, step.dir);
    var whole := s.artifacts[w.flights[step.dir].key];
    assert whole[..|whole|] == whole;
  }

  lemma RunOne(s: Server, w: Disk, steps: seq<Step>, step: Step)
    ensures Run(s, w, steps + [step]) == Do(s, Run(s, w, steps), step)
  {
    assert (steps + [step])[..|steps|] == steps;
  }

  function OnePart(dir: Dir, bytes: Bytes, flights: map<Dir, Flight>): Disk {
    Disk(map[dir := DirState(Some(bytes), None)], flights)
  }

  /** Interrupt one download after `e` bytes. */
  lemma Interrupted(s: Server, j: ArtifactKey, e: nat)
    requires j in s.artifacts && e <= |s.artifacts[j]|
    ensures var dir := ModelDir(j);
            Run(s, BLANK, [Start(j), AnswerFull(dir), Copy(dir, e)] + [Abort(dir)])
                == OnePart(dir, s.artifacts[j][..e], map[])
  {
    var dir := ModelDir(j);
    RunOne(s, BLANK, [], Start(j));
    RunOne(s, BLANK, [Start(j)], AnswerFull(dir));
    assert [] + [Start(j)] == [Start(j)];
    assert Run(s, BLANK, [Start(j)] + [AnswerFull(dir)]) == OnePart(dir, [], map[dir := Copying(j, 0)]);
    RunOne(s, BLANK, [Start(j), AnswerFull(dir)], Copy(dir, e));
    assert [] + s.artifacts[j][0..0 + e] == s.artifacts[j][..e];
    assert [Start(j), AnswerFull(dir)] == [Start(j)] + [AnswerFull(dir)];
    RunOne(s, BLANK, [Start(j), AnswerFull(dir), Copy(dir, e)], Abort(dir));
    assert [Start(j), AnswerFull(dir), Copy(dir, e)] == [Start(j), AnswerFull(dir)] + [Copy(dir, e)];
    assert map[dir := Copying(j, e)] - {dir} == map[];
  }

  /** Resume from what is there, as the artifact `k`. */
  lemma Resumed(s: Server, steps: seq<Step>, kept: Bytes, k: ArtifactKey)
    requires k in s.artifacts && 0 < |kept| < |s.artifacts[k]|
    requires Run(s, BLANK, steps) == OnePart(ModelDir(k), kept, map[])
    ensures var dir := ModelDir(k);
            Run(s, BLANK, steps + [Start(k)] + [AnswerPartial(dir)] + [Copy(dir, |s.artifacts[k]| - |kept|)])
              == OnePart(dir, kept + s.artifacts[k][|kept|..], map[dir := Copying(k, |s.artifacts[k]|)])
  {
    var dir := ModelDir(k);
    var n := |s.artifacts[k]|;
    RunOne(s, BLANK, steps, Start(k));
    assert Run(s, BLANK, steps + [Start(k)]) == OnePart(dir, kept, map[dir := Requested(k, |kept|)]);
    RunOne(s, BLANK, steps + [Start(k)], AnswerPartial(dir));
    assert Run(s, BLANK, steps + [Start(k)] + [AnswerPartial(dir)])
        == OnePart(dir, kept, map[dir := Copying(k, |kept|)]);
    RunOne(s, BLANK, steps + [Start(k)] + [AnswerPartial(dir)], Copy(dir, n - |kept|));
    assert s.artifacts[k][|kept|..n] == s.artifacts[k][|kept|..];
  }

  /** A run that leaves the first bytes of one artifact followed by the rest of another, as the latter's download. */
  lemma MixedFile(s: Server, j: ArtifactKey, k: ArtifactKey, e: nat) returns (steps: seq<Step>)
    requires Resumes(s, j, k, e)
    ensures var dir := ModelDir(k);
            var before := Run(s, BLANK, steps);
            && Completes(s, before, Finish(dir)) && before.flights[dir].key == k
            && Do(s, before, Finish(dir)).dirs[dir].dest == Some(s.artifacts[j][..e] + s.artifacts[k][e..])
  {
    var dir := ModelDir(k);
    var first := [Start(j), AnswerFull(dir), Copy(dir, e)] + [Abort(dir)];
    Interrupted(s, j, e);
    Resumed(s, first, s.artifacts[j][..e], k);
    steps := first + [Start(k)] + [AnswerPartial(dir)] + [Copy(dir, |s.artifacts[k]| - e)];
  }

  /**
   Every completed download of every run is byte for byte the artifact asked for if and only if the artifacts
   that share a directory, as "a/b" and "a_b" do, agree as far as one can be resumed as the other.
   */
  lemma CompletedIffCompatible(s: Server)
    ensures (forall steps :: EndsExactly(s, steps)) <==> Compatible(s)
  {
    if Compatible(s) {
      forall steps ensures EndsExactly(s, steps) {
        if |steps| > 0 {
          var before := Run(s, BLANK, steps[..|steps| - 1]);
          InvAlways(s, BLANK, steps[..|steps| - 1]);
          if Completes(s, before, steps[|steps| - 1]) {
            CompletionIsExact(s, before, steps[|steps| - 1]);
          }
        }
      }
    }
    if forall steps :: EndsExactly(s, steps) {
      forall j, k, e: nat | Resumes(s, j, k, e) ensures s.artifacts[j][..e] == s.artifacts[k][..e] {
        var steps := MixedFile(s, j, k, e);
        assert EndsExactly(s, steps + [Finish(ModelDir(k))]);
        assert (steps + [Finish(ModelDir(k))])[..|steps|] == steps;
        assert (s.artifacts[j][..e] + s.artifacts[k][e..])[..e] == s.artifacts[j][..e];
      }
    }
  }

  /** So a registry in which no two artifacts share a directory is safe. */
  lemma OwnDirectoriesAreExact(s: Server, steps: seq<Step>)
    requires forall j, k :: j in s.artifacts && k in s.artifacts && ModelDir(j) == ModelDir(k) ==> j == k
    ensures EndsExactly(s, steps)
  {
    assert Compatible(s);
    CompletedIffCompatible(s);
  }

  // ---- when a download can still be completed ----

  /** An attempt at `j` could go through from here: from the start, or from what the partial file has. */
  predicate CanComplete(s: Server, w: Disk, dir: Dir, j: ArtifactKey) {
    && j in s.artifacts && ModelDir(j) == dir
    && (!s.ranges || PartSize(w.dirs, dir) == 0 || PartSize(w.dirs, dir) < |s.artifacts[j]|)
  }

  /** Without pruning the directory, some run ends ready for its rename. */
  ghost predicate IsCompletable(s: Server, w: Disk, dir: Dir) {
    exists steps :: Prune(dir) !in steps && Completes(s, Run(s, w, steps), Finish(dir))
  }

  /** The partial file is at least as long as every artifact that belongs here, and no attempt is past its request. */
  ghost predicate Stuck(s: Server, w: Disk, dir: Dir, size: nat) {
    && PartSize(w.dirs, dir) == size
    && (forall j :: j in s.artifacts && ModelDir(j) == dir ==> s.ranges && 0 < size && |s.artifacts[j]| <= size)
    && (dir in w.flights ==>
          w.flights[dir].Requested? && ModelDir(w.flights[dir].key) == dir && w.flights[dir].size == size)
  }

  /** Each new attempt asks a server that honours ranges for what follows the last byte, and is refused. */
  lemma {:induction false} StuckStaysStuck(s: Server, w: Disk, steps: seq<Step>, dir: Dir, size: nat)
    requires Stuck(s, w, dir, size) && Prune(dir) !in steps
    ensures Stuck(s, Run(s, w, steps), dir, size)
  {
    if |steps| > 0 {
      var n := |steps| - 1;
      StuckStaysStuck(s, w, steps[..n], dir, size);
      if !StepDirIs(steps[n], dir) {
        ElsewhereUnchanged(s, Run(s, w, steps[..n]), steps[n], dir);
      }
    }
  }

  /** The attempt that goes through. */
  lemma CompletingRun(s: Server, w: Disk, dir: Dir, j: ArtifactKey) returns (steps: seq<Step>)
    requires dir !in w.flights && CanComplete(s, w, dir, j)
    ensures Prune(dir) !in steps && Completes(s, Run(s, w, steps), Finish(dir))
  {
    var size := PartSize(w.dirs, dir);
    var anew := !s.ranges || size == 0;
    var answer := if anew then AnswerFull(dir) else AnswerPartial(dir);
    var rest := |s.artifacts[j]| - if anew then 0 else size;
    RunOne(s, w, [], Start(j));
    assert [] + [Start(j)] == [Start(j)];
    RunOne(s, w, [Start(j)], answer);
    RunOne(s, w, [Start(j)] + [answer], Copy(dir, rest));
    steps := [Start(j)] + [answer] + [Copy(dir, rest)];
  }

  /**
   From any state between attempts, a download into this directory can be completed without pruning it if and
   only if some artifact of the directory is longer than the partial file, the partial file is empty or
   missing, or the server ignores ranges.
   */
  lemma CompletableIff(s: Server, w: Disk, dir: Dir)
    requires dir !in w.flights
    ensures IsCompletable(s, w, dir) <==> exists j :: CanComplete(s, w, dir, j)
  {
    if j :| CanComplete(s, w, dir, j) {
      var steps := CompletingRun(s, w, dir, j);
    } else if steps :| Prune(dir) !in steps && Completes(s, Run(s, w, steps), Finish(dir)) {
      forall j | j in s.artifacts && ModelDir(j) == dir
        ensures s.ranges && 0 < PartSize(w.dirs, dir) && |s.artifacts[j]| <= PartSize(w.dirs, dir)
      {
        assert !CanComplete(s, w, dir, j);
      }
      StuckStaysStuck(s, w, steps, dir, PartSize(w.dirs, dir));
    }
  }

  ghost predicate OnlyKey(s: Server, k: ArtifactKey) {
    forall j :: j in s.artifacts && ModelDir(j) == ModelDir(k) ==> j == k
  }

  /** An artifact with a directory of its own: resuming works unless the partial file already has every byte of it. */
  lemma OwnDirectoryCompletableIff(s: Server, w: Disk, k: ArtifactKey)
    requires k in s.artifacts && |s.artifacts[k]| > 0 && OnlyKey(s, k) && ModelDir(k) !in w.flights
    ensures IsCompletable(s, w, ModelDir(k)) <==> !s.ranges || PartSize(w.dirs, ModelDir(k)) < |s.artifacts[k]|
  {
    CompletableIff(s, w, ModelDir(k));
    if !s.ranges || PartSize(w.dirs, ModelDir(k)) < |s.artifacts[k]| {
      assert CanComplete(s, w, ModelDir(k), k);
    }
  }

  /** Such a partial file is what an attempt leaves that stops between its last byte and its rename. */
  lemma FullPartIsNeverCompleted(s: Server, k: ArtifactKey)
    requires s.ranges && k in s.artifacts && |s.artifacts[k]| > 0 && OnlyKey(s, k)
    ensures var dir := ModelDir(k);
            var w := Run(s, BLANK, [Start(k), AnswerFull(dir), Copy(dir, |s.artifacts[k]|)] + [Abort(dir)]);
            && w == OnePart(dir, s.artifacts[k], map[])
            && !IsCompletable(s, w, dir)
  {
    Interrupted(s, k, |s.artifacts[k]|);
    assert s.artifacts[k][..|s.artifacts[k]|] == s.artifacts[k];
    OwnDirectoryCompletableIff(s, OnePart(ModelDir(k), s.artifacts[k], map[]), k);
  }
}
