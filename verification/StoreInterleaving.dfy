/** Many processes filling one store, one filesystem step at a time, with or without crashes. */
module StoreInterleaving {
  import opened Wrappers
  import opened Bytes
  import opened Manifest
  import opened Store

  /** Bytes that arrive under a promised digest.  A stream may break the promise; bytes put in under
      what they hash to cannot. */
  datatype Job = Job(target: Blake3, bytes: seq<Byte>)

  predicate Honest(hash: Hash, job: Job) {
    hash(job.bytes) == job.target
  }

  /** How far a process has got with its call. */
  datatype Stage =
    | Idle
    | Absent(job: Job)
    | Filling(job: Job, done: nat)
    | Renamed(job: Job)

  /** The files, every process's stage, who renamed last onto each digest, and the digests left with bytes
      that were due to be removed. */
  datatype State = State(files: map<Path, seq<Byte>>, stages: map<nat, Stage>, last: map<Blake3, nat>,
                         stranded: set<Blake3>)

  /** One step of one process.  Crash ends a call between any two steps, leaving the files as they are;
      Refuse is a removal the filesystem refuses. */
  datatype Action =
    | Start(job: Job)
    | Create
    | Fill(upTo: nat)
    | Fail(cleaned: bool)
    | Rename
    | Settle
    | Crash
    | Refuse

  function StageOf(s: State, pid: nat): Stage {
    if pid in s.stages then s.stages[pid] else Idle
  }

  function At(s: State, pid: nat, stage: Stage): State {
    s.(stages := s.stages[pid := stage])
  }

  function Temp(job: Job, pid: nat): Path {
    Temporary(job.target, pid)
  }

  /** The state after a step, or nothing where the process cannot take it. */
  function Step(hash: Hash, s: State, pid: nat, a: Action): Option<State> {
    match (StageOf(s, pid), a)
    case (Idle, Start(job)) =>
      Some(if Object(job.target) in s.files then s else At(s, pid, Absent(job)))
    case (Absent(job), Create) =>
      Some(At(s.(files := s.files[Temp(job, pid) := []]), pid, Filling(job, 0)))
    case (Absent(_), Fail(_)) => Some(At(s, pid, Idle))
    case (Filling(job, done), Fill(upTo)) =>
      if done <= upTo <= |job.bytes| then
        Some(At(s.(files := s.files[Temp(job, pid) := job.bytes[..upTo]]), pid, Filling(job, upTo)))
      else None
    case (Filling(job, _), Fail(cleaned)) =>
      Some(At(if cleaned then s.(files := s.files - {Temp(job, pid)}) else s, pid, Idle))
    case (Filling(job, done), Rename) =>
      if done == |job.bytes| && Temp(job, pid) in s.files then
        Some(At(Placed(s, pid, job), pid, Renamed(job)))
      else None
    case (Renamed(job), Settle) =>
      Some(At(if Honest(hash, job) then s else Removed(s, job.target), pid, Idle))
    case (Renamed(job), Refuse) =>
      if Honest(hash, job) then None else Some(At(Left(s, pid, job.target), pid, Idle))
    case (Renamed(job), Crash) =>
      Some(At(if Honest(hash, job) then s else Left(s, pid, job.target), pid, Idle))
    case (_, Crash) => Some(At(s, pid, Idle))
    case _ => None
  }

  function Placed(s: State, pid: nat, job: Job): State
    requires Temp(job, pid) in s.files
  {
    s.(files := (s.files - {Temp(job, pid)})[Object(job.target) := s.files[Temp(job, pid)]],
       last := s.last[job.target := pid], stranded := s.stranded - {job.target})
  }

  function Removed(s: State, d: Blake3): State {
    s.(files := s.files - {Object(d)}, stranded := s.stranded - {d})
  }

  /** A removal that does not happen strands the object, unless another process has since put its own
      there or taken it away. */
  function Left(s: State, pid: nat, d: Blake3): State {
    if Object(d) in s.files && d in s.last && s.last[d] == pid then s.(stranded := s.stranded + {d}) else s
  }

  /** A schedule: which process takes which step, in order. */
  type Schedule = seq<(nat, Action)>

  /** The state after a schedule, or nothing when some step of it cannot be taken. */
  function Exec(hash: Hash, s: State, schedule: Schedule): Option<State>
    decreases |schedule|
  {
    if schedule == [] then Some(s)
    else
      match Step(hash, s, schedule[0].0, schedule[0].1)
      case None => None
      case Some(t) => Exec(hash, t, schedule[1..])
  }

  /** No call ends between its steps and no removal is refused. */
  predicate Undisturbed(schedule: Schedule) {
    forall i | 0 <= i < |schedule| :: !schedule[i].1.Crash? && !schedule[i].1.Refuse?
  }

  predicate AllHonest(hash: Hash, schedule: Schedule) {
    forall i | 0 <= i < |schedule| && schedule[i].1.Start? :: Honest(hash, schedule[i].1.job)
  }

  /** Nobody is between a rename and what follows it. */
  predicate Quiescent(s: State) {
    forall pid | pid in s.stages :: !s.stages[pid].Renamed?
  }

  /** A process's temporary file holds as much of its bytes as it has written. */
  ghost predicate Partial(s: State) {
    forall pid | pid in s.stages && s.stages[pid].Filling? ::
      var job, done := s.stages[pid].job, s.stages[pid].done;
      done <= |job.bytes| && Temp(job, pid) in s.files && s.files[Temp(job, pid)] == job.bytes[..done]
  }

  /** The object at a digest is its last renamer's, who has not yet judged it. */
  ghost predicate Pending(s: State, d: Blake3) {
    d in s.last && Object(d) in s.files && Unjudged(s, d)
  }

  predicate Unjudged(s: State, d: Blake3)
    requires d in s.last
  {
    var stage := StageOf(s, s.last[d]);
    stage.Renamed? && stage.job.target == d
  }

  ghost predicate Bad(hash: Hash, s: State, d: Blake3) {
    Object(d) in s.files && hash(s.files[Object(d)]) != d
  }

  /** What awaits judgement is what its renamer put there. */
  ghost predicate Own(s: State) {
    forall d | Pending(s, d) :: s.files[Object(d)] == StageOf(s, s.last[d]).job.bytes
  }

  /** An object that does not hash to its name awaits judgement or is stranded. */
  ghost predicate Accounted(hash: Hash, s: State) {
    forall d | Bad(hash, s, d) :: d in s.stranded || Pending(s, d)
  }

  /** A stranded digest has such an object. */
  ghost predicate Stuck(hash: Hash, s: State) {
    forall d | d in s.stranded :: Bad(hash, s, d)
  }

  ghost predicate Inv(hash: Hash, s: State) {
    Partial(s) && Own(s) && Accounted(hash, s) && Stuck(hash, s)
  }

  lemma StepKeepsPartial(hash: Hash, s: State, pid: nat, a: Action)
    requires Partial(s) && Step(hash, s, pid, a).Some?
    ensures Partial(Step(hash, s, pid, a).value)
  {
  }

  /** What is renamed into place is all of the bytes. */
  lemma WholeBeforeRename(s: State, pid: nat)
    requires Partial(s) && StageOf(s, pid).Filling?
    ensures var job := StageOf(s, pid).job;
      StageOf(s, pid).done == |job.bytes| ==> Temp(job, pid) in s.files && s.files[Temp(job, pid)] == job.bytes
  {
    var job := StageOf(s, pid).job;
    assert job.bytes[..|job.bytes|] == job.bytes;
  }

  lemma StepKeepsOwn(hash: Hash, s: State, pid: nat, a: Action)
    requires Partial(s) && Own(s) && Step(hash, s, pid, a).Some?
    ensures Own(Step(hash, s, pid, a).value)
  {
    if StageOf(s, pid).Filling? { WholeBeforeRename(s, pid); }
    hide Partial, Honest;
  }

  lemma StepKeepsAccounted(hash: Hash, s: State, pid: nat, a: Action)
    requires Partial(s) && Own(s) && Accounted(hash, s) && Step(hash, s, pid, a).Some?
    ensures Accounted(hash, Step(hash, s, pid, a).value)
  {
    if StageOf(s, pid).Filling? { WholeBeforeRename(s, pid); }
    hide Partial;
  }

  lemma StepKeepsStuck(hash: Hash, s: State, pid: nat, a: Action)
    requires Own(s) && Stuck(hash, s) && Step(hash, s, pid, a).Some?
    ensures Stuck(hash, Step(hash, s, pid, a).value)
  {
  }

  lemma StepKeeps(hash: Hash, s: State, pid: nat, a: Action)
    requires Inv(hash, s) && Step(hash, s, pid, a).Some?
    ensures Inv(hash, Step(hash, s, pid, a).value)
    ensures !a.Crash? && !a.Refuse? ==> Step(hash, s, pid, a).value.stranded <= s.stranded
  {
    hide Partial, Own, Accounted, Stuck;
    StepKeepsPartial(hash, s, pid, a);
    StepKeepsOwn(hash, s, pid, a);
    StepKeepsAccounted(hash, s, pid, a);
    StepKeepsStuck(hash, s, pid, a);
  }

  /** Every run, disturbed or not, keeps the account. */
  lemma {:induction false} RunKeepsInv(hash: Hash, s: State, schedule: Schedule)
    requires Inv(hash, s) && Exec(hash, s, schedule).Some?
    ensures Inv(hash, Exec(hash, s, schedule).value)
    ensures Undisturbed(schedule) ==> Exec(hash, s, schedule).value.stranded <= s.stranded
    decreases |schedule|
  {
    if schedule != [] {
      hide Inv, Step;
      var (pid, a) := schedule[0];
      StepKeeps(hash, s, pid, a);
      RunKeepsInv(hash, Step(hash, s, pid, a).value, schedule[1..]);
    }
  }

  /** A store that only holds self-named objects and that nobody is using. */
  ghost predicate Fresh(hash: Hash, s: State) {
    && s.stages == map[] && s.stranded == {}
    && SelfNamed(hash, ObjectsOf(s.files))
  }

  lemma FreshHolds(hash: Hash, s: State)
    requires Fresh(hash, s)
    ensures Inv(hash, s)
  {
    forall d | Object(d) in s.files ensures hash(s.files[Object(d)]) == d {
      HasObject(s.files, d);
    }
  }

  /** In every state of every interleaving, crashes and refusals included, an object does not hash to its
      name exactly when it is stranded or it awaits the judgement of a renamer whose bytes are bad. */
  lemma RunKeeps(hash: Hash, s: State, schedule: Schedule, d: Blake3)
    requires Fresh(hash, s) && Exec(hash, s, schedule).Some?
    ensures var t := Exec(hash, s, schedule).value;
      Bad(hash, t, d) <==> d in t.stranded || (Pending(t, d) && !Honest(hash, StageOf(t, t.last[d]).job))
  {
    hide Exec;
    FreshHolds(hash, s);
    RunKeepsInv(hash, s, schedule);
  }

  /** In every interleaving without a crash or a refused removal, an object that does not hash to its
      name awaits the judgement of its last renamer; once nobody is between a rename and its judgement,
      every object is self-named. */
  lemma UndisturbedStoreIsSelfNamed(hash: Hash, s: State, schedule: Schedule)
    requires Fresh(hash, s) && Undisturbed(schedule) && Exec(hash, s, schedule).Some?
    ensures var t := Exec(hash, s, schedule).value;
      && (forall d | Bad(hash, t, d) :: Pending(t, d) && t.files[Object(d)] == StageOf(t, t.last[d]).job.bytes)
      && (Quiescent(t) ==> SelfNamed(hash, ObjectsOf(t.files)))
  {
    hide Exec, Partial;
    FreshHolds(hash, s);
    RunKeepsInv(hash, s, schedule);
    QuiescentNamed(hash, Exec(hash, s, schedule).value);
  }

  lemma QuiescentNamed(hash: Hash, t: State)
    requires Accounted(hash, t) && t.stranded == {}
    ensures Quiescent(t) ==> SelfNamed(hash, ObjectsOf(t.files))
  {
    forall d | d in ObjectsOf(t.files) && Quiescent(t) ensures hash(ObjectsOf(t.files)[d]) == d {
      HasObject(t.files, d);
      assert !Pending(t, d);
    }
  }

  /** With crashes and refusals, a quiescent store's bad objects are exactly those at stranded digests. */
  lemma ExactlyStrandedAreBad(hash: Hash, s: State, schedule: Schedule, d: Blake3)
    requires Fresh(hash, s) && Exec(hash, s, schedule).Some? && Quiescent(Exec(hash, s, schedule).value)
    ensures Bad(hash, Exec(hash, s, schedule).value, d) <==> d in Exec(hash, s, schedule).value.stranded
  {
    hide Exec;
    RunKeeps(hash, s, schedule, d);
    assert !Pending(Exec(hash, s, schedule).value, d);
  }

  // Calls that keep their promise

  /** The calls at work on a digest all keep their promise, or all break it. */
  ghost predicate JobsFor(hash: Hash, s: State, d: Blake3, keep: bool) {
    forall pid | pid in s.stages && !s.stages[pid].Idle? && s.stages[pid].job.target == d ::
      Honest(hash, s.stages[pid].job) == keep
  }

  ghost predicate ObjectFor(hash: Hash, s: State, d: Blake3, keep: bool) {
    Object(d) in s.files ==> ((hash(s.files[Object(d)]) == d) == keep)
  }

  ghost predicate Uniform(hash: Hash, s: State, d: Blake3, keep: bool) {
    Partial(s) && JobsFor(hash, s, d, keep) && ObjectFor(hash, s, d, keep)
  }

  predicate StartsFor(hash: Hash, schedule: Schedule, d: Blake3, keep: bool) {
    forall i | 0 <= i < |schedule| && schedule[i].1.Start? && schedule[i].1.job.target == d ::
      Honest(hash, schedule[i].1.job) == keep
  }

  lemma JobsForStep(hash: Hash, s: State, pid: nat, a: Action, d: Blake3, keep: bool)
    requires JobsFor(hash, s, d, keep) && Step(hash, s, pid, a).Some?
    requires a.Start? && a.job.target == d ==> Honest(hash, a.job) == keep
    ensures JobsFor(hash, Step(hash, s, pid, a).value, d, keep)
  {
    hide Honest;
  }

  lemma ObjectForStep(hash: Hash, s: State, pid: nat, a: Action, d: Blake3, keep: bool)
    requires Partial(s) && ObjectFor(hash, s, d, keep) && Step(hash, s, pid, a).Some?
    requires var stage := StageOf(s, pid); !stage.Idle? && stage.job.target == d ==> Honest(hash, stage.job) == keep
    ensures ObjectFor(hash, Step(hash, s, pid, a).value, d, keep)
    ensures keep && Object(d) in s.files ==> Object(d) in Step(hash, s, pid, a).value.files
  {
    if StageOf(s, pid).Filling? { WholeBeforeRename(s, pid); }
    hide Partial;
  }

  lemma UniformStep(hash: Hash, s: State, pid: nat, a: Action, d: Blake3, keep: bool)
    requires Uniform(hash, s, d, keep) && Step(hash, s, pid, a).Some?
    requires a.Start? && a.job.target == d ==> Honest(hash, a.job) == keep
    ensures Uniform(hash, Step(hash, s, pid, a).value, d, keep)
    ensures keep && Object(d) in s.files ==> Object(d) in Step(hash, s, pid, a).value.files
  {
    var stage := StageOf(s, pid);
    assert !stage.Idle? && stage.job.target == d ==> Honest(hash, stage.job) == keep;
    hide Partial, JobsFor, ObjectFor, Step, Honest;
    StepKeepsPartial(hash, s, pid, a);
    JobsForStep(hash, s, pid, a, d, keep);
    ObjectForStep(hash, s, pid, a, d, keep);
  }

  /** Whatever the calls for other digests do and whatever crashes: when every call for a digest keeps its
      promise, its object is self-named in every state and never goes away; and when every call breaks it,
      what is there never is. */
  lemma {:induction false} OneDigest(hash: Hash, s: State, schedule: Schedule, d: Blake3, keep: bool)
    requires Uniform(hash, s, d, keep) && StartsFor(hash, schedule, d, keep) && Exec(hash, s, schedule).Some?
    ensures var t := Exec(hash, s, schedule).value;
      && Uniform(hash, t, d, keep)
      && (keep && Object(d) in s.files ==> Object(d) in t.files)
    decreases |schedule|
  {
    if schedule != [] {
      hide Uniform, Step, Honest;
      var (pid, a) := schedule[0];
      UniformStep(hash, s, pid, a, d, keep);
      OneDigest(hash, Step(hash, s, pid, a).value, schedule[1..], d, keep);
    }
  }

  /** Every object is self-named and every call at work keeps its promise. */
  ghost predicate HonestState(hash: Hash, s: State) {
    forall d :: Uniform(hash, s, d, true)
  }

  /** When every call's bytes hash to what they are put under, as they do for insert_bytes, every object
      is self-named in every state of every run, whatever crashes, and no object ever goes away. */
  lemma HonestStoreIsAlwaysSelfNamed(hash: Hash, s: State, schedule: Schedule)
    requires HonestState(hash, s) && AllHonest(hash, schedule) && Exec(hash, s, schedule).Some?
    ensures var t := Exec(hash, s, schedule).value;
      && HonestState(hash, t) && SelfNamed(hash, ObjectsOf(t.files))
      && (forall d | Object(d) in s.files :: Object(d) in t.files)
  {
    var t := Exec(hash, s, schedule).value;
    hide Exec, Partial, JobsFor;
    forall d: Blake3
      ensures Uniform(hash, t, d, true) && (Object(d) in s.files ==> Object(d) in t.files)
    {
      OneDigest(hash, s, schedule, d, true);
    }
    forall d | d in ObjectsOf(t.files) ensures hash(ObjectsOf(t.files)[d]) == d {
      HasObject(t.files, d);
      assert Uniform(hash, t, d, true);
    }
  }

  // What goes wrong, and how

  lemma {:induction false} ExecConcat(hash: Hash, s: State, a: Schedule, b: Schedule)
    ensures Exec(hash, s, a + b) == match Exec(hash, s, a) case None => None case Some(t) => Exec(hash, t, b)
    decreases |a|
  {
    hide Step;
    if a == [] {
      assert a + b == b;
    } else {
      assert (a + b)[1..] == a[1..] + b;
      var next := Step(hash, s, a[0].0, a[0].1);
      if next.Some? { ExecConcat(hash, next.value, a[1..], b); }
    }
  }

  lemma ExecOne(hash: Hash, s: State, pid: nat, a: Action)
    ensures Exec(hash, s, [(pid, a)]) == Step(hash, s, pid, a)
  {
    var rest := [(pid, a)][1..];
    assert rest == [];
    hide Step;
  }

  /** A process's part from the temporary file to the rename, in three steps. */
  function Writing(pid: nat, job: Job): Schedule {
    [(pid, Create)] + [(pid, Fill(|job.bytes|))] + [(pid, Rename)]
  }

  function Written(s: State, pid: nat, job: Job): State {
    State((s.files - {Temp(job, pid)})[Object(job.target) := job.bytes], s.stages[pid := Renamed(job)],
          s.last[job.target := pid], s.stranded - {job.target})
  }

  lemma WritingRuns(hash: Hash, s: State, pid: nat, job: Job)
    requires StageOf(s, pid) == Absent(job)
    ensures Exec(hash, s, Writing(pid, job)) == Some(Written(s, pid, job))
  {
    var t, n := Temp(job, pid), |job.bytes|;
    var created := s.(files := s.files[t := []], stages := s.stages[pid := Filling(job, 0)]);
    var filled := s.(files := s.files[t := job.bytes], stages := s.stages[pid := Filling(job, n)]);
    assert job.bytes[..n] == job.bytes;
    assert Step(hash, s, pid, Create) == Some(created);
    assert created.files[t := job.bytes] == filled.files && created.stages[pid := Filling(job, n)] == filled.stages;
    assert Step(hash, created, pid, Fill(n)) == Some(filled);
    assert filled.files - {t} == s.files - {t} && filled.stages[pid := Renamed(job)] == s.stages[pid := Renamed(job)];
    assert Step(hash, filled, pid, Rename) == Some(Written(s, pid, job));
    hide Step;
    ExecOne(hash, s, pid, Create);
    ExecOne(hash, created, pid, Fill(n));
    ExecOne(hash, filled, pid, Rename);
    ExecConcat(hash, s, [(pid, Create)], [(pid, Fill(n))]);
    ExecConcat(hash, s, [(pid, Create)] + [(pid, Fill(n))], [(pid, Rename)]);
  }

  /** A process that finds nothing at the digest gets as far as its rename. */
  lemma CallRuns(hash: Hash, s: State, pid: nat, job: Job)
    requires StageOf(s, pid).Idle? && Object(job.target) !in s.files
    ensures Exec(hash, s, [(pid, Start(job))] + Writing(pid, job)) == Some(Written(At(s, pid, Absent(job)), pid, job))
  {
    assert Step(hash, s, pid, Start(job)) == Some(At(s, pid, Absent(job)));
    hide Step, Writing, Written, Exec;
    ExecOne(hash, s, pid, Start(job));
    WritingRuns(hash, At(s, pid, Absent(job)), pid, job);
    ExecConcat(hash, s, [(pid, Start(job))], Writing(pid, job));
  }

  lemma Ending(hash: Hash, s: State, pid: nat, job: Job)
    requires StageOf(s, pid) == Renamed(job)
    ensures !Honest(hash, job) ==> Step(hash, s, pid, Crash) == Some(At(Left(s, pid, job.target), pid, Idle))
    ensures !Honest(hash, job) ==> Step(hash, s, pid, Settle) == Some(At(Removed(s, job.target), pid, Idle))
    ensures Honest(hash, job) ==> Step(hash, s, pid, Settle) == Some(At(s, pid, Idle))
  {
  }

  /** Run with nobody else at work, a call comes to what the store's own insert_stream comes to: the
      bytes are in when they keep the promise, and the objects are as they were when they do not. */
  lemma AloneIsTheCall(hash: Hash, s: State, pid: nat, job: Job)
    requires StageOf(s, pid).Idle? && Object(job.target) !in s.files
    ensures var end := Exec(hash, s, [(pid, Start(job))] + Writing(pid, job) + [(pid, Settle)]);
      && end.Some? && StageOf(end.value, pid).Idle? && end.value.stranded == s.stranded - {job.target}
      && ObjectsOf(end.value.files)
        == if Honest(hash, job) then ObjectsOf(s.files)[job.target := job.bytes] else ObjectsOf(s.files)
  {
    var t := Written(At(s, pid, Absent(job)), pid, job);
    var without := s.files - {Temp(job, pid)};
    assert t.files - {Object(job.target)} == without;
    ObjectsIgnoreTemporary(s.files, Temp(job, pid), []);
    ObjectsPut(without, job.target, job.bytes);
    Ending(hash, t, pid, job);
    hide Writing, Exec, ObjectsOf, Step, Honest;
    CallRuns(hash, s, pid, job);
    ExecConcat(hash, s, [(pid, Start(job))] + Writing(pid, job), [(pid, Settle)]);
    ExecOne(hash, t, pid, Settle);
  }

  /** What a call that was ended after its rename leaves. */
  function Abandoned(s: State, pid: nat, job: Job): State {
    At(Left(Written(At(s, pid, Absent(job)), pid, job), pid, job.target), pid, Idle)
  }

  /** A crash after the rename leaves bytes under a digest they do not hash to; the next call for that
      digest finds them there, whatever it was going to put in, and is told it is done. */
  lemma CrashLeavesABadObject(hash: Hash, s: State, pid: nat, job: Job)
    requires StageOf(s, pid).Idle? && Object(job.target) !in s.files && !Honest(hash, job)
    ensures Exec(hash, s, [(pid, Start(job))] + Writing(pid, job) + [(pid, Crash)]) == Some(Abandoned(s, pid, job))
    ensures var t := Abandoned(s, pid, job);
      && Bad(hash, t, job.target) && job.target in t.stranded
      && (Quiescent(s) ==> Quiescent(t))
      && forall later: Job, next | later.target == job.target && StageOf(t, next).Idle? ::
           Step(hash, t, next, Start(later)) == Some(t)
  {
    CallRuns(hash, s, pid, job);
    Ending(hash, Written(At(s, pid, Absent(job)), pid, job), pid, job);
    ExecConcat(hash, s, [(pid, Start(job))] + Writing(pid, job), [(pid, Crash)]);
    ExecOne(hash, Written(At(s, pid, Absent(job)), pid, job), pid, Crash);
    hide Writing, Exec;
  }

  /** One process starts, and before it writes anything another puts the promised bytes in. */
  function Opening(bad: Job, good: Job): Schedule {
    [(0, Start(bad))] + ([(1, Start(good))] + Writing(1, good)) + [(1, Settle)]
  }

  /** Then the first goes on, and its bad bytes take away what the other has just put in. */
  function Clash(bad: Job, good: Job): Schedule {
    Opening(bad, good) + Writing(0, bad) + [(0, Settle)]
  }

  lemma ClashRuns(hash: Hash, s: State, bad: Job, good: Job, one: State, two: State, three: State)
    requires s.stages == map[] && Object(bad.target) !in s.files
    requires bad.target == good.target && !Honest(hash, bad) && Honest(hash, good)
    requires one == At(s, 0, Absent(bad))
    requires two == At(Written(At(one, 1, Absent(good)), 1, good), 1, Idle)
    requires three == Written(two, 0, bad)
    ensures Exec(hash, s, Opening(bad, good)) == Some(two)
    ensures Exec(hash, s, Clash(bad, good)) == Some(At(Removed(three, bad.target), 0, Idle))
  {
    assert Step(hash, s, 0, Start(bad)) == Some(one);
    assert StageOf(two, 0) == Absent(bad);
    var written := Written(At(one, 1, Absent(good)), 1, good);
    assert StageOf(written, 1) == Renamed(good) && StageOf(three, 0) == Renamed(bad);
    hide Step, Writing, Exec, Written;
    ExecOne(hash, s, 0, Start(bad));
    CallRuns(hash, one, 1, good);
    Ending(hash, written, 1, good);
    ExecOne(hash, written, 1, Settle);
    WritingRuns(hash, two, 0, bad);
    Ending(hash, three, 0, bad);
    ExecOne(hash, three, 0, Settle);
    var a, b := [(0, Start(bad))], [(1, Start(good))] + Writing(1, good);
    ExecConcat(hash, s, a, b);
    ExecConcat(hash, s, a + b, [(1, Settle)]);
    ExecConcat(hash, s, a + b + [(1, Settle)], Writing(0, bad));
    ExecConcat(hash, s, a + b + [(1, Settle)] + Writing(0, bad), [(0, Settle)]);
  }

  /** Without any crash, a call that was told its bytes are in can find them gone: another process that
      was promised the same digest, and got other bytes, renames over them and then removes them. */
  lemma BadCallRemovesAGoodObject(hash: Hash, s: State, bad: Job, good: Job)
    requires s.stages == map[] && Object(bad.target) !in s.files
    requires bad.target == good.target && !Honest(hash, bad) && Honest(hash, good)
    ensures Undisturbed(Clash(bad, good))
    ensures var told := Exec(hash, s, Opening(bad, good));
      told.Some? && Good(hash, told.value, good.target) && StageOf(told.value, 1).Idle?
    ensures var end := Exec(hash, s, Clash(bad, good));
      end.Some? && Quiescent(end.value) && Object(good.target) !in end.value.files
  {
    hide Exec, Clash, Opening, Undisturbed, Written, Quiescent, StageOf;
    ClashIsUndisturbed(bad, good);
    var one := At(s, 0, Absent(bad));
    var two := At(Written(At(one, 1, Absent(good)), 1, good), 1, Idle);
    var three := Written(two, 0, bad);
    ClashRuns(hash, s, bad, good, one, two, three);
    ClashStates(s, one, two, bad, good);
  }

  lemma ClashStates(s: State, one: State, two: State, bad: Job, good: Job)
    requires s.stages == map[] && bad.target == good.target && one == At(s, 0, Absent(bad))
    requires two == At(Written(At(one, 1, Absent(good)), 1, good), 1, Idle)
    ensures Object(good.target) in two.files && two.files[Object(good.target)] == good.bytes && StageOf(two, 1).Idle?
    ensures var three := Written(two, 0, bad);
      var end := At(Removed(three, bad.target), 0, Idle);
      Quiescent(end) && Object(good.target) !in end.files
  {
  }

  lemma ClashIsUndisturbed(bad: Job, good: Job)
    ensures Undisturbed(Clash(bad, good))
  {
  }

  // A digest that is there from the start

  /** The object at a digest is what it was, and nobody is at work on it. */
  ghost predicate Untouched(s: State, t: State, d: Blake3) {
    && Object(d) in s.files && Object(d) in t.files && t.files[Object(d)] == s.files[Object(d)]
    && forall pid | pid in t.stages && !t.stages[pid].Idle? :: t.stages[pid].job.target != d
  }

  lemma UntouchedStep(hash: Hash, s: State, t: State, pid: nat, a: Action, d: Blake3)
    requires Untouched(s, t, d) && Step(hash, t, pid, a).Some?
    ensures Untouched(s, Step(hash, t, pid, a).value, d)
  {
    hide Honest;
  }

  /** No call for it gets past its start, so whatever the calls may break it stays as it is. */
  lemma {:induction false} StaysUntouched(hash: Hash, s: State, t: State, schedule: Schedule, d: Blake3)
    requires Untouched(s, t, d) && Exec(hash, t, schedule).Some?
    ensures Untouched(s, Exec(hash, t, schedule).value, d)
    decreases |schedule|
  {
    if schedule != [] {
      hide Untouched, Step;
      var (pid, a) := schedule[0];
      UntouchedStep(hash, s, t, pid, a, d);
      StaysUntouched(hash, s, Step(hash, t, pid, a).value, schedule[1..], d);
    }
  }

  // Which digests are at risk

  /** Which calls may be made. */
  type Calls = Job -> bool

  predicate Uses(allowed: Calls, schedule: Schedule) {
    forall i | 0 <= i < |schedule| && schedule[i].1.Start? :: allowed(schedule[i].1.job)
  }

  // No truncated objects

  /** Every call at work is one of these, and every object was there at the start or is all the bytes of
      one of them. */
  ghost predicate Whole(allowed: Calls, s: State, t: State) {
    && (forall pid | pid in t.stages && !t.stages[pid].Idle? :: allowed(t.stages[pid].job))
    && (forall d | Object(d) in t.files :: Kept(s, t, d) || allowed(Job(d, t.files[Object(d)])))
  }

  ghost predicate Kept(s: State, t: State, d: Blake3)
    requires Object(d) in t.files
  {
    Object(d) in s.files && t.files[Object(d)] == s.files[Object(d)]
  }

  lemma WholeStep(hash: Hash, allowed: Calls, s: State, t: State, pid: nat, a: Action)
    requires Partial(t) && Whole(allowed, s, t) && Step(hash, t, pid, a).Some?
    requires a.Start? ==> allowed(a.job)
    ensures Whole(allowed, s, Step(hash, t, pid, a).value)
  {
    if StageOf(t, pid).Filling? {
      WholeBeforeRename(t, pid);
      var job := StageOf(t, pid).job;
      assert job == Job(job.target, job.bytes);
    }
    hide Partial, Honest;
  }

  lemma {:induction false} WholeRun(hash: Hash, allowed: Calls, s: State, t: State, schedule: Schedule)
    requires Partial(t) && Whole(allowed, s, t) && Uses(allowed, schedule) && Exec(hash, t, schedule).Some?
    ensures Whole(allowed, s, Exec(hash, t, schedule).value)
    decreases |schedule|
  {
    if schedule != [] {
      hide Partial, Whole, Step;
      var (pid, a) := schedule[0];
      StepKeepsPartial(hash, t, pid, a);
      WholeStep(hash, allowed, s, t, pid, a);
      WholeRun(hash, allowed, s, Step(hash, t, pid, a).value, schedule[1..]);
    }
  }

  predicate Started(schedule: Schedule, job: Job) {
    exists i :: 0 <= i < |schedule| && schedule[i].1 == Start(job)
  }

  /** In every state of every interleaving, whatever crashes or is refused at any step, an object is the one
      there at the start or all the bytes of a call that was made for its digest: never part of them. */
  lemma NoTruncatedObject(hash: Hash, s: State, schedule: Schedule, d: Blake3)
    requires s.stages == map[] && Exec(hash, s, schedule).Some?
    ensures var t := Exec(hash, s, schedule).value;
      Object(d) in t.files ==> Kept(s, t, d) || Started(schedule, Job(d, t.files[Object(d)]))
  {
    hide Exec;
    var allowed: Calls := (job: Job) => Started(schedule, job);
    assert forall i | 0 <= i < |schedule| && schedule[i].1.Start? :: schedule[i].1 == Start(schedule[i].1.job);
    WholeRun(hash, allowed, s, s, schedule);
  }

  // What such calls can do to a digest

  /** No run of such calls, crashes and refusals included, comes to rest with a bad object at the digest. */
  ghost predicate NeverBad(hash: Hash, s: State, allowed: Calls, d: Blake3) {
    forall schedule: Schedule | Uses(allowed, schedule) && Exec(hash, s, schedule).Some?
      && Quiescent(Exec(hash, s, schedule).value) :: !Bad(hash, Exec(hash, s, schedule).value, d)
  }

  /** One run of such calls goes on after another. */
  ghost predicate GoesOn(hash: Hash, s: State, allowed: Calls, calm: bool, a: Schedule, b: Schedule) {
    && Uses(allowed, a + b) && (calm ==> Undisturbed(a + b))
    && Exec(hash, s, a).Some? && Exec(hash, s, a + b).Some?
  }

  /** A good object at the digest, once there, is there in every later state. */
  ghost predicate KeepsGood(hash: Hash, s: State, allowed: Calls, d: Blake3, calm: bool) {
    forall a: Schedule, b: Schedule |
      GoesOn(hash, s, allowed, calm, a, b) && Good(hash, Exec(hash, s, a).value, d)
      :: Good(hash, Exec(hash, s, a + b).value, d)
  }

  /** An object at the digest, good or bad, once there, is there in every later state. */
  ghost predicate KeepsAny(hash: Hash, s: State, allowed: Calls, d: Blake3, calm: bool) {
    forall a: Schedule, b: Schedule |
      GoesOn(hash, s, allowed, calm, a, b) && Object(d) in Exec(hash, s, a).value.files
      :: Object(d) in Exec(hash, s, a + b).value.files
  }

  ghost predicate Good(hash: Hash, s: State, d: Blake3) {
    Object(d) in s.files && hash(s.files[Object(d)]) == d
  }

  /** A call that may be made for the digest keeps its promise. */
  predicate KeepsIfAllowed(hash: Hash, allowed: Calls, d: Blake3, job: Job) {
    allowed(job) && job.target == d ==> Honest(hash, job)
  }

  lemma FreshStart(hash: Hash, s: State, d: Blake3)
    requires Fresh(hash, s)
    ensures Partial(s) && Quiescent(s)
    ensures Object(d) in s.files ==> Untouched(s, s, d) && Good(hash, s, d)
    ensures Object(d) !in s.files ==> Uniform(hash, s, d, true) && Uniform(hash, s, d, false)
  {
    HasObject(s.files, d);
  }

  /** A fresh store can be left with bad bytes at a digest exactly when it does not have the digest and some
      call for it may break its promise. */
  lemma NeverBadExactly(hash: Hash, s: State, allowed: Calls, d: Blake3)
    requires Fresh(hash, s)
    ensures NeverBad(hash, s, allowed, d)
       <==> Object(d) in s.files || forall job: Job :: KeepsIfAllowed(hash, allowed, d, job)
  {
    FreshStart(hash, s, d);
    hide Exec, Fresh, Partial, JobsFor;
    if Object(d) in s.files || forall job: Job :: KeepsIfAllowed(hash, allowed, d, job) {
      forall schedule: Schedule | Uses(allowed, schedule) && Exec(hash, s, schedule).Some?
        ensures !Bad(hash, Exec(hash, s, schedule).value, d)
      {
        if Object(d) in s.files {
          StaysUntouched(hash, s, s, schedule, d);
        } else {
          StartsKeep(hash, allowed, schedule, d);
          OneDigest(hash, s, schedule, d, true);
        }
      }
    } else {
      var job: Job :| !KeepsIfAllowed(hash, allowed, d, job);
      BadIsPossible(hash, s, allowed, job);
    }
  }

  lemma StartsKeep(hash: Hash, allowed: Calls, schedule: Schedule, d: Blake3)
    requires Uses(allowed, schedule) && forall job: Job :: KeepsIfAllowed(hash, allowed, d, job)
    ensures StartsFor(hash, schedule, d, true)
  {
    hide Honest;
    forall i | 0 <= i < |schedule| && schedule[i].1.Start? && schedule[i].1.job.target == d
      ensures Honest(hash, schedule[i].1.job)
    {
      assert KeepsIfAllowed(hash, allowed, d, schedule[i].1.job);
    }
  }

  lemma BadIsPossible(hash: Hash, s: State, allowed: Calls, job: Job)
    requires s.stages == map[] && Object(job.target) !in s.files && allowed(job) && !Honest(hash, job)
    ensures !NeverBad(hash, s, allowed, job.target)
  {
    var schedule: Schedule := [(0, Start(job))] + Writing(0, job) + [(0, Crash)];
    assert Uses(allowed, schedule);
    assert Quiescent(s);
    hide Exec, Writing, Abandoned, Bad, Quiescent;
    CrashLeavesABadObject(hash, s, 0, job);
    assert Exec(hash, s, schedule).Some?;
  }

  /** A good object can go away from a fresh store exactly when it was not there at the start, one call for
      its digest may keep its promise and another may break it; no crash is needed for that, and none makes
      it worse. */
  lemma KeepsGoodExactly(hash: Hash, s: State, allowed: Calls, d: Blake3, calm: bool)
    requires Fresh(hash, s)
    ensures KeepsGood(hash, s, allowed, d, calm) <==>
      Object(d) in s.files || !exists good: Job, bad: Job ::
        && allowed(good) && allowed(bad) && good.target == d == bad.target
        && Honest(hash, good) && !Honest(hash, bad)
  {
    hide Exec, Fresh;
    if good: Job, bad: Job :|
      && Object(d) !in s.files
      && allowed(good) && allowed(bad) && good.target == d == bad.target
      && Honest(hash, good) && !Honest(hash, bad)
    {
      assert s.stages == map[] by { FreshIsIdle(hash, s); }
      GoodIsLost(hash, s, allowed, good, bad, calm);
    } else {
      var keep := forall job: Job | allowed(job) && job.target == d :: Honest(hash, job);
      assert Object(d) in s.files || keep || forall job: Job | allowed(job) && job.target == d :: !Honest(hash, job);
      forall a: Schedule, b: Schedule |
        GoesOn(hash, s, allowed, calm, a, b) && Good(hash, Exec(hash, s, a).value, d)
        ensures Good(hash, Exec(hash, s, a + b).value, d)
      {
        GoodIsKept(hash, s, allowed, d, keep, a, b);
      }
    }
  }

  lemma FreshIsIdle(hash: Hash, s: State)
    requires Fresh(hash, s)
    ensures s.stages == map[]
  {
  }

  lemma GoodIsKept(hash: Hash, s: State, allowed: Calls, d: Blake3, keep: bool, a: Schedule, b: Schedule)
    requires Fresh(hash, s)
    requires Object(d) in s.files || forall job: Job | allowed(job) && job.target == d :: Honest(hash, job) == keep
    requires GoesOn(hash, s, allowed, false, a, b) && Good(hash, Exec(hash, s, a).value, d)
    ensures Good(hash, Exec(hash, s, a + b).value, d)
  {
    UsesParts(allowed, a, b);
    FreshStart(hash, s, d);
    hide Exec, Partial, JobsFor, Honest, Fresh;
    if Object(d) in s.files {
      StaysUntouched(hash, s, s, a + b, d);
    } else {
      ExecConcat(hash, s, a, b);
      OneDigest(hash, s, a, d, keep);
      OneDigest(hash, Exec(hash, s, a).value, b, d, keep);
    }
  }

  lemma UsesParts(allowed: Calls, a: Schedule, b: Schedule)
    requires Uses(allowed, a + b)
    ensures Uses(allowed, a) && Uses(allowed, b)
  {
    assert forall i | 0 <= i < |a| :: (a + b)[i] == a[i];
    assert forall i | 0 <= i < |b| :: (a + b)[|a| + i] == b[i];
  }

  lemma GoodIsLost(hash: Hash, s: State, allowed: Calls, good: Job, bad: Job, calm: bool)
    requires s.stages == map[] && Object(good.target) !in s.files
    requires allowed(good) && allowed(bad) && good.target == bad.target
    requires Honest(hash, good) && !Honest(hash, bad)
    ensures !KeepsGood(hash, s, allowed, good.target, calm)
  {
    var a, b := Opening(bad, good), Writing(0, bad) + [(0, Settle)];
    assert a + b == Clash(bad, good);
    assert Uses(allowed, a + b);
    hide Exec, Clash, Opening, Writing, Undisturbed;
    BadCallRemovesAGoodObject(hash, s, bad, good);
    assert GoesOn(hash, s, allowed, calm, a, b) && Good(hash, Exec(hash, s, a).value, good.target);
    assert !Good(hash, Exec(hash, s, a + b).value, good.target);
  }

  /** Being told that a digest is there says that it will be exactly when it was there at the start or every
      call for it keeps its promise: what one broken call put there is there only until it is taken away. */
  lemma KeepsAnyExactly(hash: Hash, s: State, allowed: Calls, d: Blake3, calm: bool)
    requires Fresh(hash, s)
    ensures KeepsAny(hash, s, allowed, d, calm)
       <==> Object(d) in s.files || forall job: Job :: KeepsIfAllowed(hash, allowed, d, job)
  {
    FreshStart(hash, s, d);
    if Object(d) in s.files || forall job: Job :: KeepsIfAllowed(hash, allowed, d, job) {
      hide Exec, Fresh, Partial, JobsFor;
      forall a: Schedule, b: Schedule |
        GoesOn(hash, s, allowed, calm, a, b) && Object(d) in Exec(hash, s, a).value.files
        ensures Object(d) in Exec(hash, s, a + b).value.files
      {
        AnyIsKept(hash, s, allowed, d, a, b);
      }
    } else {
      var job: Job :| !KeepsIfAllowed(hash, allowed, d, job);
      AnyIsLost(hash, s, allowed, job, calm);
    }
  }

  lemma AnyIsKept(hash: Hash, s: State, allowed: Calls, d: Blake3, a: Schedule, b: Schedule)
    requires Fresh(hash, s) && (Object(d) in s.files || forall job: Job :: KeepsIfAllowed(hash, allowed, d, job))
    requires GoesOn(hash, s, allowed, false, a, b) && Object(d) in Exec(hash, s, a).value.files
    ensures Object(d) in Exec(hash, s, a + b).value.files
  {
    UsesParts(allowed, a, b);
    FreshStart(hash, s, d);
    hide Exec, Partial, JobsFor, Honest, Fresh, ObjectFor;
    if Object(d) in s.files {
      StaysUntouched(hash, s, s, a + b, d);
    } else {
      StartsKeep(hash, allowed, a, d);
      StartsKeep(hash, allowed, b, d);
      ExecConcat(hash, s, a, b);
      OneDigest(hash, s, a, d, true);
      OneDigest(hash, Exec(hash, s, a).value, b, d, true);
    }
  }

  lemma AnyIsLost(hash: Hash, s: State, allowed: Calls, job: Job, calm: bool)
    requires s.stages == map[] && Object(job.target) !in s.files && allowed(job) && !Honest(hash, job)
    ensures !KeepsAny(hash, s, allowed, job.target, calm)
  {
    var a: Schedule, b: Schedule := [(0, Start(job))] + Writing(0, job), [(0, Settle)];
    assert Uses(allowed, a + b) && Undisturbed(a + b);
    var t := Written(At(s, 0, Absent(job)), 0, job);
    assert Object(job.target) in t.files && StageOf(t, 0) == Renamed(job);
    CallRuns(hash, s, 0, job);
    Ending(hash, t, 0, job);
    ExecOne(hash, t, 0, Settle);
    hide Exec, Writing, Written, Undisturbed;
    ExecConcat(hash, s, a, b);
    assert GoesOn(hash, s, allowed, calm, a, b) && Object(job.target) in Exec(hash, s, a).value.files;
    assert Object(job.target) !in Exec(hash, s, a + b).value.files;
  }
}
