/** Any number of retention and reconciliation runs interleaved, statement by statement and request
    by request, with any number of uploads and thumbnail writers, whatever else happens to the
    avatars and thumbnails tables: exactly when a blob loses its object, and what protects blobs
    younger than the grace period. The two jobs are the only ones that remove objects of blobs. */
module YoungBlobs {
  import opened Wrappers
  import opened AvatarTables
  import opened BlobWorld

  /** Uploads turn away from a blob being deleted; thumbnail writers store it again. */
  datatype Kind = Creating | Thumbnailing

  datatype Phase = Looked(ready: bool, deleting: bool) | PutDone | PutFailed

  /** A process that got or created a blob row, and how far it is with the content. */
  datatype Process = Process(kind: Kind, b: BlobId, digest: Digest, phase: Phase)

  /** A retention run between two of its calls. */
  datatype Job =
    | Listed(cutoff: Time, rest: seq<BlobId>)
    | HoldingClaim(cutoff: Time, rest: seq<BlobId>, b: BlobId, key: string)
    | ObjectGone(cutoff: Time, rest: seq<BlobId>, b: BlobId)

  /** A reconciliation run between two of its calls: scanning its list, or about to remove an object
      it has found no row for. */
  datatype Sweep = Scanning(rest: seq<string>) | FoundStray(rest: seq<string>, key: string)

  datatype State = State(
    grace: int,
    now: Time,
    w: World,
    created: map<BlobId, Time>,     // history: every blob row ever inserted
    processes: map<nat, Process>,
    jobs: map<nat, Job>,
    sweeps: map<nat, Sweep>)

  /** What the caller makes of a request to the object store: it succeeded, it failed, or it is sent
      again. */
  datatype Answer = Fine | GivenUp | Retried

  /** `ok` and `answer` are what the caller sees of a call, `took` whether it had its effect. */
  datatype Action =
    | Tick(elapsed: nat)
    | ChangeTables(t: Tables)
    | GetOrCreate(p: nat, kind: Kind, digest: Digest, b: BlobId, createdAt: Time)
    | Upload(p: nat, answer: Answer, took: bool)
    | MarkReady(p: nat)
    | MarkFailed(p: nat)
    | Leave(p: nat)
    | StartRetention(j: nat, readAt: Time, ids: seq<BlobId>)
    | Claim(j: nat, ok: bool, took: bool)
    | RemoveObject(j: nat, answer: Answer, took: bool)
    | DeleteRow(j: nat, took: bool)
    | StopJob(j: nat)
    | StartReconcile(r: nat, readAt: Time, keys: seq<string>)
    | CheckObject(r: nat, ok: bool)
    | SweepObject(r: nat, answer: Answer, took: bool)
    | StopReconcile(r: nat)

  function Init(grace: int): State {
    State(grace, 0, World(Tables(map[], map[]), map[], map[]), map[], map[], map[], map[])
  }

  /** The row a get-or-create yields: the one with this digest, else a row with a new id. */
  ghost predicate Yields(s: State, digest: Digest, b: BlobId) {
    if b in s.w.blobs then s.w.blobs[b].digest == digest
    else b !in s.created && forall other :: other in s.w.blobs ==> s.w.blobs[other].digest != digest
  }

  predicate MayUpload(c: Process) {
    c.phase.Looked? && !c.phase.ready && (c.kind.Creating? ==> !c.phase.deleting)
  }

  ghost predicate Enabled(s: State, act: Action) {
    match act
    case Tick(_) => true
    case ChangeTables(_) => true
    case GetOrCreate(p, _, digest, b, createdAt) => p !in s.processes && Yields(s, digest, b) && createdAt <= s.now
    case Upload(p, answer, took) => p in s.processes && MayUpload(s.processes[p]) && (answer.Fine? ==> took)
    case MarkReady(p) => p in s.processes && s.processes[p].phase.PutDone?
    case MarkFailed(p) => p in s.processes && s.processes[p].phase.PutFailed?
    case Leave(p) => p in s.processes
    case StartRetention(j, readAt, ids) =>
      && j !in s.jobs && readAt <= s.now
      && forall b :: b in ids ==> b in Orphans(s.w, readAt - s.grace)
    case Claim(j, ok, took) => j in s.jobs && s.jobs[j].Listed? && s.jobs[j].rest != [] && (ok ==> took)
    case RemoveObject(j, answer, took) => j in s.jobs && s.jobs[j].HoldingClaim? && (answer.Fine? ==> took)
    case DeleteRow(j, _) => j in s.jobs && s.jobs[j].ObjectGone?
    case StopJob(j) => j in s.jobs
    case StartReconcile(r, readAt, keys) =>
      && r !in s.sweeps && readAt <= s.now
      && forall key :: key in keys ==> key in s.w.objects && BLOB_PREFIX <= key && s.w.objects[key] < readAt - s.grace
    case CheckObject(r, _) => r in s.sweeps && s.sweeps[r].Scanning? && s.sweeps[r].rest != []
    case SweepObject(r, answer, took) => r in s.sweeps && s.sweeps[r].FoundStray? && (answer.Fine? ==> took)
    case StopReconcile(r) => r in s.sweeps
  }

  function Row(s: State, digest: Digest, b: BlobId, createdAt: Time): Blob {
    if b in s.w.blobs then s.w.blobs[b] else Blob(digest, KeyOf(digest), BlobUploading, createdAt, createdAt)
  }

  function Got(s: State, p: nat, kind: Kind, digest: Digest, b: BlobId, createdAt: Time): State {
    var row := Row(s, digest, b, createdAt);
    s.(w := s.w.(blobs := s.w.blobs[b := row]),
       created := if b in s.w.blobs then s.created else s.created[b := createdAt],
       processes := s.processes[p := Process(kind, b, digest, Looked(row.status.Ready?, row.status.Deleting?))])
  }

  function Stored(s: State, p: nat, answer: Answer, took: bool): State
    requires p in s.processes
  {
    var c := s.processes[p];
    s.(w := if took then s.w.(objects := s.w.objects[KeyOf(c.digest) := s.now]) else s.w,
       processes := s.processes[p := match answer
                                     case Fine => c.(phase := PutDone)
                                     case GivenUp => c.(phase := PutFailed)
                                     case Retried => c])
  }

  function Marked(s: State, p: nat, status: BlobStatus): State
    requires p in s.processes
  {
    s.(w := s.w.(blobs := WithStatus(s.w.blobs, s.processes[p].b, status, s.now)), processes := s.processes - {p})
  }

  /** Claim the next candidate: go on with it when the claim was granted, else with the rest. */
  function Claimed(s: State, j: nat, ok: bool, took: bool): State
    requires j in s.jobs && s.jobs[j].rest != []
  {
    var job := s.jobs[j];
    var b := job.rest[0];
    s.(w := if took then ClaimForDeletion(s.w, b, s.now) else s.w,
       jobs := s.jobs[j := if ok && ClaimableForDeletion(s.w, b, s.now)
                           then HoldingClaim(job.cutoff, job.rest[1..], b, s.w.blobs[b].key)
                           else Listed(job.cutoff, job.rest[1..])])
  }

  function Removed(s: State, j: nat, answer: Answer, took: bool): State
    requires j in s.jobs && s.jobs[j].HoldingClaim?
  {
    var job := s.jobs[j];
    s.(w := if took then s.w.(objects := s.w.objects - {job.key}) else s.w,
       jobs := s.jobs[j := match answer
                           case Fine => ObjectGone(job.cutoff, job.rest, job.b)
                           case GivenUp => Listed(job.cutoff, job.rest)
                           case Retried => job])
  }

  function RowDeleted(s: State, j: nat, took: bool): State
    requires j in s.jobs && s.jobs[j].ObjectGone?
  {
    var job := s.jobs[j];
    s.(w := if took then DeleteBlobRow(s.w, job.b) else s.w, jobs := s.jobs[j := Listed(job.cutoff, job.rest)])
  }

  /** Look for a row that accounts for the next listed object; go on to remove it when there is none. */
  function Checked(s: State, r: nat, ok: bool): State
    requires r in s.sweeps && s.sweeps[r].rest != []
  {
    var rest := s.sweeps[r].rest;
    s.(sweeps := s.sweeps[r := if ok && !HasObject(s.w, rest[0]) then FoundStray(rest[1..], rest[0]) else Scanning(rest[1..])])
  }

  function Swept(s: State, r: nat, answer: Answer, took: bool): State
    requires r in s.sweeps && s.sweeps[r].FoundStray?
  {
    var sweep := s.sweeps[r];
    s.(w := if took then s.w.(objects := s.w.objects - {sweep.key}) else s.w,
       sweeps := s.sweeps[r := if answer.Retried? then sweep else Scanning(sweep.rest)])
  }

  ghost function Next(s: State, act: Action): State
    requires Enabled(s, act)
  {
    match act
    case Tick(elapsed) => s.(now := s.now + elapsed)
    case ChangeTables(t) => s.(w := s.w.(db := t))
    case GetOrCreate(p, kind, digest, b, createdAt) => Got(s, p, kind, digest, b, createdAt)
    case Upload(p, answer, took) => Stored(s, p, answer, took)
    case MarkReady(p) => Marked(s, p, Ready)
    case MarkFailed(p) => Marked(s, p, BlobFailed)
    case Leave(p) => s.(processes := s.processes - {p})
    case StartRetention(j, readAt, ids) => s.(jobs := s.jobs[j := Listed(readAt - s.grace, ids)])
    case Claim(j, ok, took) => Claimed(s, j, ok, took)
    case RemoveObject(j, answer, took) => Removed(s, j, answer, took)
    case DeleteRow(j, took) => RowDeleted(s, j, took)
    case StopJob(j) => s.(jobs := s.jobs - {j})
    case StartReconcile(r, _, keys) => s.(sweeps := s.sweeps[r := Scanning(keys)])
    case CheckObject(r, ok) => Checked(s, r, ok)
    case SweepObject(r, answer, took) => Swept(s, r, answer, took)
    case StopReconcile(r) => s.(sweeps := s.sweeps - {r})
  }

  ghost function Run(s: State, run: seq<Action>): Option<State> {
    if run == [] then Some(s)
    else
      var before := Run(s, run[..|run| - 1]);
      if before.Some? && Enabled(before.value, run[|run| - 1])
      then Some(Next(before.value, run[|run| - 1])) else None
  }

  lemma {:induction false} RunAppends(s: State, run: seq<Action>, act: Action)
    requires Run(s, run).Some? && Enabled(Run(s, run).value, act)
    ensures Run(s, run + [act]) == Some(Next(Run(s, run).value, act))
  {
  }

  lemma {:induction false} PrefixRuns(s: State, run: seq<Action>, i: nat)
    requires Run(s, run).Some? && i < |run|
    ensures Run(s, run[..i]).Some? && Enabled(Run(s, run[..i]).value, run[i])
    ensures Run(s, run[..i + 1]) == Some(Next(Run(s, run[..i]).value, run[i]))
  {
    var earlier := run[..|run| - 1];
    if i == |run| - 1 {
      assert run[..i + 1] == run;
    } else {
      PrefixRuns(s, earlier, i);
      assert earlier[..i] == run[..i] && earlier[..i + 1] == run[..i + 1];
    }
  }

  // ----- What every run keeps -----

  /** A blob that was inserted within the grace period. */
  predicate Young(s: State, b: BlobId) {
    b in s.created && s.created[b] >= s.now - s.grace
  }

  predicate Standing(w: World, b: BlobId) {
    b in w.blobs && !w.blobs[b].status.Deleting?
  }

  ghost predicate ProcessFits(s: State, c: Process) {
    c.b in s.created && (c.b in s.w.blobs ==> s.w.blobs[c.b].digest == c.digest)
  }

  predicate Old(s: State, job: Job, b: BlobId) {
    b in s.created && s.created[b] < job.cutoff
  }

  /** A retention run only ever holds blobs older than its cutoff. */
  ghost predicate JobFits(s: State, job: Job) {
    && job.cutoff <= s.now - s.grace
    && (forall b :: b in job.rest ==> Old(s, job, b))
    && (!job.Listed? ==> Old(s, job, job.b))
    && (job.HoldingClaim? && job.b in s.w.blobs ==> s.w.blobs[job.b].key == job.key)
  }

  ghost predicate RowsFit(s: State) {
    && DigestsUnique(s.w) && KeysMatch(s.w)
    && (forall b :: b in s.w.blobs ==> b in s.created && s.created[b] == s.w.blobs[b].createdAt)
  }

  ghost predicate YoungStand(s: State) {
    forall b :: Young(s, b) ==> Standing(s.w, b)
  }

  ghost predicate ProcessesFit(s: State) {
    forall p :: p in s.processes ==> ProcessFits(s, s.processes[p])
  }

  ghost predicate JobsFit(s: State) {
    forall j :: j in s.jobs ==> JobFits(s, s.jobs[j])
  }

  ghost predicate Fits(s: State) {
    RowsFit(s) && YoungStand(s) && ProcessesFit(s) && JobsFit(s)
  }

  lemma QuietStepKeepsFits(s: State, act: Action)
    requires Fits(s) && Enabled(s, act)
    requires act.Tick? || act.ChangeTables? || act.Leave? || act.StopJob? || act.Upload?
             || act.StartReconcile? || act.CheckObject? || act.SweepObject? || act.StopReconcile?
    ensures Fits(Next(s, act))
  {
    var s' := Next(s, act);
    forall b | Young(s', b)
      ensures Standing(s'.w, b)
    {
      assert Young(s, b);
    }
  }

  lemma GotKeepsRows(s: State, p: nat, kind: Kind, digest: Digest, b: BlobId, createdAt: Time)
    requires RowsFit(s) && Yields(s, digest, b)
    ensures RowsFit(Got(s, p, kind, digest, b, createdAt))
  {
  }

  lemma GotKeepsYoung(s: State, p: nat, kind: Kind, digest: Digest, b: BlobId, createdAt: Time)
    requires YoungStand(s) && Yields(s, digest, b)
    ensures YoungStand(Got(s, p, kind, digest, b, createdAt))
  {
    var s' := Got(s, p, kind, digest, b, createdAt);
    forall other | Young(s', other)
      ensures Standing(s'.w, other)
    {
      assert other == b || Young(s, other);
      assert b in s.w.blobs ==> Young(s, other);
    }
  }

  lemma GotKeepsProcesses(s: State, p: nat, kind: Kind, digest: Digest, b: BlobId, createdAt: Time)
    requires ProcessesFit(s) && Yields(s, digest, b) && (b in s.w.blobs ==> b in s.created)
    ensures ProcessesFit(Got(s, p, kind, digest, b, createdAt))
  {
    var s' := Got(s, p, kind, digest, b, createdAt);
    forall q | q in s'.processes
      ensures ProcessFits(s', s'.processes[q])
    {
      assert q != p ==> ProcessFits(s, s.processes[q]);
    }
  }

  lemma GotKeepsJobs(s: State, p: nat, kind: Kind, digest: Digest, b: BlobId, createdAt: Time)
    requires JobsFit(s) && Yields(s, digest, b)
    ensures JobsFit(Got(s, p, kind, digest, b, createdAt))
  {
    var s' := Got(s, p, kind, digest, b, createdAt);
    forall j | j in s'.jobs
      ensures JobFits(s', s'.jobs[j])
    {
      assert JobFits(s, s.jobs[j]);
    }
  }

  lemma GotKeepsFits(s: State, p: nat, kind: Kind, digest: Digest, b: BlobId, createdAt: Time)
    requires Fits(s) && p !in s.processes && Yields(s, digest, b)
    ensures Fits(Got(s, p, kind, digest, b, createdAt))
  {
    assert b in s.w.blobs ==> b in s.created;
    hide RowsFit, YoungStand, ProcessesFit, JobsFit, Yields, Got;
    GotKeepsRows(s, p, kind, digest, b, createdAt);
    GotKeepsYoung(s, p, kind, digest, b, createdAt);
    GotKeepsProcesses(s, p, kind, digest, b, createdAt);
    GotKeepsJobs(s, p, kind, digest, b, createdAt);
  }

  /** The rows are the same but for their statuses and the times of their changes. */
  ghost predicate SameRows(before: map<BlobId, Blob>, after: map<BlobId, Blob>) {
    && before.Keys == after.Keys
    && forall b :: b in after ==>
         after[b].digest == before[b].digest && after[b].key == before[b].key && after[b].createdAt == before[b].createdAt
  }

  lemma SameRowsFit(s: State, s': State)
    requires RowsFit(s) && SameRows(s.w.blobs, s'.w.blobs) && s'.created == s.created
    ensures RowsFit(s')
  {
  }

  lemma SameRowsKeepTheRest(s: State, s': State)
    requires SameRows(s.w.blobs, s'.w.blobs) && s'.created == s.created && s'.now == s.now && s'.grace == s.grace
    ensures forall b :: Young(s', b) <==> Young(s, b)
    ensures forall c :: ProcessFits(s, c) ==> ProcessFits(s', c)
    ensures forall job :: JobFits(s, job) ==> JobFits(s', job)
  {
  }

  lemma MarkedKeepsFits(s: State, p: nat, status: BlobStatus)
    requires Fits(s) && p in s.processes && !status.Deleting?
    ensures Fits(Marked(s, p, status))
  {
    var s' := Marked(s, p, status);
    SameRowsFit(s, s');
    SameRowsKeepTheRest(s, s');
    assert forall b :: Standing(s.w, b) ==> Standing(s'.w, b);
    hide RowsFit, ProcessFits, JobFits, Standing, Young, SameRows;
  }

  lemma StartKeepsFits(s: State, act: Action)
    requires Fits(s) && Enabled(s, act) && act.StartRetention?
    ensures Fits(Next(s, act))
  {
    var s' := Next(s, act);
    assert forall b :: Young(s', b) <==> Young(s, b);
  }

  lemma ClaimSparesOthers(w: World, b: BlobId, now: Time)
    ensures SameRows(w.blobs, ClaimForDeletion(w, b, now).blobs)
    ensures forall other :: other != b && Standing(w, other) ==> Standing(ClaimForDeletion(w, b, now), other)
  {
  }

  /** The next candidate is older than the cutoff, so claiming it touches no young blob. */
  lemma ClaimedKeepsFits(s: State, j: nat, ok: bool, took: bool)
    requires Fits(s) && j in s.jobs && s.jobs[j].Listed? && s.jobs[j].rest != []
    ensures Fits(Claimed(s, j, ok, took))
  {
    var s', job := Claimed(s, j, ok, took), s.jobs[j];
    assert JobFits(s, job) && Old(s, job, job.rest[0]) && !Young(s, job.rest[0]);
    assert forall b :: b in job.rest[1..] ==> Old(s, job, b);
    assert JobFits(s, s'.jobs[j]);
    ClaimSparesOthers(s.w, job.rest[0], s.now);
    hide ClaimForDeletion;
    SameRowsFit(s, s');
    SameRowsKeepTheRest(s, s');
    hide RowsFit, ProcessFits, JobFits, Standing, Young, SameRows;
  }

  lemma RemovedKeepsFits(s: State, j: nat, answer: Answer, took: bool)
    requires Fits(s) && j in s.jobs && s.jobs[j].HoldingClaim?
    ensures Fits(Removed(s, j, answer, took))
  {
    var s' := Removed(s, j, answer, took);
    assert JobFits(s, s.jobs[j]);
    assert forall b :: Young(s', b) <==> Young(s, b);
  }

  lemma RowDeletedKeepsFits(s: State, j: nat, took: bool)
    requires Fits(s) && j in s.jobs && s.jobs[j].ObjectGone?
    ensures Fits(RowDeleted(s, j, took))
  {
    var s' := RowDeleted(s, j, took);
    assert JobFits(s, s.jobs[j]);
    forall b | Young(s', b)
      ensures Standing(s'.w, b)
    {
      assert Young(s, b) && b != s.jobs[j].b;
    }
  }

  lemma StepKeepsFits(s: State, act: Action)
    requires Fits(s) && Enabled(s, act)
    ensures Fits(Next(s, act))
  {
    hide Fits;
    match act
    case GetOrCreate(p, kind, digest, b, createdAt) => GotKeepsFits(s, p, kind, digest, b, createdAt);
    case MarkReady(p) => MarkedKeepsFits(s, p, Ready);
    case MarkFailed(p) => MarkedKeepsFits(s, p, BlobFailed);
    case StartRetention(_, _, _) => StartKeepsFits(s, act);
    case Claim(j, ok, took) => ClaimedKeepsFits(s, j, ok, took);
    case RemoveObject(j, answer, took) => RemovedKeepsFits(s, j, answer, took);
    case DeleteRow(j, took) => RowDeletedKeepsFits(s, j, took);
    case _ => QuietStepKeepsFits(s, act);
  }

  lemma {:induction false} ReachableFits(grace: int, run: seq<Action>, s: State)
    requires Run(Init(grace), run) == Some(s)
    ensures Fits(s)
  {
    if run != [] {
      var before := Run(Init(grace), run[..|run| - 1]).value;
      ReachableFits(grace, run[..|run| - 1], before);
      StepKeepsFits(before, run[|run| - 1]);
    }
  }

  /** In every run, however the jobs overlap, every blob inserted within the grace period still has its
      row and is not being deleted. */
  lemma YoungRowsStand(grace: int, run: seq<Action>, s: State, b: BlobId)
    requires Run(Init(grace), run) == Some(s) && Young(s, b)
    ensures Standing(s.w, b) && s.w.blobs[b].createdAt == s.created[b]
  {
    ReachableFits(grace, run, s);
  }

  // ----- Exactly when a blob loses its object -----

  predicate HasStored(s: State, p: nat, b: BlobId) {
    p in s.processes && s.processes[p].b == b && s.processes[p].phase.PutDone?
  }

  /** The blob is ready, or a process has stored its content and may still mark it ready. */
  ghost predicate CountsOnObject(s: State, b: BlobId) {
    b in s.w.blobs && (s.w.blobs[b].status.Ready? || exists p :: HasStored(s, p, b))
  }

  ghost predicate Bare(s: State, b: BlobId) {
    CountsOnObject(s, b) && s.w.blobs[b].key !in s.w.objects
  }

  predicate ReadyWithoutObject(s: State, b: BlobId) {
    IsReady(s.w, b) && s.w.blobs[b].key !in s.w.objects
  }

  /** Being bare means to be ready without an object, or to become so by a mark that is due. */
  lemma BareMeansLoss(s: State, b: BlobId)
    requires Fits(s)
    ensures Bare(s, b) <==>
              ReadyWithoutObject(s, b)
              || exists p :: Enabled(s, MarkReady(p)) && ReadyWithoutObject(Next(s, MarkReady(p)), b)
  {
    if Bare(s, b) && !IsReady(s.w, b) {
      var p :| HasStored(s, p, b);
      assert Enabled(s, MarkReady(p)) && ReadyWithoutObject(Next(s, MarkReady(p)), b);
    }
    forall p | Enabled(s, MarkReady(p)) && ReadyWithoutObject(Next(s, MarkReady(p)), b)
      ensures Bare(s, b)
    {
      assert s.processes[p].b == b ==> HasStored(s, p, b);
    }
  }

  /** The step takes away the object under a key: a retention run after its claim, or a
      reconciliation run after it has found no row. */
  predicate Removes(s: State, act: Action, key: string) {
    match act
    case RemoveObject(j, _, took) => took && j in s.jobs && s.jobs[j].HoldingClaim? && s.jobs[j].key == key
    case SweepObject(r, _, took) => took && r in s.sweeps && s.sweeps[r].FoundStray? && s.sweeps[r].key == key
    case _ => false
  }

  /** The step removes the object of a blob that counts on it. */
  ghost predicate Undermines(s: State, act: Action, b: BlobId) {
    CountsOnObject(s, b) && Removes(s, act, s.w.blobs[b].key)
  }

  lemma GotUndermines(s: State, p: nat, kind: Kind, digest: Digest, b: BlobId, createdAt: Time, other: BlobId)
    requires Fits(s) && p !in s.processes && Yields(s, digest, b) && Bare(Got(s, p, kind, digest, b, createdAt), other)
    ensures Bare(s, other)
  {
    var s' := Got(s, p, kind, digest, b, createdAt);
    forall q | HasStored(s', q, other)
      ensures HasStored(s, q, other) && ProcessFits(s, s.processes[q])
    {
    }
  }

  lemma StoredUndermines(s: State, p: nat, answer: Answer, took: bool, b: BlobId)
    requires Fits(s) && p in s.processes && (answer.Fine? ==> took) && Bare(Stored(s, p, answer, took), b)
    ensures Bare(s, b)
  {
    var s' := Stored(s, p, answer, took);
    assert ProcessFits(s, s.processes[p]) && (took ==> KeyOf(s.processes[p].digest) in s'.w.objects);
    assert forall q :: HasStored(s', q, b) ==> HasStored(s, q, b);
  }

  lemma MarkedUndermines(s: State, p: nat, status: BlobStatus, b: BlobId)
    requires Fits(s) && p in s.processes && (status.Ready? ==> s.processes[p].phase.PutDone?)
    requires Bare(Marked(s, p, status), b)
    ensures Bare(s, b)
  {
    var s' := Marked(s, p, status);
    assert forall q :: HasStored(s', q, b) ==> HasStored(s, q, b);
    assert status.Ready? && s.processes[p].b == b ==> HasStored(s, p, b);
  }

  lemma JobUndermines(s: State, act: Action, b: BlobId)
    requires Fits(s) && Enabled(s, act) && (act.Claim? || act.DeleteRow?) && Bare(Next(s, act), b)
    ensures Bare(s, b)
  {
    assert forall p :: HasStored(Next(s, act), p, b) <==> HasStored(s, p, b);
  }

  lemma RemovalUndermines(s: State, act: Action, b: BlobId)
    requires Enabled(s, act) && (act.RemoveObject? || act.SweepObject?) && !Bare(s, b)
    ensures Bare(Next(s, act), b) <==> Undermines(s, act, b)
  {
    assert forall p :: HasStored(Next(s, act), p, b) <==> HasStored(s, p, b);
  }

  lemma QuietUndermines(s: State, act: Action, b: BlobId)
    requires Enabled(s, act)
    requires act.Tick? || act.ChangeTables? || act.Leave? || act.StopJob? || act.StartRetention?
             || act.StartReconcile? || act.CheckObject? || act.StopReconcile?
    requires Bare(Next(s, act), b)
    ensures Bare(s, b)
  {
    assert forall p :: HasStored(Next(s, act), p, b) ==> HasStored(s, p, b);
  }

  /** A step leaves a blob bare if and only if it removes the object while the blob counts on it. */
  lemma UnderminesExactly(s: State, act: Action, b: BlobId)
    requires Fits(s) && Enabled(s, act) && !Bare(s, b)
    ensures Bare(Next(s, act), b) <==> Undermines(s, act, b)
  {
    if act.RemoveObject? || act.SweepObject? {
      RemovalUndermines(s, act, b);
    } else if Bare(Next(s, act), b) {
      hide Fits, Bare;
      match act
      case GetOrCreate(p, kind, digest, other, createdAt) => GotUndermines(s, p, kind, digest, other, createdAt, b);
      case Upload(p, answer, took) => StoredUndermines(s, p, answer, took, b);
      case MarkReady(p) => MarkedUndermines(s, p, Ready, b);
      case MarkFailed(p) => MarkedUndermines(s, p, BlobFailed, b);
      case Claim(_, _, _) => JobUndermines(s, act, b);
      case DeleteRow(_, _) => JobUndermines(s, act, b);
      case _ => QuietUndermines(s, act, b);
    }
  }

  ghost predicate BareAt(grace: int, run: seq<Action>, m: nat, b: BlobId) {
    m <= |run| && Run(Init(grace), run[..m]).Some? && Bare(Run(Init(grace), run[..m]).value, b)
  }

  ghost predicate UnderminesAt(grace: int, run: seq<Action>, i: nat, b: BlobId) {
    i < |run| && Run(Init(grace), run[..i]).Some? && Undermines(Run(Init(grace), run[..i]).value, run[i], b)
  }

  lemma {:induction false} BareWasUndermined(grace: int, run: seq<Action>, b: BlobId, m: nat)
    requires Run(Init(grace), run).Some? && BareAt(grace, run, m, b)
    ensures exists i: nat :: i < m && UnderminesAt(grace, run, i, b)
  {
    PrefixRuns(Init(grace), run, m - 1);
    if BareAt(grace, run, m - 1, b) {
      BareWasUndermined(grace, run, b, m - 1);
    } else {
      var s := Run(Init(grace), run[..m - 1]).value;
      ReachableFits(grace, run[..m - 1], s);
      UnderminesExactly(s, run[m - 1], b);
      assert UnderminesAt(grace, run, m - 1, b);
    }
  }

  lemma UnderminedIsBare(grace: int, run: seq<Action>, b: BlobId, i: nat)
    requires Run(Init(grace), run).Some? && UnderminesAt(grace, run, i, b)
    ensures BareAt(grace, run, i, b) || BareAt(grace, run, i + 1, b)
  {
    PrefixRuns(Init(grace), run, i);
    var s := Run(Init(grace), run[..i]).value;
    ReachableFits(grace, run[..i], s);
    if !Bare(s, b) {
      UnderminesExactly(s, run[i], b);
    }
  }

  /** In every run, whatever the blob's age and however the jobs overlap: at some moment the blob is
      ready without an object, or about to be marked so, if and only if some removal takes effect
      under its key while it is ready, or stored and not yet marked. */
  lemma LosesObjectExactly(grace: int, run: seq<Action>, b: BlobId)
    requires Run(Init(grace), run).Some?
    ensures (exists m: nat :: BareAt(grace, run, m, b)) <==> (exists i: nat :: UnderminesAt(grace, run, i, b))
  {
    if m: nat :| BareAt(grace, run, m, b) {
      BareWasUndermined(grace, run, b, m);
    }
    if i: nat :| UnderminesAt(grace, run, i, b) {
      UnderminedIsBare(grace, run, b, i);
    }
  }

  /** So a ready blob of any age keeps its object as long as no removal takes effect under its key
      while it is ready, or stored and not yet marked. */
  lemma ReadyBlobKeepsItsObject(grace: int, run: seq<Action>, s: State, b: BlobId)
    requires Run(Init(grace), run) == Some(s) && IsReady(s.w, b)
    requires forall i: nat :: !UnderminesAt(grace, run, i, b)
    ensures s.w.blobs[b].key in s.w.objects
  {
    LosesObjectExactly(grace, run, b);
    assert run[..|run|] == run;
    assert !BareAt(grace, run, |run|, b);
  }

  // ----- Young blobs -----

  /** The ground a removal was based on has gone: the row a retention run claimed is no longer there,
      or a row has come under the key that a reconciliation run found without one. */
  predicate RemovesGroundless(s: State, act: Action) {
    match act
    case RemoveObject(j, _, took) => took && j in s.jobs && s.jobs[j].HoldingClaim? && s.jobs[j].b !in s.w.blobs
    case SweepObject(r, _, took) => took && r in s.sweeps && s.sweeps[r].FoundStray? && HasObject(s.w, s.sweeps[r].key)
    case _ => false
  }

  /** As long as the claimed row is there, the object removed is no young blob's object. */
  lemma RemovalSparesTheYoung(s: State, job: Job, b: BlobId)
    requires Fits(s) && JobFits(s, job) && job.HoldingClaim? && job.b in s.w.blobs && Young(s, b) && b in s.w.blobs
    ensures s.w.blobs[b].key != job.key
  {
    if s.w.blobs[b].key == job.key {
      SameKeySameBlob(s.w, b, job.b);
    }
  }

  ghost predicate YoungBareAt(grace: int, run: seq<Action>, m: nat, b: BlobId) {
    BareAt(grace, run, m, b) && Young(Run(Init(grace), run[..m]).value, b)
  }

  /** A groundless removal of the object of a young blob that counts on it. */
  ghost predicate UnderminesYoungAt(grace: int, run: seq<Action>, i: nat, b: BlobId) {
    && UnderminesAt(grace, run, i, b)
    && var s := Run(Init(grace), run[..i]).value;
       Young(s, b) && RemovesGroundless(s, run[i])
  }

  lemma YoungBefore(s: State, act: Action, b: BlobId)
    requires Enabled(s, act) && b in s.created && Young(Next(s, act), b)
    ensures Young(s, b)
  {
  }

  lemma {:induction false} YoungBareWasUndermined(grace: int, run: seq<Action>, b: BlobId, m: nat)
    requires Run(Init(grace), run).Some? && YoungBareAt(grace, run, m, b)
    ensures exists i: nat :: i < m && UnderminesYoungAt(grace, run, i, b)
  {
    PrefixRuns(Init(grace), run, m - 1);
    var s, act := Run(Init(grace), run[..m - 1]).value, run[m - 1];
    ReachableFits(grace, run[..m - 1], s);
    if Bare(s, b) {
      YoungBefore(s, act, b);
      YoungBareWasUndermined(grace, run, b, m - 1);
    } else {
      UnderminesExactly(s, act, b);
      YoungBefore(s, act, b);
      if act.RemoveObject? && s.jobs[act.j].b in s.w.blobs {
        RemovalSparesTheYoung(s, s.jobs[act.j], b);
      }
      assert UnderminesYoungAt(grace, run, m - 1, b);
    }
  }

  /** In every run, a young blob is at some moment ready without an object, or about to be marked so,
      if and only if some removal takes effect under its key after the ground for it has gone. */
  lemma YoungLosesObjectExactly(grace: int, run: seq<Action>, b: BlobId)
    requires Run(Init(grace), run).Some?
    ensures (exists m: nat :: YoungBareAt(grace, run, m, b)) <==> (exists i: nat :: UnderminesYoungAt(grace, run, i, b))
  {
    if m: nat :| YoungBareAt(grace, run, m, b) {
      YoungBareWasUndermined(grace, run, b, m);
    }
    if i: nat :| UnderminesYoungAt(grace, run, i, b) {
      PrefixRuns(Init(grace), run, i);
      UnderminedIsBare(grace, run, b, i);
      assert YoungBareAt(grace, run, i, b) || YoungBareAt(grace, run, i + 1, b);
    }
  }

  /** The row is there, not claimed for deletion, and if it is ready its object is stored. */
  predicate Survives(w: World, b: BlobId) {
    Standing(w, b) && (w.blobs[b].status.Ready? ==> w.blobs[b].key in w.objects)
  }

  ghost predicate RemovesGroundlessAt(grace: int, run: seq<Action>, i: nat) {
    i < |run| && Run(Init(grace), run[..i]).Some? && RemovesGroundless(Run(Init(grace), run[..i]).value, run[i])
  }

  /** However the jobs overlap each other and uploads, as long as no removal takes effect after its
      ground has gone, every blob inserted within the grace period survives. */
  lemma YoungBlobsSurvive(grace: int, run: seq<Action>, s: State, b: BlobId)
    requires Run(Init(grace), run) == Some(s) && Young(s, b)
    requires forall i: nat :: !RemovesGroundlessAt(grace, run, i)
    ensures Survives(s.w, b) && s.w.blobs[b].createdAt == s.created[b]
  {
    YoungRowsStand(grace, run, s, b);
    assert forall i: nat :: UnderminesYoungAt(grace, run, i, b) ==> RemovesGroundlessAt(grace, run, i);
    YoungLosesObjectExactly(grace, run, b);
    assert run[..|run|] == run;
    assert !YoungBareAt(grace, run, |run|, b);
  }

  // ----- What keeps the ground of a removal -----

  ghost predicate OverlapsAt(grace: int, run: seq<Action>, i: nat) {
    i < |run| && Run(Init(grace), run[..i]).Some? && run[i].StartRetention? && Run(Init(grace), run[..i]).value.jobs != map[]
  }

  /** At most one retention run is under way, and the row it has claimed is there. */
  ghost predicate Alone(s: State) {
    && (forall i, j :: i in s.jobs && j in s.jobs ==> i == j)
    && (forall j :: j in s.jobs && s.jobs[j].HoldingClaim? ==> s.jobs[j].b in s.w.blobs)
  }

  lemma StepKeepsAlone(s: State, act: Action)
    requires Alone(s) && Enabled(s, act) && (act.StartRetention? ==> s.jobs == map[])
    ensures Alone(Next(s, act))
  {
  }

  lemma {:induction false} RunKeepsAlone(grace: int, run: seq<Action>, n: nat)
    requires Run(Init(grace), run).Some? && n <= |run|
    requires forall i: nat :: !OverlapsAt(grace, run, i)
    ensures Run(Init(grace), run[..n]).Some? && Alone(Run(Init(grace), run[..n]).value)
  {
    if n > 0 {
      RunKeepsAlone(grace, run, n - 1);
      PrefixRuns(Init(grace), run, n - 1);
      assert !OverlapsAt(grace, run, n - 1);
      StepKeepsAlone(Run(Init(grace), run[..n - 1]).value, run[n - 1]);
    }
  }

  predicate Sweeping(s: State, r: nat, key: string) {
    r in s.sweeps && s.sweeps[r].FoundStray? && s.sweeps[r].key == key
  }

  /** The step inserts a row under a key that a reconciliation run has found without one and has not
      finished with. */
  ghost predicate InsertsUnderSweep(s: State, act: Action) {
    act.GetOrCreate? && act.b !in s.w.blobs && exists r :: Sweeping(s, r, KeyOf(act.digest))
  }

  ghost predicate InsertsUnderSweepAt(grace: int, run: seq<Action>, i: nat) {
    i < |run| && Run(Init(grace), run[..i]).Some? && InsertsUnderSweep(Run(Init(grace), run[..i]).value, run[i])
  }

  ghost predicate StraysStayStray(s: State) {
    forall r, key :: Sweeping(s, r, key) ==> !HasObject(s.w, key)
  }

  lemma StepKeepsStrays(s: State, act: Action)
    requires StraysStayStray(s) && Enabled(s, act) && !InsertsUnderSweep(s, act)
    ensures StraysStayStray(Next(s, act))
  {
    var s' := Next(s, act);
    forall r, key | Sweeping(s', r, key)
      ensures !HasObject(s'.w, key)
    {
      if Sweeping(s, r, key) {
        forall b | b in s'.w.blobs
          ensures s'.w.blobs[b].key != key
        {
          assert b in s.w.blobs ==> s'.w.blobs[b].key == s.w.blobs[b].key;
        }
      }
    }
  }

  lemma {:induction false} RunKeepsStrays(grace: int, run: seq<Action>, n: nat)
    requires Run(Init(grace), run).Some? && n <= |run|
    requires forall i: nat :: !InsertsUnderSweepAt(grace, run, i)
    ensures Run(Init(grace), run[..n]).Some? && StraysStayStray(Run(Init(grace), run[..n]).value)
  {
    if n > 0 {
      RunKeepsStrays(grace, run, n - 1);
      PrefixRuns(Init(grace), run, n - 1);
      assert !InsertsUnderSweepAt(grace, run, n - 1);
      StepKeepsStrays(Run(Init(grace), run[..n - 1]).value, run[n - 1]);
    }
  }

  /** In every run whose retention runs do not overlap, and in which no row is inserted between a
      reconciliation's check of its key and the end of the removal, every blob inserted within the
      grace period survives. */
  lemma RunsOneAtATimeSpareTheYoung(grace: int, run: seq<Action>, s: State, b: BlobId)
    requires Run(Init(grace), run) == Some(s) && Young(s, b)
    requires forall i: nat :: !OverlapsAt(grace, run, i) && !InsertsUnderSweepAt(grace, run, i)
    ensures Survives(s.w, b) && s.w.blobs[b].createdAt == s.created[b]
  {
    forall i: nat
      ensures !RemovesGroundlessAt(grace, run, i)
    {
      if i < |run| {
        RunKeepsAlone(grace, run, i);
        RunKeepsStrays(grace, run, i);
        var before := Run(Init(grace), run[..i]).value;
        assert run[i].SweepObject? && run[i].r in before.sweeps && before.sweeps[run[i].r].FoundStray? ==>
            Sweeping(before, run[i].r, before.sweeps[run[i].r].key);
      }
    }
    YoungBlobsSurvive(grace, run, s, b);
  }

  // ----- The losses are met -----

  /** How many retention runs start. */
  function Retentions(run: seq<Action>): nat {
    if run == [] then 0 else Retentions(run[..|run| - 1]) + (if run[|run| - 1].StartRetention? then 1 else 0)
  }

  lemma Extend(from: State, run: seq<Action>, s: State, act: Action) returns (longer: seq<Action>, s': State)
    requires Run(from, run) == Some(s) && Enabled(s, act)
    ensures Run(from, longer) == Some(s') && s' == Next(s, act)
    ensures Retentions(longer) == Retentions(run) + (if act.StartRetention? then 1 else 0)
  {
    RunAppends(from, run, act);
    longer, s' := run + [act], Next(s, act);
    assert longer[..|run|] == run;
  }

  const CONTENT: Digest := [7]

  /** A blob row whose upload was given up, older than the grace period. */
  lemma AbandonedBlob(grace: nat) returns (run: seq<Action>, s: State)
    ensures Retentions(run) == 0 && Run(Init(grace), run) == Some(s)
    ensures s == State(grace, grace + 1,
                       World(Tables(map[], map[]), map[0 := Blob(CONTENT, KeyOf(CONTENT), BlobUploading, 0, 0)], map[]),
                       map[0 := 0], map[], map[], map[])
  {
    var start := Init(grace);
    run, s := Extend(start, [], start, GetOrCreate(0, Creating, CONTENT, 0, 0));
    run, s := Extend(start, run, s, Leave(0));
    assert s.processes == map[];
    run, s := Extend(start, run, s, Tick(grace + 1));
  }

  ghost predicate Loses(grace: nat, run: seq<Action>, b: BlobId) {
    var end := Run(Init(grace), run);
    end.Some? && ReadyWithoutObject(end.value, b)
  }

  /** An upload takes the blob up again and stores the content while a retention run lists it. */
  lemma TakenUpAgain(grace: nat) returns (run: seq<Action>, s: State)
    ensures Run(Init(grace), run) == Some(s) && s.w.db == Tables(map[], map[])
    ensures s.w.blobs == map[0 := Blob(CONTENT, KeyOf(CONTENT), BlobUploading, 0, 0)]
    ensures s.processes == map[2 := Process(Creating, 0, CONTENT, PutDone)] && s.jobs == map[1 := Listed(1, [0])]
  {
    var start := Init(grace);
    run, s := AbandonedBlob(grace);
    run, s := Extend(start, run, s, StartRetention(1, grace + 1, [0]));
    run, s := Extend(start, run, s, GetOrCreate(2, Creating, CONTENT, 0, grace + 1));
    run, s := Extend(start, run, s, Upload(2, Fine, true));
  }

  /** An old unreferenced blob is not protected: an upload that takes it up again while a retention
      run has claimed it marks it ready after the run removed the object just stored. */
  lemma ReusedOldBlobCanLoseItsObject(grace: nat)
    ensures exists run: seq<Action> :: Loses(grace, run, 0)
  {
    var start := Init(grace);
    var run, s := TakenUpAgain(grace);
    assert ClaimableForDeletion(s.w, 0, s.now);
    run, s := Extend(start, run, s, Claim(1, true, true));
    run, s := Extend(start, run, s, RemoveObject(1, Fine, true));
    run, s := Extend(start, run, s, MarkReady(2));
    assert Loses(grace, run, 0);
  }

  ghost predicate LosesYoung(grace: nat, run: seq<Action>, b: BlobId) {
    var end := Run(Init(grace), run);
    end.Some? && Young(end.value, b) && ReadyWithoutObject(end.value, b)
  }

  /** Two runs have listed the same blob. */
  lemma ListedTwice(grace: nat) returns (run: seq<Action>, s: State)
    ensures Run(Init(grace), run) == Some(s) && s.grace == grace && s.w.db == Tables(map[], map[])
    ensures s.w.blobs == map[0 := Blob(CONTENT, KeyOf(CONTENT), BlobUploading, 0, 0)]
    ensures s.created == map[0 := 0] && s.processes == map[]
    ensures s.jobs == map[1 := Listed(1, [0]), 2 := Listed(1, [0])]
  {
    var start := Init(grace);
    run, s := AbandonedBlob(grace);
    run, s := Extend(start, run, s, StartRetention(1, grace + 1, [0]));
    run, s := Extend(start, run, s, StartRetention(2, grace + 1, [0]));
  }

  /** One of them has claimed it and stalled. */
  lemma ClaimedOnce(grace: nat) returns (run: seq<Action>, s: State)
    ensures Run(Init(grace), run) == Some(s) && s.grace == grace && s.w.db == Tables(map[], map[])
    ensures s.w.blobs == map[0 := Blob(CONTENT, KeyOf(CONTENT), Deleting, 0, s.now)]
    ensures s.created == map[0 := 0] && s.processes == map[]
    ensures s.jobs == map[1 := HoldingClaim(1, [], 0, KeyOf(CONTENT)), 2 := Listed(1, [0])]
  {
    var start := Init(grace);
    run, s := ListedTwice(grace);
    assert ClaimableForDeletion(s.w, 0, s.now) && [0][1..] == [];
    run, s := Extend(start, run, s, Claim(1, true, true));
  }

  /** More than an hour later the other run may claim the blob as well, and collects it. */
  lemma ClaimedTwice(grace: nat) returns (run: seq<Action>, s: State)
    ensures Run(Init(grace), run) == Some(s) && s.grace == grace
    ensures s.w.blobs == map[] && s.created == map[0 := 0] && s.processes == map[]
    ensures 1 in s.jobs && s.jobs[1] == HoldingClaim(1, [], 0, KeyOf(CONTENT))
  {
    var start := Init(grace);
    run, s := ClaimedOnce(grace);
    run, s := Extend(start, run, s, Tick(CLAIM_TIMEOUT + 1));
    assert ClaimableForDeletion(s.w, 0, s.now);
    run, s := Extend(start, run, s, Claim(2, true, true));
    run, s := Extend(start, run, s, RemoveObject(2, Fine, true));
    run, s := Extend(start, run, s, DeleteRow(2, true));
    assert s.w.blobs == map[];
  }

  /** Overlapping retention runs are not safe even for young blobs: the stalled run then removes
      the object of a blob that has been inserted for the same content meanwhile. */
  lemma OverlappingRunsCanLoseAYoungObject(grace: nat)
    ensures exists run: seq<Action> :: LosesYoung(grace, run, 1)
  {
    var start := Init(grace);
    var run, s := ClaimedTwice(grace);
    run, s := Extend(start, run, s, GetOrCreate(3, Creating, CONTENT, 1, s.now));
    run, s := Extend(start, run, s, Upload(3, Fine, true));
    run, s := Extend(start, run, s, MarkReady(3));
    run, s := Extend(start, run, s, RemoveObject(1, Fine, true));
    assert LosesYoung(grace, run, 1);
  }

  /** An upload takes the blob up again, then a retention run claims it. */
  lemma TakenUpAndClaimed(grace: nat) returns (run: seq<Action>, s: State)
    ensures Retentions(run) == 1 && Run(Init(grace), run) == Some(s)
    ensures s.grace == grace && s.now == grace + 1 && s.w.db == Tables(map[], map[])
    ensures s.w.blobs == map[0 := Blob(CONTENT, KeyOf(CONTENT), Deleting, 0, grace + 1)] && s.w.objects == map[]
    ensures s.created == map[0 := 0] && s.sweeps == map[] && s.jobs == map[1 := HoldingClaim(1, [], 0, KeyOf(CONTENT))]
    ensures s.processes == map[2 := Process(Creating, 0, CONTENT, Looked(false, false))]
  {
    var start := Init(grace);
    run, s := AbandonedBlob(grace);
    run, s := Extend(start, run, s, StartRetention(1, grace + 1, [0]));
    run, s := Extend(start, run, s, GetOrCreate(2, Creating, CONTENT, 0, grace + 1));
    assert ClaimableForDeletion(s.w, 0, s.now) && [0][1..] == [];
    run, s := Extend(start, run, s, Claim(1, true, true));
  }

  /** A retention run has claimed a blob and removed its object; an upload that had taken the blob up
      again stores the content, and the run deletes the row: an object is left without a row. */
  lemma StrayLeft(grace: nat) returns (run: seq<Action>, s: State)
    ensures Retentions(run) == 1 && Run(Init(grace), run) == Some(s) && s.grace == grace && s.now == 2 * grace + 2
    ensures s.w.blobs == map[] && s.w.objects == map[KeyOf(CONTENT) := grace + 1]
    ensures s.created == map[0 := 0] && s.sweeps == map[] && s.processes == map[]
  {
    var start := Init(grace);
    run, s := TakenUpAndClaimed(grace);
    run, s := Extend(start, run, s, RemoveObject(1, Fine, true));
    run, s := Extend(start, run, s, Upload(2, Fine, true));
    run, s := Extend(start, run, s, DeleteRow(1, true));
    run, s := Extend(start, run, s, Leave(2));
    run, s := Extend(start, run, s, Tick(grace + 1));
    assert s.w.blobs == map[] && s.processes == map[];
  }

  /** Much later a reconciliation run finds that object without a row. */
  lemma StrayFound(grace: nat) returns (run: seq<Action>, s: State)
    ensures Retentions(run) == 1 && Run(Init(grace), run) == Some(s) && s.grace == grace
    ensures s.w.blobs == map[] && s.created == map[0 := 0] && s.processes == map[]
    ensures s.sweeps == map[3 := FoundStray([], KeyOf(CONTENT))]
  {
    var start := Init(grace);
    run, s := StrayLeft(grace);
    assert KeyOf(CONTENT)[..|BLOB_PREFIX|] == BLOB_PREFIX;
    run, s := Extend(start, run, s, StartReconcile(3, s.now, [KeyOf(CONTENT)]));
    assert !HasObject(s.w, KeyOf(CONTENT)) && [KeyOf(CONTENT)][1..] == [];
    run, s := Extend(start, run, s, CheckObject(3, true));
  }

  /** Reconciliation is not safe for young blobs either: content uploaded again between its check and
      its removal is marked ready and then loses its object, although there was one retention run. */
  lemma ReconcileCanRobAnUpload(grace: nat)
    ensures exists run: seq<Action> :: LosesYoung(grace, run, 1) && Retentions(run) == 1
  {
    var start := Init(grace);
    var run, s := StrayFound(grace);
    run, s := Extend(start, run, s, GetOrCreate(4, Creating, CONTENT, 1, s.now));
    run, s := Extend(start, run, s, Upload(4, Fine, true));
    run, s := Extend(start, run, s, MarkReady(4));
    run, s := Extend(start, run, s, SweepObject(3, Fine, true));
    assert LosesYoung(grace, run, 1);
  }
}
