// runner.go: the worker loop over jobs, restarts and retries.
module Workers {
  import opened Options
  import opened Names
  import opened Chunking
  import opened Tar
  import opened Manifests
  import opened Pipeline
  import opened Runners
  import opened Chunkers
  import Exports
  import Imports
  import Evictions

  predicate Terminal(s: State) {
    s == Done || s == State.Failed || s == Cancelled
  }

  // What a job needs to be found in place to succeed.
  ghost predicate Due(r: Runner, id: nat)
    reads r
    requires id in r.d.jobs
  {
    match r.d.jobs[id].kind
    case Export =>
      && Unmarked(r.d) && r.F != map[]
      && Exports.StartOf(r.d.jobs[id], r.F) <= Count(|TarOf(r.env.t, r.F)|, r.d.c)
    case Import => Imports.Wanted(r, id)
    case Evict =>
      && Unmarked(r.d) && r.F != map[]
      && Evictions.Chosen(r.d, id).Some? && Evictions.Chosen(r.d, id).value in r.d.bucket.manifests
  }

  // What a job may be run in without harm: anything but an export whose chunk size does
  // not fit what its generation was cut with.
  ghost predicate Safe(r: Runner, id: nat, stamp: string)
    reads r
    requires id in r.d.jobs
  {
    r.d.jobs[id].kind == Export && Unmarked(r.d) ==>
      Exports.Fitting(r.d, id, Exports.GenOf(r.d.jobs[id], stamp), r.F, |TarOf(r.env.t, r.F)|)
  }

  // What a finished job has done.
  ghost predicate Accomplished(r: Runner, id: nat, kind: Kind)
    reads r
  {
    match kind
    case Export => exists g :: Exports.Announced(r.env, r.F, r.d, id, g) && Exports.Accounted(r.env, r.F, r.d, g)
    case Import => r.d.dir == Some(Dir(r.F, None))
    case Evict => r.d.evicted && r.d.dir.Some? && r.d.dir.value.marker.Some?
  }

  // The switch on the job's kind.
  method Dispatch(r: Runner, id: nat, stamp: string) returns (ok: bool)
    requires r.Sound() && id in r.d.jobs
    modifies r
    ensures r.Valid() && (old(Safe(r, id, stamp)) ==> r.Sound())
    ensures old(r.hist) <= r.hist && id in r.d.jobs && r.faults >= old(r.faults)
    ensures ok ==> r.d.jobs[id].state == Done && Accomplished(r, id, old(r.d.jobs[id].kind))
    ensures r.faults == old(r.faults) && old(Due(r, id)) ==> ok
  {
    hide Inv, IsRun, IsCareful, Original, TarOf, Count, Exports.Announced, Exports.Accounted, Exports.Decoded;
    hide Along, Imports.Refused, Imports.AsListed, Imports.SwapSafe, Chunkers.Sent, Chunkers.ChunksOf;
    match r.d.jobs[id].kind {
      case Export =>
        ghost var sent;
        ok, sent := Exports.RunExport(r, id, stamp);
        if ok { AnnouncedDone(r, id, Exports.GenOf(old(r.d.jobs[id]), stamp)); }
      case Import =>
        ghost var m;
        ok, m := Imports.RunImport(r, id);
      case Evict =>
        ok := Evictions.RunEvict(r, id);
    }
  }

  lemma AnnouncedDone(r: Runner, id: nat, g: Gen)
    requires Exports.Announced(r.env, r.F, r.d, id, g)
    ensures id in r.d.jobs && r.d.jobs[id].state == Done
  {
  }

  // run: load the job, skip finished ones, dispatch on kind, file the failure. `stamp` is
  // the clock's.
  method RunJob(r: Runner, id: nat, stamp: string) returns (ghost done: bool)
    requires r.Sound() && id in r.d.jobs
    modifies r
    ensures r.Valid() && (old(Safe(r, id, stamp)) ==> r.Sound())
    ensures old(r.hist) <= r.hist && id in r.d.jobs && r.faults >= old(r.faults)
    ensures old(r.d.jobs[id].state) in {Done, State.Failed, Cancelled} ==> r.d == old(r.d) && r.hist == old(r.hist)
    // A job ends done only with its work done, and failed or cancelled otherwise.
    ensures done ==> r.d.jobs[id].state == Done && Accomplished(r, id, old(r.d.jobs[id].kind))
    ensures (!done && r.faults == old(r.faults)
             && old(r.d.jobs[id].state) !in {Done, State.Failed, Cancelled}) ==>
              r.d.jobs[id].state in {State.Failed, Cancelled}
    // Nothing failing from outside, the job ends; and one that is due ends done.
    ensures r.faults == old(r.faults) ==> r.d.jobs[id].state in {Done, State.Failed, Cancelled}
    ensures (r.faults == old(r.faults) && old(Due(r, id))
             && old(r.d.jobs[id].state) !in {Done, State.Failed, Cancelled}) ==>
              done
  {
    hide Inv, IsRun, IsCareful, Original, Accomplished, Due, Safe;
    done := false;
    if Terminal(r.d.jobs[id].state) {
      return;
    }
    var ok := Dispatch(r, id, stamp);
    done := ok;
    if !ok {
      var cancelled: bool := *;
      ok := r.Transition(id, if cancelled then Cancelled else State.Failed);
    }
  }

  // Whether the job is safe to run, from what is on disk.
  method IsSafe(r: Runner, id: nat, stamp: string) returns (safe: bool)
    requires r.Sound() && id in r.d.jobs
    ensures safe == Safe(r, id, stamp)
  {
    hide IsRun, IsCareful, Original, Count;
    var d, j := r.d, r.d.jobs[id];
    if j.kind != Export || !Unmarked(d) {
      return true;
    }
    var files := d.dir.value.files;
    assert files == r.F;
    var names := List(files.Keys);
    var sum := Exports.ComputeSum(names, files);
    var g := Exports.GenOf(j, stamp);
    var k := if j.ledger != [] && j.total != sum then 0 else |j.ledger|;
    safe := Fit(d.(jobs := d.jobs[id := j.(gen := Some(g), ledger := if k == 0 then [] else j.ledger)]), g, k,
                |Pack(r.env.t, names, files)|);
  }

  // Retry puts a failed or cancelled job back in the queue with its generation,
  // recorded total and ledger.
  method Retry(r: Runner, id: nat) returns (ok: bool)
    requires r.Sound() && id in r.d.jobs
    modifies r
    ensures r.Sound() && old(r.hist) <= r.hist
    ensures id in r.d.jobs && r.d.jobs[id] == old(r.d.jobs[id]).(state := r.d.jobs[id].state)
    ensures ok ==>
              && old(r.d.jobs[id].state == State.Failed || r.d.jobs[id].state == Cancelled)
              && r.d.jobs[id].state == if r.d.jobs[id].kind == Export then Detected else Queued
    ensures r.faults == old(r.faults) ==>
              (ok <==> old(r.d.jobs[id].state == State.Failed || r.d.jobs[id].state == Cancelled))
  {
    hide Inv, IsRun, IsCareful, Original;
    if r.d.jobs[id].state != State.Failed && r.d.jobs[id].state != Cancelled {
      return false;
    }
    ok := r.Transition(id, if r.d.jobs[id].kind == Export then Detected else Queued);
  }

  method Create(r: Runner, id: nat, kind: Kind, way: Way, gen: Option<Gen>) returns (ok: bool)
    requires r.Sound() && id !in r.d.jobs && (gen.Some? ==> gen.value != "")
    modifies r
    ensures r.Sound() && old(r.hist) <= r.hist
    ensures ok ==>
              r.d.jobs == old(r.d.jobs)[id := Job(kind, way, if kind == Export then Detected else Queued, gen, 0, [])]
    ensures r.faults == old(r.faults) ==> ok
  {
    hide Inv, IsRun, IsCareful, Original;
    ok := r.Commit(CreateJob(id, kind, way, gen));
  }

  // Any life of the daemon on one cart: operators create and retry jobs of every
  // kind in any order, the worker runs them, each effect may fail or be the last
  // before a crash, and a restart, with any chunk size, re-runs whatever is unfinished;
  // only exports that are not safe under the present size are put off. Every durable
  // state on the way is recoverable, and every ledger is an exact prefix of its
  // generation's partition of the tar.
  method AnyLife(r: Runner, steps: nat)
    requires r.Sound() && Init(r.F, r.hist[0])
    modifies r
    ensures r.Sound() && old(r.hist) <= r.hist
    ensures forall k :: 0 <= k < |r.hist| ==> Recoverable(r.env, r.F, r.hist[k]) && Partitioned(r.env, r.F, r.hist[k])
  {
    hide Inv, IsRun, IsCareful, Original, Recoverable, Init, Partitioned;
    for i := 0 to steps
      invariant r.Sound() && old(r.hist) <= r.hist && r.hist[0] == old(r.hist[0])
    {
      AnyStep(r);
    }
    Recoverability(r.env, r.F, r.hist);
    LedgerIsPrefix(r.env, r.F, r.hist);
  }

  method AnyStep(r: Runner)
    requires r.Sound()
    modifies r
    ensures r.Sound() && old(r.hist) <= r.hist
  {
    hide Inv, IsRun, IsCareful, Original;
    var id: nat := *;
    var kind: Kind, way: Way := *, *;
    var gen: Option<Gen> := *;
    var stamp: string := *;
    var reboot: bool, retry: bool, size: nat := *, *, *;
    if reboot && size > 0 {
      var restarted := r.Commit(Restart(size));
    } else if id !in r.d.jobs {
      if gen.Some? ==> gen.value != "" {
        var created := Create(r, id, kind, way, gen);
      }
    } else if retry {
      var retried := Retry(r, id);
    } else {
      var safe := IsSafe(r, id, stamp);
      if safe { ghost var done := RunJob(r, id, stamp); }
    }
  }
}
