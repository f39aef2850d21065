// runner.go: the single worker and the durable state it owns, one effect at a time.
module Runners {
  import opened Tar
  import opened Pipeline

  class Runner {
    const env: Env
    ghost const F: Files          // the cart's original media
    var d: Disk                   // everything a crash leaves behind
    ghost var hist: seq<Disk>     // every durable state so far, d last
    ghost var faults: nat         // failures that came from outside the program
    ghost var trail: seq<State>   // the states jobs were moved to, chunk by chunk aside

    ghost predicate Valid()
      reads this
    {
      |hist| > 0 && hist[|hist| - 1] == d && IsRun(env, hist)
    }

    // So far no change of the chunk size did harm.
    ghost predicate Sound()
      reads this
    {
      Valid() && IsCareful(env, hist) && Original(env, F) && Inv(env, F, d)
    }

    constructor (env: Env, ghost F: Files, d: Disk)
      ensures Valid() && this.env == env && this.F == F && this.d == d && hist == [d] && faults == 0 && trail == []
    {
      this.env, this.F, this.d, hist, faults, trail := env, F, d, [d], 0, [];
    }

    // Something else that may fail: an open, a read, a check of the drive, a cancel.
    method Io() returns (ok: bool)
      modifies this`faults
      ensures faults == old(faults) + (if ok then 0 else 1)
    {
      ok := *;
      if !ok { faults := faults + 1; }
    }

    // One effect. It may fail, and a failure report does not say whether the
    // effect took place.
    method Commit(a: Action) returns (ok: bool)
      requires Valid() && Enabled(env, a, d)
      modifies this`d, this`hist, this`faults
      ensures Valid() && (old(Sound() && Harmless(env, a, d)) ==> Sound())
      ensures ok ==> d == old(Apply(env, a, d))
      ensures d == old(d) || d == old(Apply(env, a, d))
      ensures hist == old(hist) || hist == old(hist) + [d]
      ensures faults == old(faults) + (if ok then 0 else 1)
    {
      hide Inv, IsRun, IsCareful, Original, Enabled, Apply, Harmless;
      var applied: bool := *;
      ok := *;
      if ok || applied {
        if Sound() && Harmless(env, a, d) {
          InvPreserved(env, F, d, a);
        }
        OneMore(env, hist, a);
        d := Apply(env, a, d);
        hist := hist + [d];
      }
      if !ok { faults := faults + 1; }
    }

    // r.transition: one job-state effect; nothing but the state column changes.
    method Transition(id: nat, s: State) returns (ok: bool)
      requires Valid() && id in d.jobs
      modifies this
      ensures Valid() && (old(Sound()) ==> Sound()) && Steady()
      ensures id in d.jobs && d.jobs[id] == old(d.jobs[id]).(state := d.jobs[id].state)
      ensures d == old(d).(jobs := d.jobs) && d.jobs == old(d.jobs)[id := d.jobs[id]]
      ensures ok ==> d.jobs[id].state == s
      ensures trail == old(trail) + (if ok then [s] else [])
      ensures faults == old(faults) + (if ok then 0 else 1)
    {
      hide Inv, IsRun, IsCareful, Original;
      ok := Commit(SetState(id, s));
      if ok { trail := trail + [s]; }
    }

    // No durable state since `old` touched the cart directory or the bucket.
    twostate predicate Steady()
      reads this
    {
      && old(hist) <= hist && d.dir == old(d.dir) && d.bucket == old(d.bucket)
      && forall k :: |old(hist)| <= k < |hist| ==> hist[k].dir == old(d.dir) && hist[k].bucket == old(d.bucket)
    }
  }

  // The states moved to are a beginning of the path, and all of it when done.
  ghost predicate Along(before: seq<State>, path: seq<State>, now: seq<State>, done: bool) {
    before <= now <= before + path && (done ==> now == before + path)
  }

  lemma StepTaken(a: seq<State>, s: State, b: seq<State>, done: bool)
    requires b == a + (if done then [s] else [])
    ensures Along(a, [s], b, done)
  {
  }

  lemma GoOn(a: seq<State>, p: seq<State>, b: seq<State>, q: seq<State>, c: seq<State>, done: bool)
    requires Along(a, p, b, true) && Along(b, q, c, done)
    ensures Along(a, p + q, c, done)
  {
    assert a + (p + q) == (a + p) + q;
  }

  lemma StopShort(a: seq<State>, p: seq<State>, b: seq<State>, q: seq<State>, done: bool)
    requires Along(a, p, b, done)
    ensures Along(a, p + q, b, false)
  {
    assert a + (p + q) == (a + p) + q;
  }

  lemma OneMore(env: Env, hist: seq<Disk>, a: Action)
    requires IsRun(env, hist) && Enabled(env, a, hist[|hist| - 1])
    ensures var d := hist[|hist| - 1];
            && IsRun(env, hist + [Apply(env, a, d)])
            && (IsCareful(env, hist) && Harmless(env, a, d) ==> IsCareful(env, hist + [Apply(env, a, d)]))
  {
    hide Enabled, Apply, Harmless;
    var d := hist[|hist| - 1];
    assert Next(env, d, Apply(env, a, d));
    assert Harmless(env, a, d) ==> CarefulNext(env, d, Apply(env, a, d));
  }
}
