/**
 What any sequence of blur calls on one renderer keeps. A `CallStep` is one call as the pool sees
 it; imports and deletions of textures outside the pool may happen during and between calls.
 */
module PoolRuns {
  import opened Gpu
  import opened Framebuffer
  import opened Kawase

  ghost predicate CallStep(pre: View, call: Call, post: View) {
    && pre.owned <= post.owned && SlotsStep(pre, call, post)
    && pre.busy <= post.busy <= post.owned && |post.owned| <= POOL_SIZE
    && |post.busy| == |pre.busy| + Retained(call.exit)
    && (forall t | t in pre.busy :: Sample(post.memory, t) == Sample(pre.memory, t))
    && pre.draws <= post.draws
    && (forall i | |pre.draws| <= i < |post.draws| ::
          post.draws[i].target !in pre.busy && post.draws[i].source != post.draws[i].target)
    && (call.exit.Done? ==>
          && call.texture in post.busy - pre.busy
          && call.Passes() >= 1 && |pre.busy| + call.Passes() + 2 <= POOL_SIZE)
  }

  lemma BlurStepIsCallStep(pre: View, call: Call, post: View)
    requires BlurStep(pre, call, post) && SlotsStep(pre, call, post) && pre.busy <= pre.memory.Keys
    ensures CallStep(pre, call, post)
  {
  }

  ghost predicate Run(views: seq<View>, calls: seq<Call>) {
    && |views| == |calls| + 1
    && forall i {:trigger calls[i]} | 0 <= i < |calls| ::
         CallStep(views[i], calls[i], views[i + 1])
  }

  function RetainedBy(calls: seq<Call>): nat {
    if calls == [] then 0 else RetainedBy(calls[..|calls| - 1]) + Retained(calls[|calls| - 1].exit)
  }

  function Successes(calls: seq<Call>): nat {
    if calls == [] then 0
    else Successes(calls[..|calls| - 1]) + if calls[|calls| - 1].exit.Done? then 1 else 0
  }

  /** The leak, to the framebuffer: one for a late failure, two for a success. */
  lemma {:induction false} Accounting(views: seq<View>, calls: seq<Call>)
    requires Run(views, calls)
    ensures |views[|calls|].busy| == |views[0].busy| + RetainedBy(calls)
    ensures 2 * Successes(calls) <= RetainedBy(calls)
  {
    if calls != [] {
      var last := |calls| - 1;
      assert calls[last] == calls[|calls| - 1];
      Accounting(views[..|calls|], calls[..last]);
    }
  }

  /** What is held at some point is held, with the same contents, ever after, and never drawn to. */
  lemma {:induction false} HeldIsStable(views: seq<View>, calls: seq<Call>, i: nat, j: nat, texture: nat)
    requires Run(views, calls) && i <= j <= |calls|
    requires texture in views[i].busy
    ensures texture in views[j].busy
    ensures Sample(views[j].memory, texture) == Sample(views[i].memory, texture)
    ensures views[i].draws <= views[j].draws
    ensures forall k | |views[i].draws| <= k < |views[j].draws| :: views[j].draws[k].target != texture
    decreases j - i
  {
    if i < j {
      HeldIsStable(views, calls, i, j - 1, texture);
      var last := calls[j - 1];
    }
  }

  /** A returned texture is never a target of a later call, and no later call returns it again. */
  lemma ResultIsStable(views: seq<View>, calls: seq<Call>, i: nat, j: nat)
    requires Run(views, calls) && i < j <= |calls| && calls[i].exit.Done?
    ensures Sample(views[j].memory, calls[i].texture) == Sample(views[i + 1].memory, calls[i].texture)
    ensures views[i + 1].draws <= views[j].draws
    ensures forall k | |views[i + 1].draws| <= k < |views[j].draws| :: views[j].draws[k].target != calls[i].texture
    ensures j < |calls| && calls[j].exit.Done? ==> calls[j].texture != calls[i].texture
  {
    HeldIsStable(views, calls, i + 1, j, calls[i].texture);
  }

  /** The index of the last success. */
  lemma {:induction false} LastSuccess(calls: seq<Call>) returns (last: nat)
    requires Successes(calls) > 0
    ensures last < |calls| && calls[last].exit.Done?
    ensures Successes(calls) == Successes(calls[..last]) + 1
  {
    last := |calls| - 1;
    if !calls[last].exit.Done? {
      var init := calls[..last];
      last := LastSuccess(init);
      assert init[..last] == calls[..last];
    }
  }

  /**
   From a pool with nothing acquired, calls of at least `passes` passes succeed at most
   (16 - passes) / 2 times, whatever sizes and failures are mixed in: seven times for one pass.
   */
  lemma SuccessBound(views: seq<View>, calls: seq<Call>, passes: int)
    requires Run(views, calls) && views[0].busy == {}
    requires 1 <= passes <= MAX_PASSES
    requires forall c | c in calls && c.exit.Done? :: c.Passes() >= passes
    ensures Successes(calls) <= (POOL_SIZE - passes) / 2
    ensures Successes(calls) <= 7
  {
    if Successes(calls) > 0 {
      var last := LastSuccess(calls);
      Accounting(views[..last + 1], calls[..last]);
      assert calls[last] in calls;
    }
  }

  /** Once too few framebuffers are left for a call, no such call ever succeeds again. */
  lemma ExhaustionIsPermanent(views: seq<View>, calls: seq<Call>, passes: int)
    requires Run(views, calls) && |views[0].busy| + passes + 2 > POOL_SIZE
    ensures forall k | 0 <= k < |calls| && calls[k].Passes() >= passes :: !calls[k].exit.Done?
  {
    forall k | 0 <= k < |calls| && calls[k].Passes() >= passes
      ensures !calls[k].exit.Done?
    {
      Accounting(views[..k + 1], calls[..k]);
    }
  }

  // ----- the bound is reached -----

  /** Calls for one job, all valid, with a driver that never fails. */
  ghost predicate SteadyRun(views: seq<View>, calls: seq<Call>, job: Job)
    requires job.Valid()
  {
    && Run(views, calls) && views[0].caps.reliable
    && forall i {:trigger calls[i]} | 0 <= i < |calls| ::
         calls[i].job == job && !calls[i].exit.Rejected? && LiveStep(views[i], calls[i], views[i + 1])
  }

  /** As long as two more framebuffers fit, each call takes just those, besides the levels of the first. */
  lemma {:induction false} Progress(views: seq<View>, calls: seq<Call>, job: Job, k: nat)
    requires job.Valid() && SteadyRun(views, calls, job) && views[0].slots == {}
    requires k <= |calls| && job.params.numPasses + 2 * k <= POOL_SIZE
    ensures forall i | 0 <= i < k :: calls[i].exit.Done?
    ensures views[k].caps.reliable
    ensures k > 0 ==>
              Waiting(views[k].slots, views[k].busy, job, 0) && |views[k].slots| <= job.params.numPasses + 2 * k
    decreases k
  {
    if k > 0 {
      Progress(views, calls, job, k - 1);
      var last := calls[k - 1];
      assert views[k - 1 + 1] == views[k];
    }
  }

  lemma {:induction false} AllSucceed(calls: seq<Call>)
    requires forall i | 0 <= i < |calls| :: calls[i].exit.Done?
    ensures Successes(calls) == |calls|
  {
    if calls != [] {
      AllSucceed(calls[..|calls| - 1]);
    }
  }

  /**
   From an empty pool, with a driver that never fails, of the calls for one job exactly the first
   (16 - passes) / 2 succeed.
   */
  lemma ExactlySoMany(views: seq<View>, calls: seq<Call>, job: Job)
    requires job.Valid() && SteadyRun(views, calls, job)
    requires views[0].slots == {} && views[0].busy == {}
    ensures forall i | 0 <= i < |calls| :: calls[i].exit.Done? <==> i < (POOL_SIZE - job.params.numPasses) / 2
  {
    var bound := (POOL_SIZE - job.params.numPasses) / 2;
    var k := if |calls| < bound then |calls| else bound;
    Progress(views, calls, job, k);
    if k == bound {
      TakenBySuccesses(views, calls, k);
      forall i | k <= i < |calls|
        ensures !calls[i].exit.Done?
      {
        assert calls[k..][i - k] == calls[i];
        ExhaustionIsPermanent(views[k..], calls[k..], job.params.numPasses);
      }
    }
  }

  lemma TakenBySuccesses(views: seq<View>, calls: seq<Call>, k: nat)
    requires Run(views, calls) && k <= |calls| && forall i | 0 <= i < k :: calls[i].exit.Done?
    ensures |views[k].busy| >= 2 * k && Run(views[k..], calls[k..])
  {
    AllSucceed(calls[..k]);
    Accounting(views[..k + 1], calls[..k]);
  }

  lemma SameCount<T>(a: set<T>, b: set<T>)
    requires a <= b && |b| <= |a|
    ensures a == b
  {
    assert b == a + (b - a);
  }

  /** No slot ever changes its texture or size, so a full pool stays as it is. */
  lemma {:induction false} FullPoolIsFrozen(views: seq<View>, calls: seq<Call>, j: nat)
    requires Run(views, calls) && j <= |calls| && |views[0].slots| == POOL_SIZE
    ensures views[j].slots == views[0].slots
    decreases j
  {
    if j > 0 {
      FullPoolIsFrozen(views, calls, j - 1);
      var last := calls[j - 1];
      SameCount(views[j - 1].slots, views[j].slots);
    }
  }

  /** Once sixteen framebuffers exist, nothing of a size that none of them has is ever blurred again. */
  lemma OtherSizesNeverSucceed(views: seq<View>, calls: seq<Call>, j: nat)
    requires Run(views, calls) && j < |calls| && |views[0].slots| == POOL_SIZE
    requires forall b | b in views[0].slots :: b.width != calls[j].job.width || b.height != calls[j].job.height
    ensures !calls[j].exit.Done?
  {
    FullPoolIsFrozen(views, calls, j + 1);
  }
}
