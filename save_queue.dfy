/** `save_portfolio` and the single-worker executor behind it. The executor is
    a FIFO of pending save jobs; its worker takes the oldest job and writes the
    rows as the user's portfolio file, or drops the job when the write fails.
    The drive is modelled as a map from user to the rows of their file. */
module SaveQueue {
  import opened Common
  import opened Positions

  /** One submitted `save_portfolio_to_drive` call. */
  datatype Job = Job(email: string, rows: seq<Row>)

  type Store = map<string, seq<Row>>

  /** What one run of a job does to the store: a failed write is only logged. */
  function Apply(store: Store, job: Job, succeeds: bool): (r: Store)
    ensures succeeds ==> job.email in r && r[job.email] == job.rows
    ensures forall u :: u != job.email ==> (u in r <==> u in store) && (u in r ==> r[u] == store[u])
    ensures !succeeds ==> r == store
  {
    if succeeds then store[job.email := job.rows] else store
  }

  /** The store after the worker ran `jobs` in order, `outcomes[k]` telling
      whether the k-th write succeeded. */
  function Drain(store: Store, jobs: seq<Job>, outcomes: seq<bool>): Store
    requires |jobs| == |outcomes|
    decreases |jobs|
  {
    if |jobs| == 0 then store
    else Drain(Apply(store, jobs[0], outcomes[0]), jobs[1..], outcomes[1..])
  }

  /** Running one more job after a batch is applying it to the batch's result. */
  lemma {:induction false} DrainSnoc(store: Store, jobs: seq<Job>, outcomes: seq<bool>, job: Job, succeeds: bool)
    requires |jobs| == |outcomes|
    ensures Drain(store, jobs + [job], outcomes + [succeeds]) == Apply(Drain(store, jobs, outcomes), job, succeeds)
    decreases |jobs|
  {
    if |jobs| == 0 {
      assert jobs + [job] == [job];
      assert outcomes + [succeeds] == [succeeds];
    } else {
      assert (jobs + [job])[1..] == jobs[1..] + [job];
      assert (outcomes + [succeeds])[1..] == outcomes[1..] + [succeeds];
      DrainSnoc(Apply(store, jobs[0], outcomes[0]), jobs[1..], outcomes[1..], job, succeeds);
    }
  }

  /** The rows of the last job in `jobs` for the user, if any. */
  function LastFor(jobs: seq<Job>, email: string): (r: Option<seq<Row>>)
    ensures r.None? <==> forall k :: 0 <= k < |jobs| ==> jobs[k].email != email
    ensures r.Some? ==> exists k :: 0 <= k < |jobs| && jobs[k] == Job(email, r.value)
                          && forall j :: k < j < |jobs| ==> jobs[j].email != email
  {
    if |jobs| == 0 then None
    else if jobs[|jobs| - 1].email == email then Some(jobs[|jobs| - 1].rows)
    else
      LastFor(jobs[..|jobs| - 1], email)
  }

  function AllSucceed(n: nat): (r: seq<bool>)
    ensures |r| == n && forall k :: 0 <= k < n ==> r[k]
  {
    seq(n, k => true)
  }

  /** The rows of the last job in `jobs` for the user whose write succeeded, if any. */
  function LastWritten(jobs: seq<Job>, outcomes: seq<bool>, email: string): (r: Option<seq<Row>>)
    requires |jobs| == |outcomes|
    ensures r.None? <==> forall k :: 0 <= k < |jobs| && jobs[k].email == email ==> !outcomes[k]
    ensures r.Some? ==> exists k :: 0 <= k < |jobs| && outcomes[k] && jobs[k] == Job(email, r.value)
                          && forall j :: k < j < |jobs| && jobs[j].email == email ==> !outcomes[j]
  {
    if |jobs| == 0 then None
    else if jobs[|jobs| - 1].email == email && outcomes[|jobs| - 1] then Some(jobs[|jobs| - 1].rows)
    else
      LastWritten(jobs[..|jobs| - 1], outcomes[..|jobs| - 1], email)
  }

  /** Writes are applied in submission order and a failed write changes
      nothing, so each user's file ends with the rows of their last job whose
      write succeeded; the files of users without one are untouched. */
  lemma {:induction false} LastSuccessfulWriteWins(store: Store, jobs: seq<Job>, outcomes: seq<bool>, email: string)
    requires |jobs| == |outcomes|
    ensures var out := Drain(store, jobs, outcomes);
      match LastWritten(jobs, outcomes, email)
      case Some(rows) => email in out && out[email] == rows
      case None => (email in out <==> email in store) && (email in out ==> out[email] == store[email])
    decreases |jobs|
  {
    if |jobs| > 0 {
      var n := |jobs| - 1;
      assert jobs == jobs[..n] + [jobs[n]];
      assert outcomes == outcomes[..n] + [outcomes[n]];
      DrainSnoc(store, jobs[..n], outcomes[..n], jobs[n], outcomes[n]);
      LastSuccessfulWriteWins(store, jobs[..n], outcomes[..n], email);
    }
  }

  /** When every write succeeds, the last successful job is the last job. */
  lemma LastWrittenAllSucceed(jobs: seq<Job>, email: string)
    ensures LastWritten(jobs, AllSucceed(|jobs|), email) == LastFor(jobs, email)
  {
  }

  /** Once every queued write has succeeded each user's file holds the rows of
      their LAST job; the files of users without a job are untouched. */
  lemma LastWriteWins(store: Store, jobs: seq<Job>, email: string)
    ensures var out := Drain(store, jobs, AllSucceed(|jobs|));
      match LastFor(jobs, email)
      case Some(rows) => email in out && out[email] == rows
      case None => (email in out <==> email in store) && (email in out ==> out[email] == store[email])
  {
    LastSuccessfulWriteWins(store, jobs, AllSucceed(|jobs|), email);
    LastWrittenAllSucceed(jobs, email);
  }

  /** The executor with its queue, and the drive it writes to. */
  class SaveQueue {
    var pending: seq<Job>
    var store: Store

    constructor (initial: Store)
      ensures pending == [] && store == initial
    {
      pending := [];
      store := initial;
    }

    /** `save_portfolio`: with a signed-in user, queue the projection of the
        positions; without one, do nothing. The drive is not touched here. */
    method SavePortfolio(user: Option<string>, portfolio: seq<Position>)
      modifies this
      ensures user.None? ==> pending == old(pending)
      ensures user.Some? ==> pending == old(pending) + [Job(user.value, Project(portfolio))]
      ensures store == old(store)
    {
      if user.Some? {
        var basic := Project(portfolio);
        pending := pending + [Job(user.value, basic)];
      }
    }

    /** The worker runs the oldest queued job, if there is one; `succeeds` says
        whether the drive write went through. */
    method RunNext(succeeds: bool) returns (ran: bool)
      modifies this
      ensures ran == (old(pending) != [])
      ensures ran ==> pending == old(pending)[1..] && store == Apply(old(store), old(pending)[0], succeeds)
      ensures !ran ==> pending == old(pending) && store == old(store)
    {
      ran := pending != [];
      if ran {
        var job := pending[0];
        pending := pending[1..];
        store := Apply(store, job, succeeds);
      }
    }

    /** The worker running every queued job in turn, `outcomes[k]` telling
        whether the k-th write succeeded. */
    method RunPending(outcomes: seq<bool>)
      requires |outcomes| == |pending|
      modifies this
      ensures pending == [] && store == Drain(old(store), old(pending), outcomes)
    {
      ghost var done: seq<Job> := [];
      var k := 0;
      while pending != []
        invariant 0 <= k <= |outcomes| && k == |done|
        invariant done + pending == old(pending)
        invariant store == Drain(old(store), done, outcomes[..k])
        decreases |pending|
      {
        ghost var job := pending[0];
        var ran := RunNext(outcomes[k]);
        DrainSnoc(old(store), done, outcomes[..k], job, outcomes[k]);
        assert outcomes[..k + 1] == outcomes[..k] + [outcomes[k]];
        done := done + [job];
        k := k + 1;
      }
      assert done == old(pending) && outcomes[..k] == outcomes;
    }
  }
}
