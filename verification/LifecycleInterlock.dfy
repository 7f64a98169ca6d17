/** The advisory lease that serialises navigation-manager transitions between two processes
    (amr_base_driver/lifecycle_interlock.py). The kernel's answer to each attempt is an input. */
module LifecycleInterlock {
  import opened Common

  /** What one attempt to take the lock meets. */
  datatype Attempt =
    | Denied     // the file cannot be opened yet: the other side is still widening its mode
    | Contended  // another descriptor holds the lock
    | Free(descriptor: nat)

  /** The attempts of one polling wait and the clock readings that follow each of them. */
  datatype Polls = Polls(attempt: nat -> Attempt, start: real, after: nat -> real)

  /** Between two readings at least one sleep of the polling loop has passed. */
  ghost predicate Advances(p: Polls, poll: real) {
    && p.start <= p.after(0)
    && forall k: nat :: p.after(k) + Max(0.01, poll) <= p.after(k + 1)
  }

  /** The wait is still polling when it makes attempt k. */
  ghost predicate Reached(p: Polls, deadline: real, k: nat) {
    forall j: nat :: j < k ==> !p.attempt(j).Free? && p.after(j) < deadline
  }

  /** Some attempt made before the deadline was noticed met a free lock. */
  ghost predicate FreeInTime(p: Polls, deadline: real) {
    exists k: nat :: Reached(p, deadline, k) && p.attempt(k).Free?
  }

  class LifecycleInterlock {
    var descriptor: Option<nat>

    constructor ()
      ensures !Held()
    {
      descriptor := None;
    }

    predicate Held()
      reads this
    {
      descriptor.Some?
    }

    method TryAcquire(attempt: Attempt) returns (acquired: bool)
      modifies this
      ensures acquired == Held() == (old(Held()) || attempt.Free?)
      ensures old(Held()) ==> descriptor == old(descriptor)
    {
      if Held() {
        return true;
      }
      if attempt == Denied {
        return false;
      }
      if attempt == Contended {
        return false;
      }
      descriptor := Some(attempt.descriptor);
      return true;
    }

    /** At least one attempt is made, even with no time to wait; the lock is taken exactly when a
        poll before the deadline met it free, and giving up means that the deadline has passed. */
    method Acquire(timeout: real, poll: real, p: Polls) returns (acquired: bool)
      requires Advances(p, poll)
      modifies this
      ensures acquired == Held()
      ensures acquired == (old(Held()) || FreeInTime(p, p.start + Max(0.0, timeout)))
      ensures !acquired ==> exists k: nat :: !p.attempt(k).Free? && p.after(k) >= p.start + timeout
    {
      var deadline := p.start + Max(0.0, timeout);
      var k: nat := 0;
      ghost var left := PollsLeft(p, poll, deadline, 0);
      while true
        invariant Held() == old(Held())
        invariant k > 0 ==> !Held()
        invariant Reached(p, deadline, k)
        invariant left == PollsLeft(p, poll, deadline, k)
        decreases left
      {
        var taken := TryAcquire(p.attempt(k));
        if taken {
          return true;
        }
        if p.after(k) >= deadline {
          NeverFree(p, deadline, k);
          return false;
        }
        FewerLeft(p, poll, deadline, k);
        k := k + 1;
        left := PollsLeft(p, poll, deadline, k);
      }
    }

    method Release()
      modifies this
      ensures !Held()
    {
      descriptor := None;
    }
  }

  ghost function PollsLeft(p: Polls, poll: real, deadline: real, k: nat): nat {
    var waits := (deadline - p.after(k)) / Max(0.01, poll);
    if waits < 0.0 then 0 else waits.Floor + 1
  }

  lemma FewerLeft(p: Polls, poll: real, deadline: real, k: nat)
    requires Advances(p, poll) && p.after(k) < deadline
    ensures PollsLeft(p, poll, deadline, k + 1) < PollsLeft(p, poll, deadline, k)
  {
    var step := Max(0.01, poll);
    Quotients(deadline - p.after(k), deadline - p.after(k + 1), step);
  }

  lemma Quotients(a: real, b: real, step: real)
    requires step > 0.0 && a > 0.0 && b <= a - step
    ensures a / step >= 0.0 && b / step <= a / step - 1.0
  {
    var q, r := a / step, b / step;
    assert q * step == a && r * step == b;
    Factor(q, step);
    Factor(q - 1.0 - r, step);
  }

  lemma Factor(x: real, step: real)
    requires step > 0.0 && x * step >= 0.0
    ensures x >= 0.0
  {}

  /** A wait that reached its deadline unsuccessfully at attempt k met no free lock in time. */
  lemma NeverFree(p: Polls, deadline: real, k: nat)
    requires Reached(p, deadline, k) && !p.attempt(k).Free? && p.after(k) >= deadline
    ensures !FreeInTime(p, deadline)
  {
    forall j: nat | Reached(p, deadline, j)
      ensures !p.attempt(j).Free?
    {
      if j < k {
        assert !p.attempt(j).Free?;
      }
    }
  }
}
