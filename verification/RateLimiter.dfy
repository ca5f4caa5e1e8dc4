/** The limiter object of icinga/ratelimiter.go: one method per atomic section
    of AcquireMutate, ReleaseMutate, AcquireStatus and ReleaseStatus. Each
    section performs exactly the protocol step of the thread that runs it. */
module RateLimiter {
  import opened AutoCreate
  import opened AutoCreateSlots

  class Limiter {
    const cfg: Config
    var mutateInUse: int  // len(mutateSem)
    var statusInUse: int  // len(statusSem)
    var queued: int

    constructor (cfg: Config)
      requires cfg.limited
      ensures this.cfg == cfg && Matches(Initial(0))
    {
      this.cfg, mutateInUse, statusInUse, queued := cfg, 0, 0, 0;
    }

    /** The object holds the counters of this protocol state. */
    ghost predicate Matches(s: State)
      reads this
    {
      cfg.limited && mutateInUse == s.mutateInUse && statusInUse == s.statusInUse && queued == s.queued
    }

    ghost predicate Runs(s: State, t: nat, pc: PC)
      reads this
    {
      Matches(s) && t < |s.threads| && s.threads[t].pc == pc
    }

    /** The protocol state after thread t has taken this step. */
    ghost predicate Stepped(s: State, t: nat)
      reads this
    {
      t < |s.threads| && Step(cfg, s, t, Go).Some? && Matches(Apply(s, t, Step(cfg, s, t, Go).value))
    }

    /** AcquireStatus, under the mutex: count the request or reject it. */
    method EnterQueue(ghost s: State, ghost t: nat) returns (admitted: bool)
      requires Runs(s, t, Arrive)
      modifies this`queued
      ensures Stepped(s, t)
      ensures admitted <==> Step(cfg, s, t, Go).value.pc == AwaitStatus
    {
      if queued >= cfg.maxQueue {
        return false;
      }
      queued := queued + 1;
      return true;
    }

    /** AcquireStatus: the send that the select waits for, once there is room. */
    method TakeStatusSlot(ghost s: State, ghost t: nat)
      requires Runs(s, t, AwaitStatus) && statusInUse < cfg.statusCap
      modifies this`statusInUse
      ensures Stepped(s, t)
    {
      statusInUse := statusInUse + 1;
    }

    /** AcquireStatus: the context is done. */
    method LeaveQueue(ghost s: State, ghost t: nat)
      requires Runs(s, t, Cancelled)
      modifies this`queued
      ensures Stepped(s, t)
    {
      queued := queued - 1;
    }

    /** ReleaseStatus: the receive; in a state that the protocol can reach it
        finds a token. */
    method ReturnStatusSlot(ghost s: State, ghost t: nat)
      requires Runs(s, t, ReleaseStatus) && Accounted(cfg, s)
      modifies this`statusInUse
      ensures Stepped(s, t) && statusInUse >= 0
    {
      ReleaseNeverBlocks(cfg, s, t);
      assert statusInUse > 0;
      statusInUse := statusInUse - 1;
    }

    /** ReleaseStatus: the decrement under the mutex. */
    method Uncount(ghost s: State, ghost t: nat)
      requires Runs(s, t, PC.Uncount)
      modifies this`queued
      ensures Stepped(s, t)
    {
      queued := queued - 1;
    }

    /** AcquireMutate: the send, once there is room. */
    method TakeMutateSlot(ghost s: State, ghost t: nat)
      requires Runs(s, t, AwaitMutate) && mutateInUse < cfg.mutateCap
      modifies this`mutateInUse
      ensures Stepped(s, t)
    {
      mutateInUse := mutateInUse + 1;
    }

    /** ReleaseMutate: the receive, which finds a token as well. */
    method ReturnMutateSlot(ghost s: State, ghost t: nat)
      requires Runs(s, t, ReleaseMutate) && Accounted(cfg, s)
      modifies this`mutateInUse
      ensures Stepped(s, t) && mutateInUse >= 0
    {
      ReleaseNeverBlocks(cfg, s, t);
      assert mutateInUse > 0;
      mutateInUse := mutateInUse - 1;
    }
  }
}
