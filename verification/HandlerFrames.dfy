/** What the steps of other goroutines leave alone of a client and its handler. */
module HandlerFrames {
  import opened Sequences
  import opened ListenerQueue
  import opened QueueSteps

  /** Neither what the handler of `w` saw nor who closed the transport changes. */
  predicate Unmoved(q: Queue, q': Queue, w: Wid) {
    && w in q.ws && w in q'.ws && q'.ws[w].tested == q.ws[w].tested
    && q'.ws[w].closedBy == q.ws[w].closedBy && q'.ws[w].transportCloses == q.ws[w].transportCloses
  }

  lemma BroadcastLeaves(q: Queue, w: Wid)
    requires w in q.ws
    ensures Unmoved(q, Broadcast(q), w)
  {
  }

  lemma PurgedLeaves(q: Queue, w: Wid)
    requires SectionOver(q) && w in q.ws
    ensures Unmoved(q, Purged(q), w)
  {
    BroadcastLeaves(q.(waiting := Kept(q.waiting, q.lock.obs), lock := Free), w);
  }

  lemma SectionLeaves(q: Queue, a: Action, w: Wid)
    requires Enabled(q, a) && w in q.ws && (a.CommitEnqueue? || a.CommitPurge?)
    ensures Unmoved(q, Do(q, a), w)
  {
    PurgedLeaves(q, w);
    if a.CommitEnqueue? { BroadcastLeaves(Appended(Purged(q), q.lock.task.w), w); }
  }

  lemma HandedLeaves(q: Queue, c: Cid, since: nat, w: Wid)
    requires q.waiting != [] && q.waiting[0] in q.ws && c in q.cs && w in q.ws
    ensures Unmoved(q, Broadcast(HandedTo(q, c, since)), w)
  {
    BroadcastLeaves(HandedTo(q, c, since), w);
  }

  lemma AcquireLeaves(q: Queue, w: Wid)
    requires Enabled(q, CommitAcquire) && w in q.ws
    ensures Unmoved(q, DoCommitAcquire(q), w)
  {
    var p := Purged(q);
    PurgedLeaves(q, w);
    if p.waiting != [] && p.waiting[0] in p.ws { HandedLeaves(p, q.lock.task.c, q.lock.since, w); }
  }

  lemma HandlerLeaves(q: Queue, a: Action, w: Wid)
    requires Enabled(q, a) && w in q.ws && OfHandler(a) && !a.CommitEnqueue? && !a.CommitPurge?
    requires a != TestAcquired(w) && a != EnterFinish(w)
    ensures Unmoved(q, Do(q, a), w)
  {
  }

  lemma IncomingLeaves(q: Queue, a: Action, w: Wid)
    requires Enabled(q, a) && w in q.ws && !OfHandler(a) && a != CommitAcquire
    ensures Unmoved(q, Do(q, a), w)
  {
  }

  lemma OthersLeave(q: Queue, a: Action, w: Wid)
    requires Enabled(q, a) && w in q.ws && a != TestAcquired(w) && a != EnterFinish(w)
    ensures Unmoved(q, Do(q, a), w)
  {
    if a.CommitEnqueue? || a.CommitPurge? {
      SectionLeaves(q, a, w);
    } else if a == CommitAcquire {
      AcquireLeaves(q, w);
    } else if OfHandler(a) {
      HandlerLeaves(q, a, w);
    } else {
      IncomingLeaves(q, a, w);
    }
  }
}
