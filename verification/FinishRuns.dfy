/** Over every run: whose `finish` closes a client's transport. */
module FinishRuns {
  import opened Sequences
  import opened ListenerQueue
  import opened QueueInvariants
  import opened QueueTheorems
  import opened HandlerFrames
  import Rendezvous

  predicate TransportClosed(q: Queue, w: Wid) { w in q.ws && q.ws[w].transportCloses == 1 }

  lemma CloseStep(q: Queue, w: Wid)
    requires Enabled(q, EnterFinish(w)) && WaiterOk(q.ws[w], ViewOf(q, w))
    ensures TransportClosed(Do(q, EnterFinish(w)), w)
  {
  }

  lemma OtherStep(q: Queue, a: Action, w: Wid)
    requires Enabled(q, a) && a != EnterFinish(w) && w in q.ws
    ensures TransportClosed(Do(q, a), w) <==> TransportClosed(q, w)
  {
    if a != TestAcquired(w) { OthersLeave(q, a, w); }
  }

  /** A client appears with its transport open, and only by arriving. */
  lemma NewStep(q: Queue, a: Action, t: Time, w: Wid)
    requires CanStep(q, a, t) && w !in q.ws
    ensures !TransportClosed(Next(q, a, t), w) && a != EnterFinish(w)
  {
    Rendezvous.StepShows(q, a, t);
  }

  lemma TransportAt(qs: seq<Queue>, es: seq<Event>, w: Wid, i: nat)
    requires Trace(qs, es) && Inv(qs[0]) && i < |es|
    ensures TransportClosed(qs[i + 1], w) <==> TransportClosed(qs[i], w) || es[i].a == EnterFinish(w)
  {
    TraceKeepsInv(qs, es, i);
    assert Steps(qs[i], es[i], qs[i + 1]);
    TransportStep(qs[i], es[i], w);
  }

  lemma TransportStep(q: Queue, e: Event, w: Wid)
    requires Inv(q) && CanStep(q, e.a, e.t)
    ensures TransportClosed(Next(q, e.a, e.t), w) <==> TransportClosed(q, w) || e.a == EnterFinish(w)
  {
    if w !in q.ws {
      NewStep(q, e.a, e.t, w);
    } else if e.a == EnterFinish(w) {
      AdvanceInv(q, e.t);
      ClientRecord(Advance(q, e.t), w);
      CloseStep(Advance(q, e.t), w);
    } else {
      OtherStep(Advance(q, e.t), e.a, w);
    }
  }

  lemma ClientRecord(q: Queue, w: Wid)
    requires Inv(q) && w in q.ws
    ensures WaiterOk(q.ws[w], ViewOf(q, w))
  {
  }

  function Closings(es: seq<Event>, w: Wid): (r: seq<bool>)
    ensures |r| == |es| && forall i :: 0 <= i < |es| ==> r[i] == (es[i].a == EnterFinish(w))
  {
    seq(|es|, i requires 0 <= i < |es| => es[i].a == EnterFinish(w))
  }

  function Closed(qs: seq<Queue>, w: Wid): (r: seq<bool>)
    ensures |r| == |qs| && forall i :: 0 <= i < |qs| ==> r[i] == TransportClosed(qs[i], w)
  {
    seq(|qs|, i requires 0 <= i < |qs| => TransportClosed(qs[i], w))
  }

  /** Over every run from an empty listener, whether the client was refused, shut
      down or timed out: its transport is closed exactly if its handler's
      `finish` is the one that ran, and an incoming connection never closes it. */
  lemma TransportClosedExactly(cap: nat, idleTimeoutOn: bool, t0: Time, qs: seq<Queue>, es: seq<Event>, w: Wid)
    requires Trace(qs, es) && qs[0] == Initial(cap, idleTimeoutOn, t0)
    ensures w in qs[|es|].ws && qs[|es|].ws[w].transportCloses == 1 <==>
              exists i :: 0 <= i < |es| && es[i].a == EnterFinish(w)
  {
    InitialInv(cap, idleTimeoutOn, t0);
    var flag, sets := Closed(qs, w), Closings(es, w);
    forall i | 0 <= i < |es|
      ensures flag[i + 1] == (flag[i] || sets[i])
    {
      TransportAt(qs, es, w, i);
    }
    SetBySome(flag, sets, |es|);
  }
}
