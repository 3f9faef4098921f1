/**
 * The pull-based distribution protocol of `Pool::for_` and
 * `Pool::unordered_map` (src/pool.rs:215-363), with the channels as
 * sequences and the threads taken apart.
 *
 * The controller runs on the supervisor thread: it answers each need-work
 * request (a worker id) with the next item of a fused iterator, on that
 * worker's private channel. The request sequence is any interleaving the
 * workers produce, so it is a parameter. Each worker requests work, waits
 * for the answer, processes it and asks again, until it is told to stop.
 */
module Dispatch {
  import opened Wrappers
  import opened Packets

  /** A message the controller sends on the private channel of `worker`. */
  datatype Sent<M> = Sent(worker: nat, msg: M)

  /**
   * The number of leading `Some` messages of a worker's channel: the
   * messages it processes before an end marker or the channel's closure.
   */
  function LeadingCount<M>(s: seq<Option<M>>): (c: nat)
    ensures c <= |s|
    ensures forall j :: 0 <= j < c ==> s[j].Some?
    ensures c < |s| ==> s[c].None?
    decreases |s|
  {
    if s == [] || s[0].None? then 0 else 1 + LeadingCount(s[1..])
  }

  /** The work items a worker processes from its channel, in order. */
  function Leading<M>(s: seq<Option<M>>): (w: seq<M>)
    ensures |w| == LeadingCount(s)
    ensures forall j :: 0 <= j < |w| ==> s[j] == Some(w[j])
  {
    seq(LeadingCount(s), j requires 0 <= j < LeadingCount(s) => s[j].value)
  }

  /**
   * The controller closure of `unordered_map` (src/pool.rs:344-356): a
   * fused, enumerated iterator over `elems`, and one answer per need-work
   * request, sent on the requesting worker's channel. The loop ends when
   * every worker has dropped its need-work sender, that is after the last
   * request.
   */
  method UnorderedController<E>(elems: seq<E>, nThreads: nat, requests: seq<nat>)
    returns (sent: seq<Sent<Option<(nat, E)>>>)
    requires forall k :: 0 <= k < |requests| ==> requests[k] < nThreads
    ensures IsDispatchLog(elems, requests, sent)
  {
    var pos := 0;
    sent := [];
    var k := 0;
    while k < |requests|
      invariant k <= |requests| && |sent| == k
      invariant pos == if k < |elems| then k else |elems|
      invariant forall j :: 0 <= j < k ==> sent[j].worker == requests[j]
      invariant forall j :: 0 <= j < k ==> j < |elems| ==> sent[j].msg == Some((j, elems[j]))
      invariant forall j :: 0 <= j < k ==> |elems| <= j ==> sent[j].msg == None
    {
      var id := requests[k];
      var next: Option<(nat, E)>;
      if pos < |elems| {
        next := Some((pos, elems[pos]));
        pos := pos + 1;
      } else {
        next := None;
      }
      sent := sent + [Sent(id, next)];
      k := k + 1;
    }
  }

  /**
   * The controller closure of `for_` (src/pool.rs:252-264): the same loop
   * over a fused iterator that is not enumerated.
   */
  method ForController<E>(elems: seq<E>, nThreads: nat, requests: seq<nat>)
    returns (sent: seq<Sent<Option<E>>>)
    requires forall k :: 0 <= k < |requests| ==> requests[k] < nThreads
    ensures |sent| == |requests|
    ensures forall k :: 0 <= k < |sent| ==> sent[k].worker == requests[k]
    ensures forall k :: 0 <= k < |sent| ==> k < |elems| ==> sent[k].msg == Some(elems[k])
    ensures forall k :: 0 <= k < |sent| ==> |elems| <= k ==> sent[k].msg == None
  {
    var pos := 0;
    sent := [];
    var k := 0;
    while k < |requests|
      invariant k <= |requests| && |sent| == k
      invariant pos == if k < |elems| then k else |elems|
      invariant forall j :: 0 <= j < k ==> sent[j].worker == requests[j]
      invariant forall j :: 0 <= j < k ==> j < |elems| ==> sent[j].msg == Some(elems[j])
      invariant forall j :: 0 <= j < k ==> |elems| <= j ==> sent[j].msg == None
    {
      var id := requests[k];
      var next: Option<E>;
      if pos < |elems| {
        next := Some(elems[pos]);
        pos := pos + 1;
      } else {
        next := None;
      }
      sent := sent + [Sent(id, next)];
      k := k + 1;
    }
  }

  /**
   * The log of answers `UnorderedController` sends: one per request, on the
   * requester's channel; the k-th carries `(k, elems[k])` while input
   * remains and the end marker afterwards.
   */
  ghost predicate IsDispatchLog<E>(elems: seq<E>, requests: seq<nat>, sent: seq<Sent<Option<(nat, E)>>>)
  {
    && |sent| == |requests|
    && (forall k :: 0 <= k < |sent| ==> sent[k].worker == requests[k])
    && (forall k :: 0 <= k < |sent| ==> k < |elems| ==> sent[k].msg == Some((k, elems[k])))
    && (forall k :: 0 <= k < |sent| ==> |elems| <= k ==> sent[k].msg == None)
  }

  /**
   * Each index is handed out at most once, always with its own element,
   * and the indices handed out are exactly `0..m-1` for
   * `m = min(|requests|, |elems|)`.
   */
  lemma DispatchIsExactlyOnce<E>(elems: seq<E>, requests: seq<nat>, sent: seq<Sent<Option<(nat, E)>>>)
    requires IsDispatchLog(elems, requests, sent)
    ensures forall a, b ::
      (0 <= a < |sent| && 0 <= b < |sent| && sent[a].msg.Some? && sent[b].msg.Some? &&
       sent[a].msg.value.0 == sent[b].msg.value.0) ==> a == b
    ensures forall k :: 0 <= k < |sent| && sent[k].msg.Some? ==>
      sent[k].msg.value.0 < |elems| && sent[k].msg.value.1 == elems[sent[k].msg.value.0]
    ensures forall i :: 0 <= i < |elems| && i < |requests| ==> sent[i].msg == Some((i, elems[i]))
  {
  }

  /** Fuse: once the iterator is exhausted, every later request is answered with the end marker. */
  lemma DispatchIsFused<E>(elems: seq<E>, requests: seq<nat>, sent: seq<Sent<Option<(nat, E)>>>)
    requires IsDispatchLog(elems, requests, sent)
    ensures forall a, b :: 0 <= a < b < |sent| && sent[a].msg.None? ==> sent[b].msg.None?
  {
  }

  /**
   * The loop of a `for_` worker (src/pool.rs:238-250): ask for work, wait
   * for it, apply `f`; stop on the end marker or when the channel closes.
   * Returns the need-work messages it sent and the elements `f` was applied
   * to.
   */
  method ForWorker<E>(id: nat, inbox: seq<Option<E>>) returns (requests: seq<nat>, applied: seq<E>)
    ensures applied == Leading(inbox)
    ensures |requests| == |applied| + 1
    ensures forall k :: 0 <= k < |requests| ==> requests[k] == id
  {
    requests := [];
    applied := [];
    var k := 0;
    while true
      invariant k <= |inbox| && |requests| == |applied| == k
      invariant forall j :: 0 <= j < k ==> inbox[j] == Some(applied[j])
      invariant forall j :: 0 <= j < k ==> requests[j] == id
      decreases |inbox| - k
    {
      requests := requests + [id];
      if k == |inbox| {
        break;
      }
      var m := inbox[k];
      match m
      case None =>
        break;
      case Some(elem) =>
        applied := applied + [elem];
        k := k + 1;
    }
    LeadingIsPrefix(inbox, k);
  }

  /** A prefix of `Some`s that ends at an end marker or at the end is the leading work. */
  lemma LeadingIsPrefix<M>(s: seq<Option<M>>, k: nat)
    requires k <= |s| && (forall j :: 0 <= j < k ==> s[j].Some?) && (k < |s| ==> s[k].None?)
    ensures LeadingCount(s) == k
  {
  }

  /**
   * The loop of an `unordered_map` worker (src/pool.rs:321-342): ask for
   * work, wait for `(idx, elem)`, send `Packet { idx, data: Some(f(elem)) }`
   * on the results channel, and stop on the end marker, on the channel's
   * closure, or when a send fails because the consumer has gone. The
   * results channel accepts the first `accepted` sends of this worker.
   */
  method UnorderedWorker<E, R>(id: nat, inbox: seq<Option<(nat, E)>>, f: E -> R, accepted: nat)
    returns (requests: seq<nat>, packets: seq<Packet<R>>)
    ensures var work := Leading(inbox);
      && |packets| == (if |work| <= accepted then |work| else accepted)
      && (forall k :: 0 <= k < |packets| ==> packets[k] == Packet(work[k].0, Some(f(work[k].1))))
      && |requests| == (if |work| <= accepted then |work| + 1 else accepted + 1)
    ensures forall k :: 0 <= k < |requests| ==> requests[k] == id
  {
    requests := [];
    packets := [];
    var sends := 0;
    var k := 0;
    while true
      invariant k <= |inbox| && k <= accepted && |requests| == |packets| == sends == k
      invariant forall j :: 0 <= j < k ==> inbox[j].Some?
      invariant forall j :: 0 <= j < k ==> packets[j] == Packet(inbox[j].value.0, Some(f(inbox[j].value.1)))
      invariant forall j :: 0 <= j < k ==> requests[j] == id
      decreases |inbox| - k
    {
      requests := requests + [id];
      if k == |inbox| {
        LeadingIsPrefix(inbox, k);
        break;
      }
      var m := inbox[k];
      match m
      case None =>
        LeadingIsPrefix(inbox, k);
        break;
      case Some(work) =>
        var data := f(work.1);
        var status := sends < accepted;
        sends := sends + 1;
        if !status {
          break;
        }
        packets := packets + [Packet(work.0, Some(data))];
        k := k + 1;
    }
  }
}
