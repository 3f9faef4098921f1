/**
 * The iterators returned by `Pool::unordered_map` and `Pool::map`
 * (src/pool.rs:489-543). The unordered channel of result packets is a finite
 * sequence: the packets the workers send, in arrival order.
 *
 * `ParMap::next` keeps early packets in a heap and hands out the payload of
 * the packet whose index is the cursor `looking_for`. Its state is modelled
 * both as a value (`MapState`, with the transition function `Step`) and as the
 * class `ParMap`, whose `Next` method is proved to perform `Step`.
 */
module OrderedMap {
  import opened Wrappers
  import opened Packets
  import opened PacketHeap
  import opened Channels

  /**
   * What one call of an iterator's `next` produces: a value, the end of the
   * iteration (`None`), or the panic raised on reaching a failure sentinel.
   */
  datatype Item<T> = Yield(value: T) | Done | Panic

  /**
   * What `next` produces on popping a packet with this payload: never the
   * end of the iteration; the payload itself when there is one, and a panic
   * on the failure sentinel.
   */
  function Emit<T>(data: Option<T>): (r: Item<T>)
    ensures !r.Done?
    ensures r.Yield? <==> data.Some?
    ensures r.Yield? ==> data == Some(r.value)
  {
    match data
    case Some(v) => Yield(v)
    case None => Panic
  }

  /**
   * A `ParMap`: the packets still to arrive on the unordered channel, the
   * heap `queue`, and the cursor `looking_for`.
   */
  datatype MapState<T> = MapState(rx: seq<Packet<T>>, queue: seq<Packet<T>>, lookingFor: nat)

  /** The packets received or still to arrive that have not been popped: the heap, then the channel. */
  function Unpopped<T>(st: MapState<T>): seq<Packet<T>>
  {
    st.queue + st.rx
  }

  /** The state `Pool::map` builds (src/pool.rs:395-399): an empty heap, the cursor at 0. */
  function Start<T>(rx: seq<Packet<T>>): (st: MapState<T>)
    ensures st.lookingFor == 0 && st.queue == [] && st.rx == rx && Unpopped(st) == rx
  {
    MapState(rx, [], 0)
  }

  /** The result of one `next` call and the state after it. */
  datatype Outcome<T> = Outcome(item: Item<T>, next: MapState<T>)

  /**
   * `ParMap::next` (src/pool.rs:521-542): if the top of the heap carries the
   * cursor's index, pop it and advance the cursor; otherwise receive one
   * packet into the heap, or end when the channel is closed.
   */
  function Step<T>(st: MapState<T>): (o: Outcome<T>)
    ensures o.next.lookingFor == st.lookingFor + (if o.item.Done? then 0 else 1)
    ensures o.item.Done? ==> o.next.rx == [] && Unpopped(o.next) == Unpopped(st)
    ensures !o.item.Done? ==> |Unpopped(o.next)| + 1 == |Unpopped(st)|
    decreases |st.rx|
  {
    var top := Peek(st.queue);
    if top.Some? && top.value.idx == st.lookingFor then
      Outcome(Emit(top.value.data), MapState(st.rx, Pop(st.queue), st.lookingFor + 1))
    else if st.rx == [] then
      Outcome(Done, st)
    else
      var st' := MapState(st.rx[1..], Push(st.queue, st.rx[0]), st.lookingFor);
      assert Unpopped(st') == Unpopped(st);
      Step(st')
  }

  /**
   * Everything a consumer sees when it calls `next` until the iterator
   * ends or panics, which always includes the final item.
   */
  function Collect<T>(st: MapState<T>): (r: seq<Item<T>>)
    ensures r != []
    decreases |Unpopped(st)|
  {
    var o := Step(st);
    if o.item.Yield? then [o.item] + Collect(o.next) else [o.item]
  }

  /** A consumer sees at most one value per packet still to be handed out, and the final item. */
  lemma {:induction false} CollectLength<T>(st: MapState<T>)
    ensures |Collect(st)| <= |Unpopped(st)| + 1
    decreases |Unpopped(st)|
  {
    var o := Step(st);
    if o.item.Yield? {
      CollectLength(o.next);
    }
  }

  /** What a consumer sees is a run of values ended by exactly one `None` or panic. */
  lemma {:induction false} CollectShape<T>(st: MapState<T>)
    ensures |Collect(st)| >= 1 && !Collect(st)[|Collect(st)| - 1].Yield?
    ensures forall k :: 0 <= k < |Collect(st)| - 1 ==> Collect(st)[k].Yield?
  {
    CollectIsRun(st);
    RunMeans(Collect(st));
  }

  /** A run of values closed by one item that is not a value. */
  ghost predicate IsRun<T>(items: seq<Item<T>>)
  {
    |items| >= 1 && !items[|items| - 1].Yield? && forall k :: 0 <= k < |items| - 1 ==> items[k].Yield?
  }

  /** `CollectShape` as a predicate, by induction on the pool. */
  lemma {:induction false} CollectIsRun<T>(st: MapState<T>)
    ensures IsRun(Collect(st))
    decreases |Unpopped(st)|
  {
    var o := Step(st);
    if o.item.Yield? {
      CollectIsRun(o.next);
      RunCons(o.item, Collect(o.next), Collect(st));
    } else {
      RunEnd(o.item, Collect(st));
    }
  }

  /** `IsRun` spelled out. */
  lemma RunMeans<T>(items: seq<Item<T>>)
    requires IsRun(items)
    ensures |items| >= 1 && !items[|items| - 1].Yield?
    ensures forall k :: 0 <= k < |items| - 1 ==> items[k].Yield?
  {
  }

  /** A value in front of a run is a run. */
  lemma RunCons<T>(x: Item<T>, rest: seq<Item<T>>, items: seq<Item<T>>)
    requires x.Yield? && IsRun(rest) && items == [x] + rest
    ensures IsRun(items)
  {
    assert items[|items| - 1] == rest[|rest| - 1];
  }

  /** A single item that is not a value is a run. */
  lemma RunEnd<T>(x: Item<T>, items: seq<Item<T>>)
    requires !x.Yield? && items == [x]
    ensures IsRun(items)
  {
  }

  /**
   * Everything the iterator hands out comes from a packet it was given: the
   * `k`-th value is the payload of a packet carrying index `looking_for + k`,
   * and a panic is raised only at a packet carrying the failure sentinel.
   * A sentinel is never handed out as a value.
   */
  lemma CollectComesFromPackets<T>(st: MapState<T>)
    ensures forall k :: 0 <= k < |Collect(st)| && Collect(st)[k].Yield? ==>
      exists i :: 0 <= i < |Unpopped(st)| && Unpopped(st)[i].idx == st.lookingFor + k &&
        Unpopped(st)[i].data == Some(Collect(st)[k].value)
    ensures forall k :: 0 <= k < |Collect(st)| && Collect(st)[k].Panic? ==>
      exists i :: 0 <= i < |Unpopped(st)| && Unpopped(st)[i].idx == st.lookingFor + k && Unpopped(st)[i].data.None?
  {
    CollectSupplied(st);
    SuppliedMeans(Unpopped(st), st.lookingFor, Collect(st));
  }

  /** Every item of `items` other than the end is what popping some packet carrying `from + k` produces. */
  ghost predicate Supplied<T>(pool: seq<Packet<T>>, from: nat, items: seq<Item<T>>)
  {
    forall k :: 0 <= k < |items| && !items[k].Done? ==>
      exists i :: 0 <= i < |pool| && pool[i].idx == from + k && Emit(pool[i].data) == items[k]
  }

  /** `Supplied` spelled out for values and for panics. */
  lemma SuppliedMeans<T>(pool: seq<Packet<T>>, from: nat, items: seq<Item<T>>)
    requires Supplied(pool, from, items)
    ensures forall k :: 0 <= k < |items| && items[k].Yield? ==>
      exists i :: 0 <= i < |pool| && pool[i].idx == from + k && pool[i].data == Some(items[k].value)
    ensures forall k :: 0 <= k < |items| && items[k].Panic? ==>
      exists i :: 0 <= i < |pool| && pool[i].idx == from + k && pool[i].data.None?
  {
    forall k | 0 <= k < |items| && !items[k].Done?
      ensures exists i ::
                0 <= i < |pool| && pool[i].idx == from + k &&
                (items[k].Yield? ==> pool[i].data == Some(items[k].value)) && (items[k].Panic? ==> pool[i].data.None?)
    {
      var i :| 0 <= i < |pool| && pool[i].idx == from + k && Emit(pool[i].data) == items[k];
      match pool[i].data
      case Some(v) =>
      case None =>
    }
  }

  /** The iteration as a whole is supplied by the packets of the pool. */
  lemma {:induction false} CollectSupplied<T>(st: MapState<T>)
    ensures Supplied(Unpopped(st), st.lookingFor, Collect(st))
    decreases |Unpopped(st)|
  {
    var o := Step(st);
    if o.item.Done? {
      SuppliedEnd(Unpopped(st), st.lookingFor, Collect(st));
    } else {
      var i := TakenPacket(st);
      if o.item.Yield? {
        CollectSupplied(o.next);
        SuppliedCons(Unpopped(st), i, st.lookingFor, Collect(o.next), Collect(st));
      } else {
        SuppliedCons(Unpopped(st), i, st.lookingFor, [], Collect(st));
      }
    }
  }

  /** The position of the packet a `next` call that does not end takes out of the pool. */
  lemma TakenPacket<T>(st: MapState<T>) returns (i: nat)
    requires !Step(st).item.Done?
    ensures i < |Unpopped(st)| && Unpopped(st)[i].idx == st.lookingFor && Step(st).item == Emit(Unpopped(st)[i].data)
    ensures Unpopped(Step(st).next) == RemoveAt(Unpopped(st), i)
  {
    StepYieldsOnlyLookingFor(st);
    i :| 0 <= i < |Unpopped(st)| && Unpopped(st)[i].idx == st.lookingFor &&
      Step(st).item == Emit(Unpopped(st)[i].data) && Unpopped(Step(st).next) == RemoveAt(Unpopped(st), i);
  }

  /** The end alone needs no packet. */
  lemma SuppliedEnd<T>(pool: seq<Packet<T>>, from: nat, items: seq<Item<T>>)
    requires items == [Done]
    ensures Supplied(pool, from, items)
  {
  }

  /** A popped packet followed by what the remaining packets supply. */
  lemma SuppliedCons<T>(pool: seq<Packet<T>>, i: nat, from: nat, rest: seq<Item<T>>, items: seq<Item<T>>)
    requires i < |pool| && pool[i].idx == from
    requires Supplied(RemoveAt(pool, i), from + 1, rest)
    requires items == [Emit(pool[i].data)] + rest
    ensures Supplied(pool, from, items)
  {
    var r := RemoveAt(pool, i);
    forall k | 0 <= k < |items| && !items[k].Done?
      ensures exists q :: 0 <= q < |pool| && pool[q].idx == from + k && Emit(pool[q].data) == items[k]
    {
      if k == 0 {
        assert Emit(pool[i].data) == items[0];
      } else {
        assert items[k] == rest[k - 1];
        var j :| 0 <= j < |r| && r[j].idx == from + 1 + (k - 1) && Emit(r[j].data) == rest[k - 1];
        var j' := if j < i then j else j + 1;
        assert r[j] == pool[j'];
      }
    }
  }

  /**
   * The order `map` promises, stated without the heap or the channel: the
   * payload carrying index `from`, then the one carrying `from + 1`, and so
   * on, ending at the first index no packet carries, or at a failure
   * sentinel. When several packets carry an index, the first one counts.
   */
  function InOrder<T>(pool: seq<Packet<T>>, from: nat): seq<Item<T>>
    decreases Bound(pool) - from
  {
    match Find(pool, from)
    case None => [Done]
    case Some(i) =>
      if pool[i].data.Some? then [Yield(pool[i].data.value)] + InOrder(pool, from + 1)
      else [Panic]
  }

  /** The invariant of a `ParMap`: indices are unique and none is below the cursor. */
  ghost predicate Inv<T>(st: MapState<T>)
  {
    Unique(Unpopped(st)) && AllAtLeast(Unpopped(st), st.lookingFor)
  }

  /**
   * `next` yields only from a packet carrying the cursor's index, and takes
   * just that packet out of the pool: the other packets stay buffered or in
   * the channel.
   */
  lemma {:induction false} StepYieldsOnlyLookingFor<T>(st: MapState<T>)
    ensures !Step(st).item.Done? ==>
      exists i :: 0 <= i < |Unpopped(st)| && Unpopped(st)[i].idx == st.lookingFor &&
        Step(st).item == Emit(Unpopped(st)[i].data) && Unpopped(Step(st).next) == RemoveAt(Unpopped(st), i)
    decreases |st.rx|
  {
    var top := Peek(st.queue);
    if top.Some? && top.value.idx == st.lookingFor {
      var t := Top(st.queue);
      var o := Step(st);
      assert o.item == Emit(st.queue[t].data);
      assert o.next.queue == RemoveAt(st.queue, t) && o.next.rx == st.rx;
      assert Unpopped(st)[t] == st.queue[t];
      RemoveAtConcat(st.queue, st.rx, t);
    } else if st.rx != [] {
      var st' := MapState(st.rx[1..], Push(st.queue, st.rx[0]), st.lookingFor);
      assert Unpopped(st') == Unpopped(st);
      assert Step(st) == Step(st');
      StepYieldsOnlyLookingFor(st');
    }
  }

  /**
   * When no packet is below the cursor, `next` takes the first packet
   * carrying the cursor's index out of the pool and yields its payload;
   * if there is none it receives everything and ends, losing nothing.
   */
  lemma {:induction false} StepTakesLookingFor<T>(st: MapState<T>)
    requires AllAtLeast(Unpopped(st), st.lookingFor)
    ensures Find(Unpopped(st), st.lookingFor).None? ==>
      Step(st).item == Done && Unpopped(Step(st).next) == Unpopped(st) && Step(st).next.lookingFor == st.lookingFor
    ensures Find(Unpopped(st), st.lookingFor).Some? ==>
      var i := Find(Unpopped(st), st.lookingFor).value;
      Step(st).item == Emit(Unpopped(st)[i].data) && Unpopped(Step(st).next) == RemoveAt(Unpopped(st), i) &&
      Step(st).next.lookingFor == st.lookingFor + 1
    decreases |st.rx|
  {
    var lf := st.lookingFor;
    var top := Peek(st.queue);
    if top.Some? && top.value.idx == lf {
      var t := Top(st.queue);
      assert Unpopped(st)[t] == st.queue[t];
      forall j | 0 <= j < t ensures Unpopped(st)[j].idx != lf {
        assert Unpopped(st)[j] == st.queue[j];
      }
      FindFirst(Unpopped(st), lf, t);
      RemoveAtConcat(st.queue, st.rx, t);
    } else {
      if top.Some? {
        var t := Top(st.queue);
        assert Unpopped(st)[t] == st.queue[t];
      }
      forall j | 0 <= j < |st.queue| ensures st.queue[j].idx != lf {
        assert Unpopped(st)[j] == st.queue[j];
      }
      if st.rx == [] {
        assert Unpopped(st) == st.queue;
      } else {
        var st' := MapState(st.rx[1..], Push(st.queue, st.rx[0]), lf);
        assert Unpopped(st') == Unpopped(st);
        assert Step(st) == Step(st');
        StepTakesLookingFor(st');
      }
    }
  }

  /**
   * `next` preserves the invariant: with unique indices, every buffered
   * packet keeps an index of at least `looking_for`.
   */
  lemma StepPreservesInv<T>(st: MapState<T>)
    requires Inv(st)
    ensures Inv(Step(st).next)
    ensures AllAtLeast(Step(st).next.queue, Step(st).next.lookingFor)
  {
    StepTakesLookingFor(st);
    var next := Step(st).next;
    var f := Find(Unpopped(st), st.lookingFor);
    if f.Some? {
      RemoveAtUnique(Unpopped(st), f.value);
    }
    forall j | 0 <= j < |next.queue| ensures next.lookingFor <= next.queue[j].idx {
      assert next.queue[j] == Unpopped(next)[j];
    }
  }

  /** From any state that keeps the invariant, `map` yields its packets in index order. */
  lemma {:induction false} CollectIsInOrder<T>(st: MapState<T>)
    requires Inv(st)
    ensures Collect(st) == InOrder(Unpopped(st), st.lookingFor)
    decreases |Unpopped(st)|
  {
    var o := Step(st);
    StepTakesLookingFor(st);
    CollectUnfold(st);
    if o.item.Yield? {
      StepPreservesInv(st);
      CollectIsInOrder(o.next);
    }
    InOrderOfOutcome(Unpopped(st), st.lookingFor, o.item, Unpopped(o.next), o.next.lookingFor, Collect(o.next), Collect(st));
  }

  /** One call of `next`, then the rest of the iteration. */
  lemma CollectUnfold<T>(st: MapState<T>)
    ensures Collect(st) == if Step(st).item.Yield? then [Step(st).item] + Collect(Step(st).next) else [Step(st).item]
  {
  }

  /** What one `next` call contributes to the iteration, and that a value shrinks the pool. */
  lemma CollectAfterNext<T>(before: MapState<T>, r: Item<T>, after: MapState<T>)
    requires Outcome(r, after) == Step(before)
    ensures Collect(before) == if r.Yield? then [r] + Collect(after) else [r]
    ensures r.Yield? ==> |Unpopped(after)| < |Unpopped(before)|
  {
    CollectUnfold(before);
  }

  /** Appending the last item completes the iteration. */
  lemma AppendLast<T>(items: seq<Item<T>>, r: Item<T>, rest: seq<Item<T>>, total: seq<Item<T>>)
    requires items + rest == total && rest == [r]
    ensures items + [r] == total
  {
  }

  /** Appending a value keeps `items` a prefix of the iteration. */
  lemma AppendNext<T>(items: seq<Item<T>>, r: Item<T>, after: seq<Item<T>>, rest: seq<Item<T>>, total: seq<Item<T>>)
    requires items + rest == total && rest == [r] + after
    ensures (items + [r]) + after == total
  {
    assert items + ([r] + after) == (items + [r]) + after;
  }

  /**
   * The reference order, given what one `next` call does to a pool: the
   * item it produces followed, after a value, by the reference order of
   * the pool it leaves.
   */
  lemma InOrderOfOutcome<T>(pool: seq<Packet<T>>, from: nat, item: Item<T>, nextPool: seq<Packet<T>>, nextFrom: nat,
                            rest: seq<Item<T>>, items: seq<Item<T>>)
    requires Find(pool, from).None? ==> item == Done && nextPool == pool && nextFrom == from
    requires Find(pool, from).Some? ==>
      var i := Find(pool, from).value;
      item == Emit(pool[i].data) && nextPool == RemoveAt(pool, i) && nextFrom == from + 1
    requires item.Yield? ==> rest == InOrder(nextPool, nextFrom)
    requires items == if item.Yield? then [item] + rest else [item]
    ensures items == InOrder(pool, from)
  {
    match Find(pool, from)
    case None =>
    case Some(i) =>
      if pool[i].data.Some? {
        InOrderPastTaken(pool, from, i, rest);
      }
  }

  /**
   * The reference order from `from` is the payload carrying `from`, then
   * the reference order of the other packets from `from + 1`.
   */
  lemma InOrderPastTaken<T>(pool: seq<Packet<T>>, from: nat, i: nat, rest: seq<Item<T>>)
    requires i < |pool| && Find(pool, from) == Some(i) && pool[i].data.Some?
    requires rest == InOrder(RemoveAt(pool, i), from + 1)
    ensures [Yield(pool[i].data.value)] + rest == InOrder(pool, from)
  {
    InOrderIgnoresBelow(pool, i, from + 1);
    InOrderUnfold(pool, from, i);
  }

  /** One step of `InOrder` at a present payload. */
  lemma InOrderUnfold<T>(pool: seq<Packet<T>>, from: nat, i: nat)
    requires Find(pool, from) == Some(i) && i < |pool| && pool[i].data.Some?
    ensures InOrder(pool, from) == [Yield(pool[i].data.value)] + InOrder(pool, from + 1)
  {
  }

  /** Whether `InOrder` goes on past `from`: a packet carries `from` with a payload. */
  predicate Continues<T>(pool: seq<Packet<T>>, from: nat)
  {
    Find(pool, from).Some? && pool[Find(pool, from).value].data.Some?
  }

  /** An index at which `InOrder` goes on lies below `Bound`. */
  lemma FoundBelowBound<T>(pool: seq<Packet<T>>, from: nat)
    requires Continues(pool, from)
    ensures from < Bound(pool)
  {
  }

  /** Taking out a packet whose index is below `from` does not change the order from `from` on. */
  lemma {:induction false} InOrderIgnoresBelow<T>(pool: seq<Packet<T>>, i: nat, from: nat)
    requires i < |pool| && pool[i].idx < from
    ensures InOrder(RemoveAt(pool, i), from) == InOrder(pool, from)
    decreases Bound(pool) - from
  {
    if Continues(pool, from) {
      FoundBelowBound(pool, from);
      InOrderIgnoresBelow(pool, i, from + 1);
    }
    IgnoresBelowStep(pool, i, from);
  }

  /** The inductive step of `InOrderIgnoresBelow`. */
  lemma IgnoresBelowStep<T>(pool: seq<Packet<T>>, i: nat, from: nat)
    requires i < |pool| && pool[i].idx < from
    requires Continues(pool, from) ==> InOrder(RemoveAt(pool, i), from + 1) == InOrder(pool, from + 1)
    ensures InOrder(RemoveAt(pool, i), from) == InOrder(pool, from)
  {
    FindSkipsRemoved(pool, i, from);
    InOrderSameHead(RemoveAt(pool, i), pool, from);
  }

  /**
   * Two pools whose first packets carrying `from` agree, and whose orders from
   * `from + 1` agree, have the same order from `from`.
   */
  lemma InOrderSameHead<T>(p: seq<Packet<T>>, q: seq<Packet<T>>, from: nat)
    requires Find(p, from).None? <==> Find(q, from).None?
    requires Find(q, from).Some? ==> p[Find(p, from).value] == q[Find(q, from).value]
    requires Continues(q, from) ==> InOrder(p, from + 1) == InOrder(q, from + 1)
    ensures InOrder(p, from) == InOrder(q, from)
  {
  }

  /**
   * `InOrder` over packets carrying exactly the indices `from..n-1`, once
   * each, none a failure sentinel: one value per index, in index order,
   * then the end.
   */
  lemma InOrderOfRange<T>(pool: seq<Packet<T>>, from: nat, n: nat)
    requires from <= n && Unique(pool) && CarriesExactly(pool, from, n)
    requires forall j :: 0 <= j < |pool| ==> pool[j].data.Some?
    ensures |InOrder(pool, from)| == n - from + 1
    ensures InOrder(pool, from)[n - from] == Done
    ensures forall j :: 0 <= j < |pool| ==> InOrder(pool, from)[pool[j].idx - from] == Emit(pool[j].data)
  {
    InOrderLength(pool, from, n);
    forall j | 0 <= j < |pool| ensures InOrder(pool, from)[pool[j].idx - from] == Emit(pool[j].data) {
      InOrderAt(pool, from, n, j);
    }
  }

  /** The length part of `InOrderOfRange`: with every index `from..n-1` present, `n - from` values, then the end. */
  lemma {:induction false} InOrderLength<T>(pool: seq<Packet<T>>, from: nat, n: nat)
    requires from <= n && (forall j :: 0 <= j < |pool| ==> pool[j].idx < n)
    requires forall k :: from <= k < n ==> Carries(pool, k)
    requires forall j :: 0 <= j < |pool| ==> pool[j].data.Some?
    ensures |InOrder(pool, from)| == n - from + 1
    ensures InOrder(pool, from)[n - from] == Done
    decreases n - from
  {
    if from < n {
      assert Carries(pool, from);
      InOrderLength(pool, from + 1, n);
    } else {
      assert Find(pool, from).None?;
    }
  }

  /** The position part of `InOrderOfRange`: the packet carrying index `k` supplies the `(k - from)`-th value. */
  lemma {:induction false} InOrderAt<T>(pool: seq<Packet<T>>, from: nat, n: nat, j: nat)
    requires Unique(pool) && j < |pool| && from <= pool[j].idx < n
    requires forall k :: from <= k < n ==> Carries(pool, k)
    requires forall j :: 0 <= j < |pool| ==> pool[j].data.Some?
    ensures pool[j].idx - from < |InOrder(pool, from)|
    ensures InOrder(pool, from)[pool[j].idx - from] == Emit(pool[j].data)
    decreases pool[j].idx - from
  {
    assert Carries(pool, from);
    var i := Find(pool, from).value;
    if pool[j].idx == from {
      UniqueAt(pool, i, j);
    } else {
      InOrderAt(pool, from + 1, n, j);
    }
  }

  /**
   * `InOrder` over packets carrying every index `from..m`, where the ones
   * carrying `m` are failure sentinels and none before is: it panics at
   * position `m - from`, yielding nothing at or after `m`.
   */
  lemma {:induction false} InOrderStopsAtSentinel<T>(pool: seq<Packet<T>>, from: nat, m: nat)
    requires from <= m && (forall k :: from <= k <= m ==> Carries(pool, k))
    requires forall j :: 0 <= j < |pool| && pool[j].idx < m ==> pool[j].data.Some?
    requires forall j :: 0 <= j < |pool| && pool[j].idx == m ==> pool[j].data.None?
    ensures |InOrder(pool, from)| == m - from + 1
    ensures InOrder(pool, from)[m - from] == Panic
    decreases m - from
  {
    assert Carries(pool, from);
    if from < m {
      InOrderStopsAtSentinel(pool, from + 1, m);
    }
  }

  /**
   * The end of the iteration where a packet never arrives: if the packets
   * carry every index below `m` once each, none a sentinel, and none carries
   * `m`, then `map` yields `m` values, the payloads of the packets carrying
   * `0..m-1` in index order, and then `None`. This is what a panic of the
   * closure at element `m` looks like to the consumer.
   */
  lemma MapEndsAtMissingIndex<T>(rx: seq<Packet<T>>, m: nat)
    requires Unique(rx) && (forall k :: 0 <= k < m ==> Carries(rx, k)) && !Carries(rx, m)
    requires forall j :: 0 <= j < |rx| ==> rx[j].data.Some?
    ensures |Collect(Start(rx))| == m + 1
    ensures Collect(Start(rx))[m] == Done
    ensures forall k :: 0 <= k < m ==>
      Collect(Start(rx))[k].Yield? && IsPayloadOf(rx, k, Collect(Start(rx))[k])
  {
    CollectEndsAtGap(rx, m);
    CollectValuesBelow(rx, m);
  }

  /** The length and the end of `MapEndsAtMissingIndex`. */
  lemma CollectEndsAtGap<T>(rx: seq<Packet<T>>, m: nat)
    requires Unique(rx) && (forall k :: 0 <= k < m ==> Carries(rx, k)) && !Carries(rx, m)
    requires forall j :: 0 <= j < |rx| ==> rx[j].data.Some?
    ensures |Collect(Start(rx))| == m + 1
    ensures Collect(Start(rx))[m] == Done
  {
    CollectIsInOrder(Start(rx));
    InOrderEndsAtGap(rx, 0, m);
  }

  /** The values `map` yields before position `m` are the payloads of the packets carrying `0..m-1`. */
  lemma CollectValuesBelow<T>(rx: seq<Packet<T>>, m: nat)
    requires forall j :: 0 <= j < |rx| ==> rx[j].data.Some?
    requires |Collect(Start(rx))| == m + 1
    ensures forall k :: 0 <= k < m ==>
      Collect(Start(rx))[k].Yield? && IsPayloadOf(rx, k, Collect(Start(rx))[k])
  {
    CollectShape(Start(rx));
    CollectComesFromPackets(Start(rx));
    ValuesFromPackets(rx, m, Collect(Start(rx)));
  }

  /** `x` is the value of the payload of some packet in `rx` carrying index `k`. */
  ghost predicate IsPayloadOf<T>(rx: seq<Packet<T>>, k: nat, x: Item<T>)
  {
    exists j :: 0 <= j < |rx| && rx[j].idx == k && rx[j].data.Some? && x == Yield(rx[j].data.value)
  }

  /** Values at `0..m-1`, each supplied by a packet carrying its position, are those packets' payloads. */
  lemma ValuesFromPackets<T>(rx: seq<Packet<T>>, m: nat, items: seq<Item<T>>)
    requires m < |items| && forall k :: 0 <= k < m ==> items[k].Yield?
    requires forall j :: 0 <= j < |rx| ==> rx[j].data.Some?
    requires forall k :: 0 <= k < |items| && items[k].Yield? ==>
      exists i :: 0 <= i < |rx| && rx[i].idx == 0 + k && rx[i].data == Some(items[k].value)
    ensures forall k :: 0 <= k < m ==> items[k].Yield? && IsPayloadOf(rx, k, items[k])
  {
    forall k | 0 <= k < m
      ensures items[k].Yield? && IsPayloadOf(rx, k, items[k])
    {
      assert items[k].Yield?;
      var j :| 0 <= j < |rx| && rx[j].idx == 0 + k && rx[j].data == Some(items[k].value);
      assert items[k] == Yield(rx[j].data.value);
    }
  }

  /** `InOrder` runs from `from` up to the first index `m` no packet carries, and ends there. */
  lemma {:induction false} InOrderEndsAtGap<T>(pool: seq<Packet<T>>, from: nat, m: nat)
    requires from <= m && (forall k :: from <= k < m ==> Carries(pool, k)) && !Carries(pool, m)
    requires forall j :: 0 <= j < |pool| ==> pool[j].data.Some?
    ensures |InOrder(pool, from)| == m - from + 1
    ensures InOrder(pool, from)[m - from] == Done
    decreases m - from
  {
    if from < m {
      assert Carries(pool, from);
      InOrderEndsAtGap(pool, from + 1, m);
    } else {
      assert Find(pool, from).None?;
    }
  }

  /**
   * A failure sentinel is never yielded by `map`: if index `m` carries
   * one, the iterator yields exactly `m` values and then panics.
   */
  lemma MapPanicsAtSentinel<T>(rx: seq<Packet<T>>, m: nat, n: nat)
    requires m < n && Unique(rx) && CarriesExactly(rx, 0, n)
    requires forall j :: 0 <= j < |rx| && rx[j].idx < m ==> rx[j].data.Some?
    requires forall j :: 0 <= j < |rx| && rx[j].idx == m ==> rx[j].data.None?
    ensures |Collect(Start(rx))| == m + 1
    ensures Collect(Start(rx))[m] == Panic
    ensures forall k :: 0 <= k < m ==> Collect(Start(rx))[k].Yield?
  {
    CollectIsInOrder(Start(rx));
    CollectShape(Start(rx));
    InOrderStopsAtSentinel(rx, 0, m);
  }

  /**
   * The central property of `map`: if the unordered channel delivers each
   * index `0..n-1` exactly once, in any order, then `next` yields the
   * payloads in index order and then `None`.
   */
  lemma MapYieldsInIndexOrder<T>(rx: seq<Packet<T>>, n: nat)
    requires Unique(rx) && CarriesExactly(rx, 0, n)
    requires forall j :: 0 <= j < |rx| ==> rx[j].data.Some?
    ensures |Collect(Start(rx))| == n + 1
    ensures Collect(Start(rx))[n] == Done
    ensures forall j :: 0 <= j < |rx| ==> Collect(Start(rx))[rx[j].idx] == Yield(rx[j].data.value)
  {
    CollectIsInOrder(Start(rx));
    InOrderOfRange(rx, 0, n);
  }

  /**
   * `map(iter, f)` agrees with the sequential `iter.map(f)`: when the
   * workers' packets carry `f` of the element at their index, for every
   * index once, the iterator yields `f(elems[0]), f(elems[1]), ...` and
   * then `None`, whatever order the packets arrived in.
   */
  lemma MapAgreesWithSequentialMap<E, R>(elems: seq<E>, f: E -> R, rx: seq<Packet<R>>)
    requires Unique(rx) && CarriesExactly(rx, 0, |elems|)
    requires forall j :: 0 <= j < |rx| ==> rx[j].idx < |elems| && rx[j].data == Some(f(elems[rx[j].idx]))
    ensures |Collect(Start(rx))| == |elems| + 1
    ensures forall k :: 0 <= k < |elems| ==> Collect(Start(rx))[k] == Yield(f(elems[k]))
    ensures Collect(Start(rx))[|elems|] == Done
  {
    MapYieldsInIndexOrder(rx, |elems|);
    forall k | 0 <= k < |elems| ensures Collect(Start(rx))[k] == Yield(f(elems[k])) {
      assert Carries(rx, k);
      var j :| 0 <= j < |rx| && rx[j].idx == k;
    }
  }

  /**
   * The documented example `pool.map(0..8, &|i| i + 10)` collects to
   * `[10, 11, ..., 17]`, for every arrival order of the eight packets.
   */
  lemma MapDocExample(rx: seq<Packet<int>>)
    requires Unique(rx) && CarriesExactly(rx, 0, 8)
    requires forall j :: 0 <= j < |rx| ==> rx[j].data == Some(rx[j].idx + 10)
    ensures Collect(Start(rx)) ==
      [Yield(10), Yield(11), Yield(12), Yield(13), Yield(14), Yield(15), Yield(16), Yield(17), Done]
  {
    var elems := [0, 1, 2, 3, 4, 5, 6, 7];
    var f := (x: int) => x + 10;
    MapAgreesWithSequentialMap(elems, f, rx);
  }

  /**
   * `UnorderedParMap`: relays the packets of the results channel in
   * arrival order. `_guard`, the `JobHandle`, is modelled in module
   * `Supervisor`.
   */
  class UnorderedParMap<T> {
    const rx: Receiver<Packet<T>>

    constructor (rx: Receiver<Packet<T>>)
      ensures this.rx == rx
    {
      this.rx := rx;
    }

    /**
     * `UnorderedParMap::next` (src/pool.rs:499-507): the next packet's
     * index and payload; a panic on a failure sentinel; `None` exactly when
     * the channel is closed.
     */
    method Next() returns (r: Item<(nat, T)>)
      modifies rx
      ensures old(rx.pending) == [] <==> r == Done
      ensures old(rx.pending) == [] ==> rx.pending == []
      ensures old(rx.pending) != [] ==>
        var p := old(rx.pending)[0];
        rx.pending == old(rx.pending)[1..] &&
        r == (if p.data.Some? then Yield((p.idx, p.data.value)) else Panic)
    {
      var m := rx.Recv();
      match m
      case None =>
        r := Done;
      case Some(p) =>
        match p.data
        case Some(x) => r := Yield((p.idx, x));
        case None => r := Panic;
    }
  }

  /** `ParMap`: the unordered iterator, the cursor and the heap. */
  class ParMap<T> {
    const unordered: UnorderedParMap<T>
    var lookingFor: nat
    var queue: seq<Packet<T>>

    /** The value this object stands for. */
    ghost function State(): MapState<T>
      reads this, unordered.rx
    {
      MapState(unordered.rx.pending, queue, lookingFor)
    }

    /** The `ParMap` built by `Pool::map` (src/pool.rs:395-399). */
    constructor (unordered: UnorderedParMap<T>)
      ensures this.unordered == unordered
      ensures State() == Start(unordered.rx.pending)
    {
      this.unordered := unordered;
      lookingFor := 0;
      queue := [];
    }

    /**
     * A consumer calling `next` until the iterator ends or panics, as
     * `.collect()` does (src/pool.rs:384): everything it sees is `Collect`
     * of the state it started from.
     */
    method Drain() returns (items: seq<Item<T>>)
      modifies this, unordered.rx
      ensures items == Collect(old(State()))
    {
      ghost var start := State();
      items := [];
      while true
        invariant items + Collect(State()) == Collect(start)
        decreases |Unpopped(State())|
      {
        ghost var before := State();
        var r := Next();
        ghost var after := State();
        CollectAfterNext(before, r, after);
        if !r.Yield? {
          AppendLast(items, r, Collect(before), Collect(start));
          return items + [r];
        }
        AppendNext(items, r, Collect(after), Collect(before), Collect(start));
        items := items + [r];
      }
    }

    /** `ParMap::next` (src/pool.rs:521-542), looping over the heap and the channel. */
    method Next() returns (r: Item<T>)
      modifies this, unordered.rx
      ensures Outcome(r, State()) == Step(old(State()))
    {
      while true
        invariant Step(State()) == Step(old(State()))
        decreases |unordered.rx.pending|
      {
        var top := Peek(queue);
        if top.Some? && top.value.idx == lookingFor {
          var packet := top.value;
          queue := Pop(queue);
          lookingFor := lookingFor + 1;
          match packet.data
          case Some(x) => return Yield(x);
          case None => return Panic;
        }
        var m := unordered.rx.Recv();
        match m
        case Some(packet) =>
          queue := Push(queue, packet);
        case None =>
          return Done;
      }
    }
  }
}
