/**
 The enqueue path and the fan-out as one thread runs them.  `Broadcast` covers their interleavings;
 here each call is proved against what it returns and what it leaves behind.
 */
module FanOut {
  import opened Broadcast

  /** A shared `AtomicUsize`. */
  class AtomicCounter {
    var value: int

    constructor ()
      ensures value == 0
    {
      value := 0;
    }
  }

  /** One subscriber's queue, its receiver's liveness and its byte counter; one sink per connection. */
  class SubscriberSink {
    const owner: nat
    var bytes: int
    var queue: seq<Message>
    var alive: bool

    constructor (client: nat)
      ensures owner == client && bytes == 0 && queue == [] && alive
    {
      owner := client;
      bytes, queue, alive := 0, [], true;
    }

    /** Counts, sends, and on a dead receiver restores both counters. */
    method SendAccounted(m: Message, global: AtomicCounter) returns (newClient: int, newTotal: int, ok: bool)
      modifies this`bytes, this`queue, global
      ensures ok == alive
      ensures ok ==> && newClient == bytes == old(bytes) + m.size
                     && newTotal == global.value == old(global.value) + m.size
                     && queue == old(queue) + [m]
      ensures !ok ==> bytes == old(bytes) && global.value == old(global.value) && queue == old(queue)
    {
      global.value := global.value + m.size;
      newTotal := global.value;
      bytes := bytes + m.size;
      newClient := bytes;
      if alive {
        queue := queue + [m];
        ok := true;
      } else {
        bytes := bytes - m.size;
        global.value := global.value - m.size;
        ok := false;
      }
    }

    /** The message is queued whenever the receiver is alive, whatever the limits say. */
    method Enqueue(m: Message, limits: LagLimits, global: AtomicCounter) returns (outcome: Outcome)
      modifies this`bytes, this`queue, global
      ensures outcome == Disconnected <==> !alive
      ensures alive ==> && queue == old(queue) + [m]
                        && bytes == old(bytes) + m.size
                        && global.value == old(global.value) + m.size
      ensures !alive ==> bytes == old(bytes) && global.value == old(global.value) && queue == old(queue)
      ensures outcome == ClientOverLag <==> alive && bytes > limits.perClientCap
      ensures outcome == GlobalOverBudget <==>
                alive && bytes <= limits.perClientCap && global.value > limits.globalBudget
    {
      var newClient, newTotal, ok := SendAccounted(m, global);
      if !ok {
        outcome := Disconnected;
      } else if newClient > limits.perClientCap {
        outcome := ClientOverLag;
      } else if newTotal > limits.globalBudget {
        outcome := GlobalOverBudget;
      } else {
        outcome := Delivered;
      }
    }

    method SendUnchecked(m: Message, global: AtomicCounter) returns (ok: bool)
      modifies this`bytes, this`queue, global
      ensures ok == alive
      ensures queue == if ok then old(queue) + [m] else old(queue)
      ensures bytes == old(bytes) + (if ok then m.size else 0)
      ensures global.value == old(global.value) + (if ok then m.size else 0)
    {
      var _, _, sent := SendAccounted(m, global);
      ok := sent;
    }
  }

  // ----- The fan-out, over values -----

  datatype SinkView = SinkView(owner: nat, alive: bool, bytes: int, queue: seq<Message>)

  datatype FanResult = FanResult(sinks: seq<SinkView>, total: int, kept: seq<nat>, evict: seq<nat>, largest: bool)

  predicate Receives(v: SinkView, skip: set<nat>) { v.owner !in skip && v.alive }

  /** The sink after the fan-out has passed it. */
  function Fed(v: SinkView, m: Message, skip: set<nat>): SinkView {
    if Receives(v, skip) then v.(bytes := v.bytes + m.size, queue := v.queue + [m]) else v
  }

  /** What visiting one more subscriber adds to the results so far. */
  function Visited(r: FanResult, v: SinkView, m: Message, limits: LagLimits, skip: set<nat>): FanResult {
    var fed := Fed(v, m, skip);
    if v.owner in skip then r.(sinks := r.sinks + [fed], kept := r.kept + [v.owner])
    else if !v.alive then r.(sinks := r.sinks + [fed])
    else
      var total := r.total + m.size;
      var over := fed.bytes > limits.perClientCap;
      FanResult(r.sinks + [fed], total, r.kept + [v.owner],
                if over then r.evict + [v.owner] else r.evict,
                r.largest || (!over && total > limits.globalBudget))
  }

  /** The fan-out over the subscribers in one of the map's iteration orders. */
  function FanOutSpec(vs: seq<SinkView>, total: int, m: Message, limits: LagLimits, skip: set<nat>): (r: FanResult)
    ensures |r.sinks| == |vs|
  {
    if vs == [] then FanResult([], total, [], [], false)
    else Visited(FanOutSpec(vs[..|vs| - 1], total, m, limits, skip), vs[|vs| - 1], m, limits, skip)
  }

  /** How many of `vs` a fan-out delivers to. */
  function Receivers(vs: seq<SinkView>, skip: set<nat>): nat {
    if vs == [] then 0
    else Receivers(vs[..|vs| - 1], skip) + if Receives(vs[|vs| - 1], skip) then 1 else 0
  }

  /** A map has each key once. */
  predicate Enumeration(vs: seq<SinkView>) {
    forall i, j :: 0 <= i < j < |vs| ==> vs[i].owner != vs[j].owner
  }

  predicate Names(vs: seq<SinkView>, id: nat) {
    exists i :: 0 <= i < |vs| && vs[i].owner == id
  }

  predicate NoDuplicates(s: seq<nat>) {
    forall i, j :: 0 <= i < j < |s| ==> s[i] != s[j]
  }

  /** Every live subscriber that is not skipped gets the message and its bytes; no other changes. */
  lemma {:induction false} FanOutDeliversToAll(vs: seq<SinkView>, total: int, m: Message, limits: LagLimits,
                                               skip: set<nat>)
    ensures var r := FanOutSpec(vs, total, m, limits, skip);
            && (forall i :: 0 <= i < |vs| ==> r.sinks[i] == Fed(vs[i], m, skip))
            && r.total == total + Receivers(vs, skip) * m.size
  {
    if vs != [] {
      var before := vs[..|vs| - 1];
      FanOutDeliversToAll(before, total, m, limits, skip);
      OneMoreReceiver(Receivers(before, skip), m.size);
    }
  }

  lemma OneMoreReceiver(k: nat, size: nat)
    ensures (k + 1) * size == k * size + size
  {}

  /** The map keeps the skipped and the live, and drops the dead. */
  lemma {:induction false} FanOutDropsTheDead(vs: seq<SinkView>, total: int, m: Message, limits: LagLimits,
                                              skip: set<nat>)
    requires Enumeration(vs)
    ensures var r := FanOutSpec(vs, total, m, limits, skip);
            && (forall i :: 0 <= i < |vs| ==> (vs[i].owner in r.kept <==> vs[i].owner in skip || vs[i].alive))
            && (forall id :: id in r.kept ==> Names(vs, id))
  {
    if vs != [] {
      var n := |vs| - 1;
      var before := vs[..n];
      FanOutDropsTheDead(before, total, m, limits, skip);
      NamesAnEarlierOwner(vs, FanOutSpec(before, total, m, limits, skip).kept);
      assert Names(vs, vs[n].owner);
    }
  }

  /** Ids drawn from all sinks but the last exclude the last sink's id and are owners of the whole. */
  lemma NamesAnEarlierOwner(vs: seq<SinkView>, ids: seq<nat>)
    requires vs != [] && Enumeration(vs)
    requires forall id :: id in ids ==> Names(vs[..|vs| - 1], id)
    ensures vs[|vs| - 1].owner !in ids
    ensures forall id :: id in ids ==> Names(vs, id)
  {
    var n := |vs| - 1;
    forall id | id in ids
      ensures id != vs[n].owner && Names(vs, id)
    {
      var i :| 0 <= i < n && vs[..n][i].owner == id;
      assert vs[i].owner == id;
    }
  }

  /** The evict list names, once each, exactly the delivered-to clients now above their cap. */
  lemma {:induction false} EvictListIsExact(vs: seq<SinkView>, total: int, m: Message, limits: LagLimits,
                                            skip: set<nat>)
    requires Enumeration(vs)
    ensures var r := FanOutSpec(vs, total, m, limits, skip);
            && NoDuplicates(r.evict)
            && (forall i :: 0 <= i < |vs| ==>
                  (vs[i].owner in r.evict <==> Receives(vs[i], skip) && r.sinks[i].bytes > limits.perClientCap))
            && (forall id :: id in r.evict ==> Names(vs, id))
  {
    if vs != [] {
      var n := |vs| - 1;
      EvictListIsExact(vs[..n], total, m, limits, skip);
      NamesAnEarlierOwner(vs, FanOutSpec(vs[..n], total, m, limits, skip).evict);
      assert Names(vs, vs[n].owner);
    }
  }

  /**
   Ending above the global budget is never silent: a fan-out that delivered to someone and leaves the
   total above the budget names a client to evict or asks for the largest, whatever the order; and
   it asks for the largest only when the total does end above the budget.
   */
  lemma {:induction false} OverBudgetIsNeverSilent(vs: seq<SinkView>, total: int, m: Message, limits: LagLimits,
                                                   skip: set<nat>)
    ensures var r := FanOutSpec(vs, total, m, limits, skip);
            && (Receivers(vs, skip) > 0 && r.total > limits.globalBudget ==> r.evict != [] || r.largest)
            && (r.largest ==> r.total > limits.globalBudget)
  {
    if vs != [] {
      OverBudgetIsNeverSilent(vs[..|vs| - 1], total, m, limits, skip);
    }
  }

  /** Delivering to `vs[i]` left that client within its cap and the total above the budget. */
  predicate TipsBudget(vs: seq<SinkView>, i: nat, total: int, m: Message, limits: LagLimits, skip: set<nat>) {
    && i < |vs| && Receives(vs[i], skip)
    && vs[i].bytes + m.size <= limits.perClientCap
    && total + Receivers(vs[..i + 1], skip) * m.size > limits.globalBudget
  }

  lemma TipsInPrefix(vs: seq<SinkView>, n: nat, i: nat, total: int, m: Message, limits: LagLimits, skip: set<nat>)
    requires i < n <= |vs|
    ensures TipsBudget(vs[..n], i, total, m, limits, skip) <==> TipsBudget(vs, i, total, m, limits, skip)
  {
    assert vs[..n][..i + 1] == vs[..i + 1];
  }

  /**
   The largest client is asked for exactly when some delivery within its own cap left the running total
   above the budget.
   */
  lemma {:induction false} LargestIsExact(vs: seq<SinkView>, total: int, m: Message, limits: LagLimits,
                                          skip: set<nat>)
    ensures FanOutSpec(vs, total, m, limits, skip).largest
            <==> exists i: nat :: TipsBudget(vs, i, total, m, limits, skip)
  {
    if vs != [] {
      var n := |vs| - 1;
      LargestIsExact(vs[..n], total, m, limits, skip);
      FanOutDeliversToAll(vs, total, m, limits, skip);
      assert vs[..n + 1] == vs;
      if i: nat :| TipsBudget(vs[..n], i, total, m, limits, skip) {
        TipsInPrefix(vs, n, i, total, m, limits, skip);
      }
      if i: nat :| TipsBudget(vs, i, total, m, limits, skip) {
        if i < n { TipsInPrefix(vs, n, i, total, m, limits, skip); }
      }
      assert TipsBudget(vs, n, total, m, limits, skip) <==>
             Receives(vs[n], skip) && vs[n].bytes + m.size <= limits.perClientCap
             && FanOutSpec(vs, total, m, limits, skip).total > limits.globalBudget;
    }
  }

  // ----- The fan-out, as the daemon runs it -----

  function View(sink: SubscriberSink): SinkView
    reads sink
  {
    SinkView(sink.owner, sink.alive, sink.bytes, sink.queue)
  }

  function Views(subs: seq<SubscriberSink>): (vs: seq<SinkView>)
    reads subs
    ensures |vs| == |subs| && forall i :: 0 <= i < |subs| ==> vs[i] == View(subs[i])
  {
    if subs == [] then [] else Views(subs[..|subs| - 1]) + [View(subs[|subs| - 1])]
  }

  /** What the `retain` closure does for one subscriber, given the results so far. */
  method Visit(sink: SubscriberSink, m: Message, limits: LagLimits, global: AtomicCounter, skip: set<nat>,
               ghost r: FanResult, kept: seq<nat>, evict: seq<nat>, evictLargest: bool)
    returns (kept': seq<nat>, evict': seq<nat>, evictLargest': bool)
    requires r.total == global.value && r.kept == kept && r.evict == evict && r.largest == evictLargest
    modifies sink, global
    ensures FanResult(r.sinks + [View(sink)], global.value, kept', evict', evictLargest')
            == Visited(r, old(View(sink)), m, limits, skip)
  {
    kept', evict', evictLargest' := kept, evict, evictLargest;
    if sink.owner in skip {
      kept' := kept + [sink.owner];
    } else {
      var outcome := sink.Enqueue(m, limits, global);
      match outcome
      case Delivered => kept' := kept + [sink.owner];
      case Disconnected =>
      case ClientOverLag => kept', evict' := kept + [sink.owner], evict + [sink.owner];
      case GlobalOverBudget => kept', evictLargest' := kept + [sink.owner], true;
    }
  }

  lemma OneMore(vs: seq<SinkView>, k: nat, total: int, m: Message, limits: LagLimits, skip: set<nat>)
    requires k < |vs|
    ensures FanOutSpec(vs[..k + 1], total, m, limits, skip)
            == Visited(FanOutSpec(vs[..k], total, m, limits, skip), vs[k], m, limits, skip)
    ensures |Visited(FanOutSpec(vs[..k], total, m, limits, skip), vs[k], m, limits, skip).sinks| == k + 1
  {
    assert vs[..k + 1][..k] == vs[..k];
  }

  method FanOutEvicting(subs: seq<SubscriberSink>, m: Message, limits: LagLimits, global: AtomicCounter, skip: set<nat>)
    returns (kept: seq<nat>, evict: seq<nat>, evictLargest: bool)
    requires forall i, j :: 0 <= i < j < |subs| ==> subs[i] != subs[j]
    modifies subs, global
    ensures FanResult(Views(subs), global.value, kept, evict, evictLargest)
            == FanOutSpec(old(Views(subs)), old(global.value), m, limits, skip)
  {
    kept, evict, evictLargest := [], [], false;
    ghost var vs := Views(subs);
    ghost var r := FanOutSpec([], global.value, m, limits, skip);
    for k := 0 to |subs|
      invariant r == FanOutSpec(vs[..k], old(global.value), m, limits, skip)
      invariant forall i :: 0 <= i < k ==> View(subs[i]) == r.sinks[i]
      invariant r.total == global.value && r.kept == kept && r.evict == evict && r.largest == evictLargest
      invariant forall i :: k <= i < |subs| ==> View(subs[i]) == vs[i]
    {
      kept, evict, evictLargest := Visit(subs[k], m, limits, global, skip, r, kept, evict, evictLargest);
      OneMore(vs, k, old(global.value), m, limits, skip);
      r := Visited(r, vs[k], m, limits, skip);
    }
    assert vs[..|subs|] == vs;
  }
}
