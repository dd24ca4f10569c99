/** The event emitter the cells and table items notify through, reduced to its
    registry: per channel name, the listeners in the order they subscribed, each
    persistent (`on`) or one-shot (`on_next`). A ghost log records every emit with
    the listeners it called. Listener callbacks are identified by number; what they
    do when called is not modelled. */
module Events {
  import opened Wrappers

  datatype Listener = Listener(callback: nat, once: bool)

  type Registry = map<string, seq<Listener>>

  /** One emit: the channel, its payload, and the listeners called, in order. */
  datatype Delivery = Delivery(channel: string, payload: Option<nat>, called: seq<Listener>)

  function Listeners(reg: Registry, channel: string): seq<Listener> {
    if channel in reg then reg[channel] else []
  }

  /** The persistent listeners of `ls`, in their order. */
  function Persistent(ls: seq<Listener>): (r: seq<Listener>)
    ensures |r| <= |ls|
    ensures forall l :: l in r <==> l in ls && !l.once
  {
    if ls == [] then []
    else if ls[0].once then Persistent(ls[1..])
    else [ls[0]] + Persistent(ls[1..])
  }

  /** A listener is kept as often as it was subscribed persistently, and never when
      it was subscribed one-shot. */
  lemma {:induction false} PersistentCount(ls: seq<Listener>, l: Listener)
    ensures multiset(Persistent(ls))[l] == if l.once then 0 else multiset(ls)[l]
  {
    if ls != [] {
      PersistentCount(ls[1..], l);
      assert ls == [ls[0]] + ls[1..];
    }
  }

  /** Dropping one-shot listeners twice is dropping them once. */
  lemma {:induction false} PersistentIdempotent(ls: seq<Listener>)
    ensures Persistent(Persistent(ls)) == Persistent(ls)
  {
    if ls != [] {
      PersistentIdempotent(ls[1..]);
      if !ls[0].once {
        assert ([ls[0]] + Persistent(ls[1..]))[1..] == Persistent(ls[1..]);
      }
    }
  }

  /** `on` / `on_next`: append a listener to a channel. */
  function Subscribe(reg: Registry, channel: string, l: Listener): (r: Registry)
    ensures Listeners(r, channel) == Listeners(reg, channel) + [l]
    ensures forall c :: c != channel ==> Listeners(r, c) == Listeners(reg, c)
  {
    reg[channel := Listeners(reg, channel) + [l]]
  }

  /** The registry after an emit on `channel`: its one-shot listeners are gone. */
  function Fire(reg: Registry, channel: string): (r: Registry)
    ensures Listeners(r, channel) == Persistent(Listeners(reg, channel))
    ensures forall c :: c != channel ==> Listeners(r, c) == Listeners(reg, c)
  {
    if channel in reg then reg[channel := Persistent(reg[channel])] else reg
  }

  /** `remove_all_listeners`: the channel has no listener left. */
  function RemoveAll(reg: Registry, channel: string): (r: Registry)
    ensures channel !in r && Listeners(r, channel) == []
    ensures forall c :: c != channel ==> Listeners(r, c) == Listeners(reg, c)
  {
    reg - {channel}
  }

  /** A one-shot listener is called by the next emit and by none after it; a
      persistent one is called by the next emit and stays subscribed. */
  lemma OneShotAndPersistent(reg: Registry, channel: string, l: Listener)
    requires l in Listeners(reg, channel)
    ensures l.once ==> l !in Listeners(Fire(reg, channel), channel)
    ensures !l.once ==> l in Listeners(Fire(reg, channel), channel)
    ensures Fire(Fire(reg, channel), channel) == Fire(reg, channel)
  {
    PersistentIdempotent(Listeners(reg, channel));
    if channel in reg {
      assert Fire(Fire(reg, channel), channel) == reg[channel := Persistent(Persistent(reg[channel]))];
    }
  }

  /** After `remove_all_listeners`, an emit on that channel calls nobody. */
  lemma NothingAfterRemoveAll(reg: Registry, channel: string)
    ensures Listeners(RemoveAll(reg, channel), channel) == []
    ensures Fire(RemoveAll(reg, channel), channel) == RemoveAll(reg, channel)
  {
  }

  class Emitter {
    var registry: Registry
    ghost var log: seq<Delivery>

    constructor ()
      ensures registry == map[] && log == []
    {
      registry := map[];
      log := [];
    }

    /** `on`: subscribe persistently. */
    method On(channel: string, callback: nat)
      modifies this
      ensures registry == Subscribe(old(registry), channel, Listener(callback, false))
      ensures log == old(log)
    {
      registry := Subscribe(registry, channel, Listener(callback, false));
    }

    /** `on_next`: subscribe for the next emit only. */
    method OnNext(channel: string, callback: nat)
      modifies this
      ensures registry == Subscribe(old(registry), channel, Listener(callback, true))
      ensures log == old(log)
    {
      registry := Subscribe(registry, channel, Listener(callback, true));
    }

    /** `emit`: call every listener of the channel once, in order, then drop the
      one-shot ones. */
    method Emit(channel: string, payload: Option<nat>)
      modifies this
      ensures registry == Fire(old(registry), channel)
      ensures log == old(log) + [Delivery(channel, payload, Listeners(old(registry), channel))]
    {
      log := log + [Delivery(channel, payload, Listeners(registry, channel))];
      registry := Fire(registry, channel);
    }

    /** `remove_all_listeners`. */
    method RemoveAllListeners(channel: string)
      modifies this
      ensures registry == RemoveAll(old(registry), channel)
      ensures log == old(log)
    {
      registry := RemoveAll(registry, channel);
    }
  }
}
