/** How provider instructions come into being on the agent, over two paths, and how they are enforced. */
module Provisioning {
  import opened Quantities
  import opened Collector

  /** A reservation as the broker delivers it. */
  datatype Delivery = Delivery(id: string, reserved: bool, expiresAt: Option<int>, cpu: Field, memory: Field)

  datatype Key = Key(namespace: string, name: string)

  datatype Stored = Stored(reservation: string, body: ProviderInstruction)

  type Store = map<Key, Stored>

  function NameOf(id: string): string {
    id + "-provider"
  }

  lemma NamesAreUnique(a: string, b: string)
    requires NameOf(a) == NameOf(b)
    ensures a == b
  {
    assert a == NameOf(a)[..|NameOf(a)| - 9] && b == NameOf(b)[..|NameOf(b)| - 9];
  }

  // ----- creation

  function Fresh(d: Delivery): Stored {
    Stored(d.id, ProviderInstruction(false, d.expiresAt, d.cpu, d.memory))
  }

  /** One delivery, processed in a namespace; the store may refuse to create the object. */
  function Receive(store: Store, namespace: string, d: Delivery, refused: bool): Store {
    var key := Key(namespace, NameOf(d.id));
    if !d.reserved || key in store || refused then store else store[key := Fresh(d)]
  }

  function ReceiveAll(store: Store, namespace: string, ds: seq<Delivery>, refused: set<nat>): Store {
    if |ds| == 0 then store
    else
      var n := |ds| - 1;
      Receive(ReceiveAll(store, namespace, ds[..n], refused), namespace, ds[n], n in refused)
  }

  // ----- enforcement

  /** What a reconcile of one instruction does to it. */
  function Enforced(p: ProviderInstruction, now: int, wired: bool, uploaded: bool): ProviderInstruction {
    if p.expiresAt.Some? && p.expiresAt.value < now then p.(enforced := false)
    else if p.enforced || (wired && !uploaded) then p
    else p.(enforced := true)
  }

  datatype Event =
    | Polled(ds: seq<Delivery>, refused: set<nat>)
    | Advertised(ds: seq<Delivery>, refused: set<nat>)
    | Reconciled(key: Key, now: int, wired: bool, uploaded: bool, written: bool)

  /** The namespaces that the two paths are configured with. */
  datatype Config = Config(poller: string, instructions: string, advertisement: string) {
    /** The advertisement path falls back to its advertisement's namespace; the poller takes what it is given. */
    function Fallback(): string {
      if instructions == "" then advertisement else instructions
    }
  }

  function Step(c: Config, store: Store, e: Event): Store {
    match e
    case Polled(ds, refused) => ReceiveAll(store, c.poller, ds, refused)
    case Advertised(ds, refused) => ReceiveAll(store, c.Fallback(), ds, refused)
    case Reconciled(key, now, wired, uploaded, written) =>
      if key !in store || !written then store
      else store[key := store[key].(body := Enforced(store[key].body, now, wired, uploaded))]
  }

  class ProviderAgent {
    var store: Store
    const config: Config

    constructor (config: Config)
      ensures this.config == config && store == map[]
    {
      this.config, store := config, map[];
    }

    /** The poller's loop; `missed` are the reads that do not see an existing object. */
    method ProcessInstructions(ds: seq<Delivery>, missed: set<nat>, refused: set<nat>)
      modifies this
      ensures store == Step(config, old(store), Polled(ds, refused))
    {
      for k := 0 to |ds|
        invariant store == ReceiveAll(old(store), config.poller, ds[..k], refused)
      {
        assert ds[..k + 1][..k] == ds[..k];
        if !ds[k].reserved {
          continue;
        }
        var key := Key(config.poller, NameOf(ds[k].id));
        if key in store && k !in missed {
          continue;
        }
        var created := Create(key, Fresh(ds[k]), k in refused);
      }
      assert ds[..|ds|] == ds;
    }

    /** The loop over the deliveries in an advertisement's response. */
    method ProcessProviderInstructions(ds: seq<Delivery>, missed: set<nat>, refused: set<nat>)
      modifies this
      ensures store == Step(config, old(store), Advertised(ds, refused))
    {
      for k := 0 to |ds|
        invariant store == ReceiveAll(old(store), config.Fallback(), ds[..k], refused)
      {
        assert ds[..k + 1][..k] == ds[..k];
        if !ds[k].reserved {
          continue;
        }
        var namespace := config.instructions;
        if namespace == "" {
          namespace := config.advertisement;
        }
        var key := Key(namespace, NameOf(ds[k].id));
        if key in store && k !in missed {
          continue;
        }
        var created := Create(key, Fresh(ds[k]), k in refused);
      }
      assert ds[..|ds|] == ds;
    }

    /** The store creates an object only under a free name. */
    method Create(key: Key, made: Stored, refused: bool) returns (ok: bool)
      modifies this
      ensures ok <==> key !in old(store) && !refused
      ensures store == if ok then old(store)[key := made] else old(store)
    {
      ok := key !in store && !refused;
      if ok {
        store := store[key := made];
      }
    }

    method ReconcileInstruction(key: Key, now: int, wired: bool, uploaded: bool, written: bool)
      modifies this
      ensures store == Step(config, old(store), Reconciled(key, now, wired, uploaded, written))
    {
      if key !in store {
        return;
      }
      var instruction := store[key];
      if instruction.body.expiresAt.Some? && instruction.body.expiresAt.value < now {
        instruction := instruction.(body := instruction.body.(enforced := false));
        if written {
          store := store[key := instruction];
        }
        return;
      }
      if instruction.body.enforced {
        return;
      }
      if wired && !uploaded {
        return;
      }
      instruction := instruction.(body := instruction.body.(enforced := true));
      if written {
        store := store[key := instruction];
      }
    }
  }

  // ----- once per reservation

  ghost predicate Once(store: Store) {
    forall k <- store, l <- store :: store[k].reservation == store[l].reservation ==> k == l
  }

  /** Every object is named after its reservation and lies in one of the two namespaces. */
  ghost predicate WellNamed(c: Config, store: Store) {
    forall k <- store :: k.name == NameOf(store[k].reservation) && k.namespace in {c.poller, c.Fallback()}
  }

  function Run(c: Config, es: seq<Event>): Store {
    if |es| == 0 then map[] else Step(c, Run(c, es[..|es| - 1]), es[|es| - 1])
  }

  lemma {:induction false} ReceivingKeepsNames(c: Config, store: Store, namespace: string, ds: seq<Delivery>,
                                               refused: set<nat>)
    requires WellNamed(c, store) && namespace in {c.poller, c.Fallback()}
    ensures WellNamed(c, ReceiveAll(store, namespace, ds, refused))
  {
    if |ds| != 0 {
      ReceivingKeepsNames(c, store, namespace, ds[..|ds| - 1], refused);
    }
  }

  lemma {:induction false} RunsAreWellNamed(c: Config, es: seq<Event>)
    ensures WellNamed(c, Run(c, es))
    decreases |es|
  {
    if |es| != 0 {
      var before, e := Run(c, es[..|es| - 1]), es[|es| - 1];
      RunsAreWellNamed(c, es[..|es| - 1]);
      match e
      case Polled(ds, refused) => ReceivingKeepsNames(c, before, c.poller, ds, refused);
      case Advertised(ds, refused) => ReceivingKeepsNames(c, before, c.Fallback(), ds, refused);
      case Reconciled(_, _, _, _, _) =>
    }
  }

  /**
   After any run, what is stored under a delivery's name belongs to that very reservation: a delivery is never blocked
   by another reservation's object, and afterwards the reservation has its own unless the store refused it.
   */
  lemma DeliveriesNeverCollide(c: Config, es: seq<Event>, namespace: string, d: Delivery, refused: bool)
    requires d.reserved && namespace in {c.poller, c.Fallback()}
    ensures var key := Key(namespace, NameOf(d.id));
            && (key in Run(c, es) ==> Run(c, es)[key].reservation == d.id)
            && (key in Receive(Run(c, es), namespace, d, refused) <==> key in Run(c, es) || !refused)
            && (key in Receive(Run(c, es), namespace, d, refused) ==>
                  Receive(Run(c, es), namespace, d, refused)[key].reservation == d.id)
  {
    var key, store := Key(namespace, NameOf(d.id)), Run(c, es);
    RunsAreWellNamed(c, es);
    if key in store {
      assert key.name == NameOf(store[key].reservation);
      NamesAreUnique(store[key].reservation, d.id);
    }
  }

  /** Whatever reconciles do, an object says what some delivery of its reservation said. */
  lemma {:induction false} ObjectsSayWhatWasDelivered(c: Config, es: seq<Event>, key: Key)
    requires key in Run(c, es)
    ensures exists d <- Delivered(es) :: Says(Run(c, es)[key], d)
    decreases |es|
  {
    var n := |es| - 1;
    var before, e := Run(c, es[..n]), es[n];
    if key in before {
      ObjectsSayWhatWasDelivered(c, es[..n], key);
      var d :| d in Delivered(es[..n]) && Says(before[key], d);
      if !e.Reconciled? {
        ReceivedOrThere(before, if e.Polled? then c.poller else c.Fallback(), e.ds, e.refused, key);
      }
      assert d in Delivered(es) && Says(Run(c, es)[key], d);
    } else {
      assert !e.Reconciled?;
      ReceivedOrThere(before, if e.Polled? then c.poller else c.Fallback(), e.ds, e.refused, key);
      var d :| d in e.ds && d.reserved && Run(c, es)[key] == Fresh(d);
      assert d in Delivered(es) && Says(Run(c, es)[key], d);
    }
  }

  /** The Reserved deliveries of a run. */
  ghost function Delivered(es: seq<Event>): set<Delivery> {
    set e, d | e in es && !e.Reconciled? && d in e.ds && d.reserved :: d
  }

  /** The object is the delivery's, with its amounts and its expiry. */
  predicate Says(stored: Stored, d: Delivery) {
    && stored.reservation == d.id && stored.body.expiresAt == d.expiresAt
    && stored.body.cpu == d.cpu && stored.body.memory == d.memory
  }

  /** Receiving keeps what is there; what is new is fresh. */
  lemma {:induction false} ReceivedOrThere(store: Store, namespace: string, ds: seq<Delivery>, refused: set<nat>,
                                           key: Key)
    requires key in ReceiveAll(store, namespace, ds, refused)
    ensures if key in store then ReceiveAll(store, namespace, ds, refused)[key] == store[key]
            else exists d <- ds :: d.reserved && ReceiveAll(store, namespace, ds, refused)[key] == Fresh(d)
  {
    if |ds| == 0 {
      assert key in store;
    } else {
      var n := |ds| - 1;
      if key in ReceiveAll(store, namespace, ds[..n], refused) {
        ReceivedOrThere(store, namespace, ds[..n], refused, key);
        assert forall d <- ds[..n] :: d in ds;
      } else {
        DeliveriesKeepObjects(store, namespace, ds[..n], refused);
        assert ds[n] in ds && key !in store;
      }
    }
  }

  /** The reconcile of this object enforces it: its credential was uploaded, or there is no broker to upload it to. */
  predicate Enforces(e: Event, key: Key) {
    e.Reconciled? && e.key == key && e.written && (e.wired ==> e.uploaded)
  }

  /** Nothing is in force without such a reconcile. */
  lemma {:induction false} EnforcedWasUploaded(c: Config, es: seq<Event>, key: Key)
    requires key in Run(c, es) && Run(c, es)[key].body.enforced
    ensures exists e <- es :: Enforces(e, key)
    decreases |es|
  {
    var n := |es| - 1;
    var before, e := Run(c, es[..n]), es[n];
    assert e in es && forall f <- es[..n] :: f in es;
    if !e.Reconciled? {
      ReceivedOrThere(before, if e.Polled? then c.poller else c.Fallback(), e.ds, e.refused, key);
    }
    if !Enforces(e, key) {
      assert key in before && before[key].body.enforced;
      EnforcedWasUploaded(c, es[..n], key);
    }
  }

  /** A reconcile that may enforce does so, as long as the object has not expired, and what is in force stays so. */
  lemma EnforcedUntilExpiry(p: ProviderInstruction, now: int, wired: bool, uploaded: bool)
    ensures Enforced(p, now, wired, uploaded).enforced
            <==> (p.enforced || (wired ==> uploaded)) && (p.expiresAt.Some? ==> now <= p.expiresAt.value)
    ensures Enforced(p, now, wired, uploaded) == p.(enforced := Enforced(p, now, wired, uploaded).enforced)
  {
  }

  const DEMAND := Delivery("r", true, None, Parsed(1), Parsed(1))

  function Both(d: Delivery): seq<Event> {
    [Polled([d], {}), Advertised([d], {})]
  }

  lemma TwoNamespacesTwoObjects(c: Config, d: Delivery)
    requires d.reserved && c.poller != c.Fallback()
    ensures Run(c, Both(d)) == map[Key(c.poller, NameOf(d.id)) := Fresh(d), Key(c.Fallback(), NameOf(d.id)) := Fresh(d)]
  {
    var es := Both(d);
    assert es[..1] == [Polled([d], {})] && es[..1][..0] == [] && [d][..0] == [];
    var polled := Run(c, es[..1]);
    assert Run(c, []) == map[] && polled == Step(c, Run(c, es[..1][..0]), es[..1][0]);
    assert polled == ReceiveAll(map[], c.poller, [d], {}) == Receive(map[], c.poller, d, false);
    assert Run(c, es) == Step(c, polled, es[1]) == ReceiveAll(polled, c.Fallback(), [d], {});
    assert ReceiveAll(polled, c.Fallback(), [d], {}) == Receive(polled, c.Fallback(), d, false);
  }

  /** However the two paths interleave, there is one object per reservation exactly if they share a namespace. */
  lemma OnceIffOneNamespace(c: Config)
    ensures (forall es :: Once(Run(c, es)))
            <==> c.poller == if c.instructions == "" then c.advertisement else c.instructions
  {
    if c.poller == c.Fallback() {
      forall es
        ensures Once(Run(c, es))
      {
        RunsAreWellNamed(c, es);
      }
    } else {
      TwoNamespacesTwoObjects(c, DEMAND);
      var k, l := Key(c.poller, NameOf("r")), Key(c.Fallback(), NameOf("r"));
      var store := Run(c, Both(DEMAND));
      assert k in store && l in store && store[k].reservation == store[l].reservation && k != l;
      assert !Once(store);
    }
  }

  // ----- what the collector adds up

  /** Some order in which the store lists its objects. */
  ghost predicate Lists(keys: seq<Key>, store: Store) {
    (forall k :: k in keys <==> k in store) && forall i, j :: 0 <= i < j < |keys| ==> keys[i] != keys[j]
  }

  function Bodies(keys: seq<Key>, store: Store): (bodies: seq<ProviderInstruction>)
    requires forall k <- keys :: k in store
    ensures |bodies| == |keys| && forall i :: 0 <= i < |keys| ==> bodies[i] == store[keys[i]].body
  {
    seq(|keys|, i requires 0 <= i < |keys| => store[keys[i]].body)
  }

  /** What one reservation holds back. */
  ghost function HeldFor(store: Store, id: string, now: int): Amount {
    if k :| k in store && store[k].reservation == id then store[k].body.HeldBack(now) else ZERO
  }

  ghost function HeldOf(store: Store, now: int): string -> Amount {
    id => HeldFor(store, id, now)
  }

  /**
   With one namespace, the collector's total over any listing is the sum over distinct reservations, each counted once.
   */
  lemma EachReservationCountsOnce(c: Config, es: seq<Event>, keys: seq<Key>, now: int) returns (ids: seq<string>)
    requires c.poller == c.Fallback() && Lists(keys, Run(c, es))
    ensures forall i, j :: 0 <= i < j < |ids| ==> ids[i] != ids[j]
    ensures forall id :: id in ids <==> exists k <- Run(c, es) :: Run(c, es)[k].reservation == id
    ensures SumOf(Bodies(keys, Run(c, es)), HeldBackAt(now)) == SumOf(ids, HeldOf(Run(c, es), now))
  {
    var store := Run(c, es);
    OnceIffOneNamespace(c);
    assert Once(store);
    hide Run, Once, SumOf, HeldFor;
    ids := seq(|keys|, i requires 0 <= i < |keys| => store[keys[i]].reservation);
    assert forall i :: 0 <= i < |keys| ==> keys[i] in keys && ids[i] == store[keys[i]].reservation;
    forall k <- store
      ensures store[k].reservation in ids
    {
      var i :| 0 <= i < |keys| && keys[i] == k;
      assert ids[i] == store[k].reservation;
    }
    DistinctReservations(keys, ids, store);
    SameSums(keys, ids, store, now);
  }

  lemma DistinctReservations(keys: seq<Key>, ids: seq<string>, store: Store)
    requires Once(store) && |ids| == |keys| && Lists(keys, store)
    requires forall i :: 0 <= i < |keys| ==> keys[i] in store && ids[i] == store[keys[i]].reservation
    ensures forall i, j :: 0 <= i < j < |ids| ==> ids[i] != ids[j]
  {
  }

  lemma {:induction false} SameSums(keys: seq<Key>, ids: seq<string>, store: Store, now: int)
    requires Once(store) && |ids| == |keys|
    requires forall k <- keys :: k in store
    requires forall i :: 0 <= i < |keys| ==> ids[i] == store[keys[i]].reservation
    ensures SumOf(Bodies(keys, store), HeldBackAt(now)) == SumOf(ids, HeldOf(store, now))
    decreases |keys|
  {
    if |keys| != 0 {
      var n := |keys| - 1;
      SameSums(keys[..n], ids[..n], store, now);
      assert Bodies(keys, store)[..n] == Bodies(keys[..n], store);
      assert HeldFor(store, ids[n], now) == store[keys[n]].body.HeldBack(now);
    }
  }

  const HELD := Stored("r", ProviderInstruction(true, None, Parsed(1), Parsed(1)))

  /** Both objects get enforced. */
  lemma BothEnforced(c: Config, k: Key, l: Key, es: seq<Event>, now: int)
    requires k != l && Run(c, es) == map[k := Fresh(DEMAND), l := Fresh(DEMAND)]
    ensures var one := es + [Reconciled(k, now, false, false, true)];
            Run(c, one + [Reconciled(l, now, false, false, true)]) == map[k := HELD, l := HELD]
  {
    var one := es + [Reconciled(k, now, false, false, true)];
    var two := one + [Reconciled(l, now, false, false, true)];
    assert one[..|es|] == es && two[..|one|] == one;
    assert Run(c, one) == Step(c, Run(c, es), one[|es|]) == map[k := HELD, l := Fresh(DEMAND)];
    assert Run(c, two) == Step(c, Run(c, one), two[|one|]);
  }

  lemma TwoHeld(bodies: seq<ProviderInstruction>, now: int)
    requires bodies == [HELD.body, HELD.body]
    ensures SumOf(bodies, HeldBackAt(now)) == Amount(2, 2)
  {
    var share := HeldBackAt(now);
    assert share(HELD.body) == Amount(1, 1);
    hide HeldBackAt, SumOf;
    assert bodies == ([] + [HELD.body]) + [HELD.body];
    SumAppend([], HELD.body, share);
    SumAppend([] + [HELD.body], HELD.body, share);
    NoSum(share);
  }

  lemma NoSum(share: ProviderInstruction -> Amount)
    ensures SumOf([], share) == ZERO
  {
  }

  /** With two namespaces, a reservation that both paths deliver is held back twice once both objects are enforced. */
  lemma TwoNamespacesCountTwice(c: Config, now: int)
    requires c.poller != c.Fallback()
    ensures exists es, keys :: Lists(keys, Run(c, es))
                         && SumOf(Bodies(keys, Run(c, es)), HeldBackAt(now)) == Amount(2, 2)
  {
    hide Run, SumOf, NameOf;
    var k, l := Key(c.poller, NameOf("r")), Key(c.Fallback(), NameOf("r"));
    TwoNamespacesTwoObjects(c, DEMAND);
    BothEnforced(c, k, l, Both(DEMAND), now);
    var es := Both(DEMAND) + [Reconciled(k, now, false, false, true)] + [Reconciled(l, now, false, false, true)];
    assert Lists([k, l], Run(c, es));
    assert Bodies([k, l], Run(c, es)) == [HELD.body, HELD.body];
    TwoHeld(Bodies([k, l], Run(c, es)), now);
  }

  /** Marking an expired instruction frees nothing that was still counted, so a failed marking does no harm. */
  lemma ExpiryNeedsNoMarking(p: ProviderInstruction, now: int, later: int, wired: bool, uploaded: bool)
    requires p.expiresAt.Some? && p.expiresAt.value < now <= later
    ensures Enforced(p, now, wired, uploaded).HeldBack(later) == p.HeldBack(later) == ZERO
  {
  }

  /** A delivery never changes what an existing object holds back. */
  lemma {:induction false} DeliveriesKeepObjects(store: Store, namespace: string, ds: seq<Delivery>, refused: set<nat>)
    ensures forall k <- store :: k in ReceiveAll(store, namespace, ds, refused)
                            && ReceiveAll(store, namespace, ds, refused)[k] == store[k]
    ensures forall k <- ReceiveAll(store, namespace, ds, refused) :: k !in store ==>
              exists d <- ds :: d.reserved && k == Key(namespace, NameOf(d.id))
    ensures forall i :: 0 <= i < |ds| && ds[i].reserved && i !in refused ==>
              Key(namespace, NameOf(ds[i].id)) in ReceiveAll(store, namespace, ds, refused)
  {
    if |ds| != 0 {
      var n := |ds| - 1;
      DeliveriesKeepObjects(store, namespace, ds[..n], refused);
      assert ds[n] in ds;
      assert forall d <- ds[..n] :: d in ds;
    }
  }
}
