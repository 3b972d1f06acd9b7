/**
 * The connection registry (`ConnectionMap` in sisi.py): signal ->
 * (sender or channel -> receivers in registration order), and the
 * wildcard-aware resolution of an emission to the receivers it reaches.
 */
module ConnectionMaps {
  import opened Signals
  import opened Dicts

  /** The receivers registered per sender (or channel) key, for one signal. */
  type SenderMap = Dict<Key, seq<Receiver>>

  /** The whole registry: `connections` of sisi.py. */
  type Registry = Dict<Key, SenderMap>

  /** Both levels are well-formed insertion-ordered dictionaries. */
  ghost predicate RegistryValid(reg: Registry) {
    reg.Valid() && forall s :: s in reg.items ==> reg.items[s].Valid()
  }

  /** Each element occurs once. */
  predicate Distinct<T(==)>(s: seq<T>) {
    forall i, j :: 0 <= i < j < |s| ==> s[i] != s[j]
  }

  /** The sender map of a signal, empty when the signal has none. */
  function SenderMapOf(reg: Registry, signal: Key): (sm: SenderMap) {
    if signal in reg.items then reg.items[signal] else Empty()
  }

  /** The receivers registered at `[signal][sender]`, empty when that bucket is absent. */
  function Bucket(reg: Registry, signal: Key, sender: Key): (rs: seq<Receiver>) {
    var sm := SenderMapOf(reg, signal);
    if sender in sm.items then sm.items[sender] else []
  }

  /**
   * The registry after `connect(receiver, signal, sender)`: a missing
   * signal or sender key is created at the end of its dictionary's
   * order. `AddBuckets`, `AddOtherSignals` and `AddValid` state what it
   * does to the buckets.
   */
  function Add(reg: Registry, receiver: Receiver, signal: Key, sender: Key): (r: Registry)
    ensures r.keys == if signal in reg.items then reg.keys else reg.keys + [signal]
    ensures SenderMapOf(r, signal).keys ==
            if sender in SenderMapOf(reg, signal).items then SenderMapOf(reg, signal).keys
            else SenderMapOf(reg, signal).keys + [sender]
  {
    var sm := SenderMapOf(reg, signal);
    reg.Put(signal, sm.Put(sender, Bucket(reg, signal, sender) + [receiver]))
  }

  /** `Add` appends exactly one receiver to the end of `[signal][sender]` and changes no other bucket. */
  lemma AddBuckets(reg: Registry, receiver: Receiver, signal: Key, sender: Key)
    ensures forall s, x :: Bucket(Add(reg, receiver, signal, sender), s, x) ==
              if s == signal && x == sender then Bucket(reg, s, x) + [receiver] else Bucket(reg, s, x)
  {
  }

  /** `Add` leaves the sender map of every other signal as it was. */
  lemma AddOtherSignals(reg: Registry, receiver: Receiver, signal: Key, sender: Key)
    ensures forall s :: s != signal ==> SenderMapOf(Add(reg, receiver, signal, sender), s) == SenderMapOf(reg, s)
  {
  }

  /** `Add` keeps both dictionary levels well-formed. */
  lemma AddValid(reg: Registry, receiver: Receiver, signal: Key, sender: Key)
    requires RegistryValid(reg)
    ensures RegistryValid(Add(reg, receiver, signal, sender))
  {
  }

  // ---------------------------------------------------------------------
  // Resolution (`get_receivers`)
  // ---------------------------------------------------------------------

  /** A send from `Anonymous` is matched as a send from `Any`. */
  function Normalize(sender: Key): (k: Key) {
    if sender == Anonymous then Any else sender
  }

  /** Signal bucket `registered` is relevant to an emission of `signal`. */
  predicate SignalMatches(signal: Key, registered: Key) {
    signal == Any || registered == signal || registered == Any
  }

  /** Sender bucket `registered` is relevant to a (normalized) `sender`. */
  predicate SenderMatches(sender: Key, registered: Key) {
    sender == Any || registered == sender || registered == Any
  }

  /** The signal buckets to inspect, in order: all of them for `Any`, else exact then `Any`. */
  function SignalsToVisit(reg: Registry, signal: Key): (ks: seq<Key>) {
    if signal == Any then reg.keys
    else (if signal in reg.items then [signal] else []) + (if Any in reg.items then [Any] else [])
  }

  /** The sender buckets to inspect in one signal bucket: all for `Any`, else exact then `Any`. */
  function SendersToVisit(sm: SenderMap, sender: Key): (ks: seq<Key>) {
    if sender == Any then sm.keys
    else (if sender in sm.items then [sender] else []) + (if Any in sm.items then [Any] else [])
  }

  /** `signal` paired with each of `senders`, in order. */
  function Pairs(signal: Key, senders: seq<Key>): (ps: seq<(Key, Key)>)
    ensures |ps| == |senders|
    ensures forall i :: 0 <= i < |ps| ==> ps[i] == (signal, senders[i])
  {
    seq(|senders|, i requires 0 <= i < |senders| => (signal, senders[i]))
  }

  /** The (signal, sender) buckets visited for the given signal buckets, in visiting order. */
  function VisitsOver(reg: Registry, signals: seq<Key>, sender: Key): (ps: seq<(Key, Key)>)
    decreases |signals|
  {
    if signals == [] then []
    else
      var last := signals[|signals| - 1];
      VisitsOver(reg, signals[..|signals| - 1], sender) + Pairs(last, SendersToVisit(SenderMapOf(reg, last), sender))
  }

  /** The (signal, sender) buckets `get_receivers(signal, sender)` visits, in order. */
  function Visits(reg: Registry, signal: Key, sender: Key): (ps: seq<(Key, Key)>) {
    VisitsOver(reg, SignalsToVisit(reg, signal), Normalize(sender))
  }

  /** The receiver lists of the given buckets, concatenated in order. */
  function Buckets(reg: Registry, ps: seq<(Key, Key)>): (rs: seq<Receiver>)
    decreases |ps|
  {
    if ps == [] then []
    else Buckets(reg, ps[..|ps| - 1]) + Bucket(reg, ps[|ps| - 1].0, ps[|ps| - 1].1)
  }

  /** The receivers an emission of `signal` from `sender` reaches, in delivery order. */
  function Resolve(reg: Registry, signal: Key, sender: Key): (rs: seq<Receiver>) {
    Buckets(reg, Visits(reg, signal, sender))
  }

  /** Collecting two lists of visits one after the other is collecting their concatenation. */
  lemma {:induction false} BucketsAppend(reg: Registry, a: seq<(Key, Key)>, b: seq<(Key, Key)>)
    ensures Buckets(reg, a + b) == Buckets(reg, a) + Buckets(reg, b)
    decreases |b|
  {
    if b == [] {
      assert a + b == a;
    } else {
      var b' := b[..|b| - 1];
      assert (a + b)[..|a + b| - 1] == a + b';
      BucketsAppend(reg, a, b');
    }
  }

  /** The receivers collected inside one signal bucket: its relevant sender buckets, in order. */
  function SignalReceivers(reg: Registry, s: Key, sender: Key): (rs: seq<Receiver>) {
    Buckets(reg, Pairs(s, SendersToVisit(SenderMapOf(reg, s), sender)))
  }

  /** Visiting one more signal bucket appends that bucket's receivers. */
  lemma VisitsOverSnoc(reg: Registry, signals: seq<Key>, s: Key, sender: Key)
    ensures Buckets(reg, VisitsOver(reg, signals + [s], sender)) ==
            Buckets(reg, VisitsOver(reg, signals, sender)) + SignalReceivers(reg, s, sender)
  {
    assert (signals + [s])[..|signals|] == signals;
    BucketsAppend(reg, VisitsOver(reg, signals, sender), Pairs(s, SendersToVisit(SenderMapOf(reg, s), sender)));
  }

  /** Within one signal bucket, a concrete sender collects its exact bucket, then the `Any` bucket. */
  lemma SenderBucketsConcrete(reg: Registry, s: Key, sender: Key)
    requires sender != Any
    ensures SignalReceivers(reg, s, sender) == Bucket(reg, s, sender) + Bucket(reg, s, Any)
  {
    var sm := SenderMapOf(reg, s);
    var ps := Pairs(s, SendersToVisit(sm, sender));
    if sender in sm.items && Any in sm.items {
      assert ps == [(s, sender), (s, Any)];
      assert ps[..1] == [(s, sender)];
      assert ps[..1][..0] == [];
      assert Buckets(reg, ps[..1]) == Bucket(reg, s, sender);
    } else if sender in sm.items {
      assert ps == [(s, sender)];
      assert ps[..0] == [];
    } else if Any in sm.items {
      assert ps == [(s, Any)];
      assert ps[..0] == [];
      assert Buckets(reg, ps) == Bucket(reg, s, Any);
    } else {
      assert ps == [];
    }
  }

  /** A concrete signal collects its own bucket's receivers, then those of the `Any` signal bucket. */
  lemma ResolveBySignal(reg: Registry, signal: Key, sender: Key)
    requires signal != Any
    ensures Resolve(reg, signal, sender) ==
            SignalReceivers(reg, signal, Normalize(sender)) + SignalReceivers(reg, Any, Normalize(sender))
  {
    var x := Normalize(sender);
    var mine := if signal in reg.items then [signal] else [];
    var any := if Any in reg.items then [Any] else [];
    assert SignalsToVisit(reg, signal) == mine + any;
    assert Buckets(reg, VisitsOver(reg, mine, x)) == SignalReceivers(reg, signal, x) by {
      assert [] + mine == mine;
      VisitsOverPresent(reg, [], signal, x);
    }
    VisitsOverPresent(reg, mine, Any, x);
  }

  /** Visiting signal bucket `s` if it exists appends its receivers, or nothing when it is absent. */
  lemma VisitsOverPresent(reg: Registry, signals: seq<Key>, s: Key, sender: Key)
    ensures Buckets(reg, VisitsOver(reg, signals + (if s in reg.items then [s] else []), sender)) ==
            Buckets(reg, VisitsOver(reg, signals, sender)) + SignalReceivers(reg, s, sender)
  {
    if s in reg.items {
      VisitsOverSnoc(reg, signals, s, sender);
    } else {
      assert signals + [] == signals;
      SignalReceiversAbsent(reg, s, sender);
    }
  }

  /** A signal without a bucket contributes nothing. */
  lemma SignalReceiversAbsent(reg: Registry, s: Key, sender: Key)
    requires s !in reg.items
    ensures SignalReceivers(reg, s, sender) == []
  {
  }

  /**
   * Precedence: for a concrete signal and a concrete sender, the
   * receivers of `[S][X]`, `[S][Any]`, `[Any][X]` and `[Any][Any]`, in
   * that order, each in registration order, absent buckets contributing
   * nothing.
   */
  lemma ResolveConcrete(reg: Registry, signal: Key, sender: Key)
    requires signal != Any && sender != Any && sender != Anonymous
    ensures Resolve(reg, signal, sender) ==
            (Bucket(reg, signal, sender) + Bucket(reg, signal, Any))
            + (Bucket(reg, Any, sender) + Bucket(reg, Any, Any))
  {
    var a, b := Bucket(reg, signal, sender), Bucket(reg, signal, Any);
    var c, d := Bucket(reg, Any, sender), Bucket(reg, Any, Any);
    var x, y := SignalReceivers(reg, signal, sender), SignalReceivers(reg, Any, sender);
    assert Resolve(reg, signal, sender) == x + y by {
      ResolveBySignal(reg, signal, sender);
    }
    assert x == a + b by {
      SenderBucketsConcrete(reg, signal, sender);
    }
    assert y == c + d by {
      SenderBucketsConcrete(reg, Any, sender);
    }
  }

  /** With neither a bucket for the signal nor an `Any` signal bucket, nothing is reached. */
  lemma ResolveUnknownSignal(reg: Registry, signal: Key, sender: Key)
    requires signal != Any && signal !in reg.items && Any !in reg.items
    ensures Resolve(reg, signal, sender) == []
  {
  }

  /** The pairs visited over a list of signal keys: each key with its matching existing sender keys. */
  lemma {:induction false} VisitsOverMembers(reg: Registry, signals: seq<Key>, sender: Key)
    ensures forall p :: p in VisitsOver(reg, signals, sender) <==>
              p.0 in signals && p.1 in SendersToVisit(SenderMapOf(reg, p.0), sender)
    decreases |signals|
  {
    if signals != [] {
      var init := signals[..|signals| - 1];
      var last := signals[|signals| - 1];
      VisitsOverMembers(reg, init, sender);
      assert signals == init + [last];
      forall p
        ensures p in VisitsOver(reg, signals, sender) <==>
                p.0 in signals && p.1 in SendersToVisit(SenderMapOf(reg, p.0), sender)
      {
        var ss := SendersToVisit(SenderMapOf(reg, last), sender);
        if p.0 == last && p.1 in ss {
          var k :| 0 <= k < |ss| && ss[k] == p.1;
          assert Pairs(last, ss)[k] == p;
        }
      }
    }
  }

  /** Distinct signal keys, each with distinct sender keys, give pairwise distinct visits. */
  lemma {:induction false} VisitsOverDistinct(reg: Registry, signals: seq<Key>, sender: Key)
    requires Distinct(signals)
    requires forall s :: s in signals ==> Distinct(SendersToVisit(SenderMapOf(reg, s), sender))
    ensures Distinct(VisitsOver(reg, signals, sender))
    decreases |signals|
  {
    if signals != [] {
      var init := signals[..|signals| - 1];
      var last := signals[|signals| - 1];
      VisitsOverDistinct(reg, init, sender);
      VisitsOverMembers(reg, init, sender);
      var left := VisitsOver(reg, init, sender);
      var right := Pairs(last, SendersToVisit(SenderMapOf(reg, last), sender));
      assert last !in init;
      forall i, j | 0 <= i < j < |left + right|
        ensures (left + right)[i] != (left + right)[j]
      {
        if j >= |left| && i < |left| {
          assert left[i] in left;
        }
      }
    }
  }

  /** The visited buckets are the existing ones that match, and none is visited twice. */
  lemma VisitsExactly(reg: Registry, signal: Key, sender: Key)
    requires RegistryValid(reg)
    ensures Distinct(Visits(reg, signal, sender))
    ensures forall p :: p in Visits(reg, signal, sender) <==>
              && p.0 in reg.items && p.1 in reg.items[p.0].items
              && SignalMatches(signal, p.0) && SenderMatches(Normalize(sender), p.1)
  {
    var sigs := SignalsToVisit(reg, signal);
    var x := Normalize(sender);
    assert forall s :: s in sigs <==> s in reg.items && SignalMatches(signal, s);
    forall s | s in reg.items
      ensures Distinct(SendersToVisit(SenderMapOf(reg, s), x))
      ensures forall y :: y in SendersToVisit(SenderMapOf(reg, s), x) <==>
                y in reg.items[s].items && SenderMatches(x, y)
    {
    }
    VisitsOverMembers(reg, sigs, x);
    VisitsOverDistinct(reg, sigs, x);
  }

  /** The summed sizes of the given buckets. */
  function TotalSize(reg: Registry, ps: seq<(Key, Key)>): (n: nat)
    decreases |ps|
  {
    if ps == [] then 0
    else TotalSize(reg, ps[..|ps| - 1]) + |Bucket(reg, ps[|ps| - 1].0, ps[|ps| - 1].1)|
  }

  /** Collecting buckets keeps every receiver of each: the length is the sum of the bucket sizes. */
  lemma {:induction false} BucketsLength(reg: Registry, ps: seq<(Key, Key)>)
    ensures |Buckets(reg, ps)| == TotalSize(reg, ps)
    decreases |ps|
  {
    if ps != [] {
      BucketsLength(reg, ps[..|ps| - 1]);
    }
  }

  /**
   * The receivers an emission reaches number exactly the summed sizes of
   * the buckets it visits, each matching bucket once.
   */
  lemma ResolveLength(reg: Registry, signal: Key, sender: Key)
    ensures |Resolve(reg, signal, sender)| == TotalSize(reg, Visits(reg, signal, sender))
  {
    BucketsLength(reg, Visits(reg, signal, sender));
  }

  /** A receiver is collected exactly when it is in one of the visited buckets. */
  lemma {:induction false} BucketsMembers(reg: Registry, ps: seq<(Key, Key)>, y: Receiver)
    ensures y in Buckets(reg, ps) <==> exists p :: p in ps && y in Bucket(reg, p.0, p.1)
    decreases |ps|
  {
    if ps != [] {
      var init := ps[..|ps| - 1];
      BucketsMembers(reg, init, y);
      assert ps == init + [ps[|ps| - 1]];
    }
  }

  /** A reached receiver is registered in a bucket whose signal and sender keys match. */
  lemma ReachedIsRegistered(reg: Registry, signal: Key, sender: Key, y: Receiver)
    requires RegistryValid(reg) && y in Resolve(reg, signal, sender)
    ensures exists s, x :: SignalMatches(signal, s) && SenderMatches(Normalize(sender), x) && y in Bucket(reg, s, x)
  {
    var vs := Visits(reg, signal, sender);
    BucketsMembers(reg, vs, y);
    var p :| p in vs && y in Bucket(reg, p.0, p.1);
    assert SignalMatches(signal, p.0) && SenderMatches(Normalize(sender), p.1) by {
      VisitsExactly(reg, signal, sender);
    }
  }

  /** A receiver registered in a bucket whose signal and sender keys match is reached. */
  lemma RegisteredIsReached(reg: Registry, signal: Key, sender: Key, y: Receiver, s: Key, x: Key)
    requires RegistryValid(reg)
    requires SignalMatches(signal, s) && SenderMatches(Normalize(sender), x) && y in Bucket(reg, s, x)
    ensures y in Resolve(reg, signal, sender)
  {
    var vs := Visits(reg, signal, sender);
    assert (s, x) in vs by {
      VisitsExactly(reg, signal, sender);
    }
    BucketsMembers(reg, vs, y);
  }

  /** Resolution only depends on bucket membership: a registry holding `y` wherever `a` does reaches `y` wherever `a` does. */
  lemma ReachedMonotone(a: Registry, b: Registry, signal: Key, sender: Key, y: Receiver)
    requires RegistryValid(a) && RegistryValid(b)
    requires forall s, x :: y in Bucket(a, s, x) ==> y in Bucket(b, s, x)
    requires y in Resolve(a, signal, sender)
    ensures y in Resolve(b, signal, sender)
  {
    ReachedIsRegistered(a, signal, sender, y);
    var s, x :| SignalMatches(signal, s) && SenderMatches(Normalize(sender), x) && y in Bucket(a, s, x);
    RegisteredIsReached(b, signal, sender, y, s, x);
  }

  /** Adding a receiver never removes one from what an emission reaches. */
  lemma AddKeepsReached(reg: Registry, receiver: Receiver, signal: Key, key: Key, emitted: Key, from: Key, y: Receiver)
    requires RegistryValid(reg) && y in Resolve(reg, emitted, from)
    ensures y in Resolve(Add(reg, receiver, signal, key), emitted, from)
  {
    AddValid(reg, receiver, signal, key);
    AddBuckets(reg, receiver, signal, key);
    ReachedMonotone(reg, Add(reg, receiver, signal, key), emitted, from, y);
  }

  /** The only receiver adding can bring into what an emission reaches is the one added. */
  lemma AddAddsOnlyReceiver(reg: Registry, receiver: Receiver, signal: Key, key: Key, emitted: Key, from: Key, y: Receiver)
    requires RegistryValid(reg) && y != receiver
    requires y in Resolve(Add(reg, receiver, signal, key), emitted, from)
    ensures y in Resolve(reg, emitted, from)
  {
    AddValid(reg, receiver, signal, key);
    AddBuckets(reg, receiver, signal, key);
    ReachedMonotone(Add(reg, receiver, signal, key), reg, emitted, from, y);
  }

  /** The receiver added is reached by every emission matching the signal and key it was added under. */
  lemma AddedIsReached(reg: Registry, receiver: Receiver, signal: Key, key: Key, emitted: Key, from: Key)
    requires RegistryValid(reg)
    requires SignalMatches(emitted, signal) && SenderMatches(Normalize(from), key)
    ensures receiver in Resolve(Add(reg, receiver, signal, key), emitted, from)
  {
    AddValid(reg, receiver, signal, key);
    AddBuckets(reg, receiver, signal, key);
    RegisteredIsReached(Add(reg, receiver, signal, key), emitted, from, receiver, signal, key);
  }

  /**
   * A receiver is reached exactly when it is registered in some bucket
   * whose signal key and sender key both match the emission.
   */
  lemma ResolveMembers(reg: Registry, signal: Key, sender: Key, y: Receiver)
    requires RegistryValid(reg)
    ensures y in Resolve(reg, signal, sender) <==>
            exists s, x :: SignalMatches(signal, s) && SenderMatches(Normalize(sender), x) && y in Bucket(reg, s, x)
  {
    if y in Resolve(reg, signal, sender) {
      ReachedIsRegistered(reg, signal, sender, y);
    }
    if exists s, x :: SignalMatches(signal, s) && SenderMatches(Normalize(sender), x) && y in Bucket(reg, s, x) {
      var s, x :| SignalMatches(signal, s) && SenderMatches(Normalize(sender), x) && y in Bucket(reg, s, x);
      RegisteredIsReached(reg, signal, sender, y, s, x);
    }
  }

  /**
   * A signal sent anonymously reaches every receiver registered for that
   * signal, whatever sender key it was registered under.
   */
  lemma AnonymousReachesEverySender(reg: Registry, signal: Key, registered: Key, y: Receiver)
    requires RegistryValid(reg)
    requires y in Bucket(reg, signal, registered)
    ensures y in Resolve(reg, signal, Anonymous)
  {
    RegisteredIsReached(reg, signal, Anonymous, y, signal, registered);
  }

  /** Collecting one more sender bucket appends its receivers. */
  lemma CollectStep(reg: Registry, done: seq<(Key, Key)>, sig: Key, senders: seq<Key>, j: nat)
    requires j < |senders|
    ensures Buckets(reg, done + Pairs(sig, senders[..j + 1])) ==
            Buckets(reg, done + Pairs(sig, senders[..j])) + Bucket(reg, sig, senders[j])
  {
    var before := done + Pairs(sig, senders[..j]);
    var after := done + Pairs(sig, senders[..j + 1]);
    assert after == before + [(sig, senders[j])];
    assert after[..|after| - 1] == before;
  }

  /** Visiting signal bucket `signals[i]` after the first `i` extends the visit list by its pairs. */
  lemma VisitStep(reg: Registry, signals: seq<Key>, i: nat, sender: Key)
    requires i < |signals|
    ensures VisitsOver(reg, signals[..i + 1], sender) ==
            VisitsOver(reg, signals[..i], sender) + Pairs(signals[i], SendersToVisit(SenderMapOf(reg, signals[i]), sender))
  {
    assert signals[..i + 1][..i] == signals[..i];
  }

  /** Every signal bucket `get_receivers` visits is present in the registry. */
  lemma VisitedSignalExists(reg: Registry, signal: Key, i: nat)
    requires RegistryValid(reg) && i < |SignalsToVisit(reg, signal)|
    ensures SignalsToVisit(reg, signal)[i] in reg.items
    ensures reg.items[SignalsToVisit(reg, signal)[i]].Valid()
  {
    if signal == Any {
      assert reg.keys[i] in reg.items.Keys;
    }
  }

  /** Every sender bucket `get_receivers` visits in a signal bucket is present in it. */
  lemma VisitedSenderExists(sm: SenderMap, sender: Key, j: nat)
    requires sm.Valid() && j < |SendersToVisit(sm, sender)|
    ensures SendersToVisit(sm, sender)[j] in sm.items
  {
    if sender == Any {
      assert sm.keys[j] in sm.items.Keys;
    }
  }

  /**
   * The inner loop of `get_receivers`: the sender buckets of signal
   * bucket `sig` that match `sender`, appended in visiting order to the
   * receivers collected from the visits `done`.
   */
  method CollectSenders(reg: Registry, sig: Key, sender: Key, ghost done: seq<(Key, Key)>, start: seq<Receiver>)
    returns (receivers: seq<Receiver>)
    requires sig in reg.items && reg.items[sig].Valid()
    requires start == Buckets(reg, done)
    ensures receivers == Buckets(reg, done + Pairs(sig, SendersToVisit(SenderMapOf(reg, sig), sender)))
  {
    var sendermap := reg.items[sig];
    var senders := SendersToVisit(sendermap, sender);
    assert done + Pairs(sig, senders[..0]) == done;
    receivers := start;
    var j := 0;
    while j < |senders|
      invariant 0 <= j <= |senders|
      invariant receivers == Buckets(reg, done + Pairs(sig, senders[..j]))
    {
      VisitedSenderExists(sendermap, sender, j);
      CollectStep(reg, done, sig, senders, j);
      receivers := receivers + sendermap.items[senders[j]];
      j := j + 1;
    }
    assert senders[..j] == senders;
  }

  // ---------------------------------------------------------------------
  // The registry object
  // ---------------------------------------------------------------------

  /** `ConnectionMap`: holds the registry and updates it in place. */
  class ConnectionMap {
    var connections: Registry

    ghost predicate Valid()
      reads this
    {
      RegistryValid(connections)
    }

    constructor ()
      ensures Valid() && connections == Empty()
    {
      connections := Empty();
    }

    /** `connect`: appends `receiver` to `[signal][sender]`, creating missing levels. */
    method Connect(receiver: Receiver, signal: Key, sender: Key)
      requires Valid()
      modifies this
      ensures Valid()
      ensures connections == Add(old(connections), receiver, signal, sender)
    {
      if signal !in connections.items {
        connections := connections.Put(signal, Empty());
      }
      var sendermap := connections.items[signal];
      ghost var before := sendermap;
      if sender !in sendermap.items {
        sendermap := sendermap.Put(sender, []);
        connections := connections.Put(signal, sendermap);
      }
      var receivers := sendermap.items[sender];
      receivers := receivers + [receiver];
      // the second assignment to a key overwrites the first in place
      PutPut(before, sender, [], receivers);
      PutPut(old(connections), signal, Empty(), sendermap);
      PutPut(old(connections), signal, sendermap, sendermap.Put(sender, receivers));
      PutPut(old(connections), signal, before, sendermap.Put(sender, receivers));
      connections := connections.Put(signal, sendermap.Put(sender, receivers));
      assert connections == Add(old(connections), receiver, signal, sender);
      AddValid(old(connections), receiver, signal, sender);
    }

    /** `get_receivers`: the receivers reached, in precedence order; the registry is only read. */
    method GetReceivers(signal: Key, sender: Key) returns (receivers: seq<Receiver>)
      requires Valid()
      ensures receivers == Resolve(connections, signal, sender)
    {
      var reg := connections;
      // an anonymous send is matched like a send from Any
      var sen := Normalize(sender);
      receivers := [];
      var signals := SignalsToVisit(reg, signal);
      var i := 0;
      while i < |signals|
        invariant 0 <= i <= |signals|
        invariant receivers == Buckets(reg, VisitsOver(reg, signals[..i], sen))
      {
        VisitedSignalExists(reg, signal, i);
        receivers := CollectSenders(reg, signals[i], sen, VisitsOver(reg, signals[..i], sen), receivers);
        VisitStep(reg, signals, i, sen);
        i := i + 1;
      }
      assert signals[..i] == signals;
    }
  }
}
