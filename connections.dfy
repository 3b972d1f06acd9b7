/**
 * `Connections`: the facade over the registry. `connect` checks its
 * arguments and registers under the channel or the sender; `send`
 * resolves the receivers of an emission, adds the sender (and channel) to
 * the payload and safely calls each receiver in turn, the first failure
 * ending the send.
 */
module Dispatch {
  import opened Wrappers
  import opened Signals
  import opened Dicts
  import opened ConnectionMaps
  import SafeCall

  // ---------------------------------------------------------------------
  // connect
  // ---------------------------------------------------------------------

  /** The key a connection is registered under: the channel when one is given, else the sender. */
  function ConnectKey(sender: Key, channel: Option<Key>): (k: Key)
    ensures channel.Some? ==> k == channel.value
    ensures channel.None? ==> k == sender
  {
    if channel.Some? then channel.value else sender
  }

  /**
   * What `connect(receiver, signal, sender, channel)` does to a registry.
   * `sender` is `None` for Python's `None`; `isCallable` stands for the
   * `callable` check on the receiver.
   */
  function Register(reg: Registry, receiver: Receiver, isCallable: bool,
                    signal: Key, sender: Option<Key>, channel: Option<Key>): (res: Result<Registry, Error>)
    ensures !isCallable ==> res == Err(NotCallable(receiver))
    ensures isCallable && sender.None? ==> res == Err(AnonymousConnect)
    ensures res.Ok? <==> isCallable && sender.Some?
    ensures res.Ok? ==> res.value == Add(reg, receiver, signal, ConnectKey(sender.value, channel))
  {
    if !isCallable then Err(NotCallable(receiver))
    else if sender.None? then Err(AnonymousConnect)
    else Ok(Add(reg, receiver, signal, ConnectKey(sender.value, channel)))
  }

  /**
   * After a successful connect the receiver is reached by every emission
   * whose signal matches the connected signal and whose sender (or
   * channel) matches the key it was registered under.
   */
  lemma ConnectedIsReached(reg: Registry, receiver: Receiver, signal: Key, sender: Key, channel: Option<Key>,
                           emitted: Key, from: Key)
    requires RegistryValid(reg)
    requires SignalMatches(emitted, signal) && SenderMatches(Normalize(from), ConnectKey(sender, channel))
    ensures Register(reg, receiver, true, signal, Some(sender), channel).Ok?
    ensures receiver in Resolve(Register(reg, receiver, true, signal, Some(sender), channel).value, emitted, from)
  {
    AddedIsReached(reg, receiver, signal, ConnectKey(sender, channel), emitted, from);
  }

  /**
   * A connect appends the receiver to the bucket of the channel when one
   * is given, leaving the sender's own bucket alone, and to the bucket of
   * the sender otherwise; every other bucket is unchanged.
   */
  lemma ConnectBuckets(reg: Registry, receiver: Receiver, signal: Key, sender: Key, channel: Option<Key>)
    ensures channel.Some? ==>
              Bucket(Register(reg, receiver, true, signal, Some(sender), channel).value, signal, channel.value)
              == Bucket(reg, signal, channel.value) + [receiver]
    ensures channel.Some? && channel.value != sender ==>
              Bucket(Register(reg, receiver, true, signal, Some(sender), channel).value, signal, sender)
              == Bucket(reg, signal, sender)
    ensures channel.None? ==>
              Bucket(Register(reg, receiver, true, signal, Some(sender), channel).value, signal, sender)
              == Bucket(reg, signal, sender) + [receiver]
    ensures forall s, x :: s != signal || (channel.Some? && x != channel.value) || (channel.None? && x != sender) ==>
              Bucket(Register(reg, receiver, true, signal, Some(sender), channel).value, s, x) == Bucket(reg, s, x)
  {
    AddBuckets(reg, receiver, signal, ConnectKey(sender, channel));
  }

  /** Connecting never removes a receiver from what an emission reaches. */
  lemma ConnectKeepsReached(reg: Registry, receiver: Receiver, signal: Key, sender: Key, channel: Option<Key>,
                            emitted: Key, from: Key, y: Receiver)
    requires RegistryValid(reg) && y in Resolve(reg, emitted, from)
    ensures y in Resolve(Register(reg, receiver, true, signal, Some(sender), channel).value, emitted, from)
  {
    AddKeepsReached(reg, receiver, signal, ConnectKey(sender, channel), emitted, from, y);
  }

  /** The only receiver a connect can add to what an emission reaches is the connected one. */
  lemma ConnectAddsOnlyReceiver(reg: Registry, receiver: Receiver, signal: Key, sender: Key, channel: Option<Key>,
                                emitted: Key, from: Key, y: Receiver)
    requires RegistryValid(reg) && y != receiver
    requires y in Resolve(Register(reg, receiver, true, signal, Some(sender), channel).value, emitted, from)
    ensures y in Resolve(reg, emitted, from)
  {
    AddAddsOnlyReceiver(reg, receiver, signal, ConnectKey(sender, channel), emitted, from, y);
  }

  // ---------------------------------------------------------------------
  // send
  // ---------------------------------------------------------------------

  /** The sender a send reports: a send from `Any` is made anonymously instead. */
  function SentBy(sender: Key): (s: Key)
    ensures s != Any
    ensures sender != Any ==> s == sender
  {
    if sender == Any then Anonymous else sender
  }

  /** The key receivers are resolved on: the channel when one is given, else the reported sender. */
  function SendKey(sender: Key, channel: Option<Key>): (k: Key)
    ensures channel.Some? ==> k == channel.value
    ensures channel.None? ==> k == SentBy(sender)
  {
    if channel.Some? then channel.value else SentBy(sender)
  }

  /** The payload handed to every receiver: the caller's, with `sender` and, when given, `channel` set. */
  function Enriched(payload: Payload, sender: Key, channel: Option<Key>): (kw: Payload)
    ensures "sender" in kw && kw["sender"] == KeyValue(SentBy(sender))
    ensures channel.Some? ==> "channel" in kw && kw["channel"] == KeyValue(channel.value)
    ensures channel.None? ==> ("channel" in kw <==> "channel" in payload)
    ensures forall n :: n != "sender" && n != "channel" ==> (n in kw <==> n in payload)
    ensures forall n :: n in payload && n != "sender" && n != "channel" ==> kw[n] == payload[n]
  {
    var kw := payload["sender" := KeyValue(SentBy(sender))];
    if channel.Some? then kw["channel" := KeyValue(channel.value)] else kw
  }

  /**
   * Calling `receivers` in order with `payload`: the calls made and the
   * error that ended the send, if any. A receiver whose binding fails is
   * not called; a receiver that raises has been called. Each receiver is
   * reached through a call of `safecall`, which `Invoke` describes.
   */
  function Deliver(receivers: seq<Receiver>, payload: Payload, raises: Call -> bool): (res: (seq<Call>, Option<Error>))
    decreases |receivers|
  {
    if receivers == [] then ([], None)
    else
      match SafeCall.Invoke(receivers[0], payload)
      case Err(e) => ([], Some(e))
      case Ok(c) =>
        if raises(c) then ([c], Some(Raised(c)))
        else
          var rest := Deliver(receivers[1..], payload, raises);
          ([c] + rest.0, rest.1)
  }

  /**
   * Fail-fast delivery, described without recursion: the calls are the
   * bindings of a prefix of the receivers, none of them raised except
   * possibly the last, and the send ends normally exactly when every
   * receiver was called and none raised; otherwise it ends with the last
   * call's exception, or with the binding error of the first receiver not
   * called.
   */
  ghost predicate DeliveredInOrder(receivers: seq<Receiver>, payload: Payload, raises: Call -> bool,
                                   calls: seq<Call>, failure: Option<Error>) {
    && |calls| <= |receivers|
    && (forall i :: 0 <= i < |calls| ==> SafeCall.Invoke(receivers[i], payload) == Ok(calls[i]))
    && (forall i :: 0 <= i < |calls| - 1 ==> !raises(calls[i]))
    && (failure.None? <==> |calls| == |receivers| && forall i :: 0 <= i < |calls| ==> !raises(calls[i]))
    && (failure.Some? ==>
          || (0 < |calls| && raises(calls[|calls| - 1]) && failure.value == Raised(calls[|calls| - 1]))
          || (&& |calls| < |receivers|
              && (forall i :: 0 <= i < |calls| ==> !raises(calls[i]))
              && SafeCall.Invoke(receivers[|calls|], payload) == Err(failure.value)))
  }

  /** One step of delivery from position `i`. */
  lemma DeliverStep(receivers: seq<Receiver>, i: nat, payload: Payload, raises: Call -> bool)
    requires i < |receivers|
    ensures Deliver(receivers[i..], payload, raises) ==
            match SafeCall.Invoke(receivers[i], payload)
            case Err(e) => ([], Some(e))
            case Ok(c) =>
              if raises(c) then ([c], Some(Raised(c)))
              else ([c] + Deliver(receivers[i + 1..], payload, raises).0, Deliver(receivers[i + 1..], payload, raises).1)
  {
    assert receivers[i..][0] == receivers[i];
    assert receivers[i..][1..] == receivers[i + 1..];
  }

  /** A receiver that binds and does not raise, followed by an in-order delivery to the rest. */
  lemma DeliveredCons(rs: seq<Receiver>, payload: Payload, raises: Call -> bool, c: Call,
                      calls: seq<Call>, failure: Option<Error>)
    requires rs != [] && SafeCall.Invoke(rs[0], payload) == Ok(c) && !raises(c)
    requires DeliveredInOrder(rs[1..], payload, raises, calls, failure)
    ensures DeliveredInOrder(rs, payload, raises, [c] + calls, failure)
  {
    var all := [c] + calls;
    assert forall i :: 1 <= i < |all| ==> all[i] == calls[i - 1] && rs[i] == rs[1..][i - 1];
    assert forall i :: 0 <= i < |all| ==> SafeCall.Invoke(rs[i], payload) == Ok(all[i]) by {
      forall i | 0 <= i < |all| ensures SafeCall.Invoke(rs[i], payload) == Ok(all[i]) {
        if i > 0 {
          assert all[i] == calls[i - 1] && rs[i] == rs[1..][i - 1];
        }
      }
    }
    assert (forall i :: 0 <= i < |all| ==> !raises(all[i])) <==>
           (forall i :: 0 <= i < |calls| ==> !raises(calls[i])) by {
      assert all[0] == c;
    }
    if |calls| < |rs[1..]| {
      assert rs[|all|] == rs[1..][|calls|];
    }
  }

  /** `Deliver` is fail-fast delivery in order. */
  lemma {:induction false} DeliverFailFast(receivers: seq<Receiver>, payload: Payload, raises: Call -> bool)
    ensures var (calls, failure) := Deliver(receivers, payload, raises);
            DeliveredInOrder(receivers, payload, raises, calls, failure)
    decreases |receivers|
  {
    if receivers != [] {
      match SafeCall.Invoke(receivers[0], payload)
      case Err(e) =>
      case Ok(c) =>
        if !raises(c) {
          var rest := Deliver(receivers[1..], payload, raises);
          DeliverFailFast(receivers[1..], payload, raises);
          DeliveredCons(receivers, payload, raises, c, rest.0, rest.1);
        }
    }
  }

  // ---------------------------------------------------------------------
  // The facade object
  // ---------------------------------------------------------------------

  /** `Connections`: owns one registry object and works through it. */
  class Connections {
    const connmap: ConnectionMap

    ghost predicate Valid()
      reads this, connmap
    {
      connmap.Valid()
    }

    constructor ()
      ensures Valid() && fresh(connmap) && connmap.connections == Empty()
    {
      connmap := new ConnectionMap();
    }

    /**
     * `connect`: fails with the first argument error and leaves the
     * registry as it was, or registers the receiver under the channel
     * when one is given and under the sender otherwise.
     */
    method Connect(receiver: Receiver, isCallable: bool, signal: Key, sender: Option<Key>, channel: Option<Key>)
      returns (outcome: Outcome<Error>)
      requires Valid()
      modifies connmap
      ensures Valid()
      ensures match Register(old(connmap.connections), receiver, isCallable, signal, sender, channel)
              case Ok(reg) => outcome == Pass && connmap.connections == reg
              case Err(e) => outcome == Fail(e) && connmap.connections == old(connmap.connections)
    {
      if !isCallable {
        return Fail(NotCallable(receiver));
      }
      if sender.None? {
        return Fail(AnonymousConnect);
      }
      if channel.None? {
        connmap.Connect(receiver, signal, sender.value);
      } else {
        connmap.Connect(receiver, signal, channel.value);
      }
      return Pass;
    }

    /**
     * `send`: the calls made, in order, and the exception that ended the
     * send, if any. A receiver's own failure is the oracle `raises`. The
     * registry is only read. The payload stands for `**kwargs`, which
     * Python never lets hold the names of `send`'s own parameters.
     */
    method Send(signal: Key, sender: Key, channel: Option<Key>, payload: Payload, raises: Call -> bool)
      returns (calls: seq<Call>, failure: Option<Error>)
      requires Valid()
      requires "self" !in payload && "signal" !in payload && "sender" !in payload && "channel" !in payload
      ensures (calls, failure) ==
              Deliver(Resolve(connmap.connections, signal, SendKey(sender, channel)), Enriched(payload, sender, channel), raises)
    {
      var from := sender;
      if from == Any {
        from := Anonymous;
      }
      var receivers;
      if channel.None? {
        receivers := connmap.GetReceivers(signal, from);
      } else {
        receivers := connmap.GetReceivers(signal, channel.value);
      }
      var kwargs := payload["sender" := KeyValue(from)];
      if channel.Some? {
        kwargs := kwargs["channel" := KeyValue(channel.value)];
      }
      assert receivers == Resolve(connmap.connections, signal, SendKey(sender, channel));
      assert kwargs == Enriched(payload, sender, channel);
      calls, failure := CallInOrder(receivers, kwargs, raises);
    }
  }

  /**
   * The loop of `send`: safely calls each receiver in turn with the same
   * payload, stopping at the first binding error or raised exception.
   */
  method CallInOrder(rs: seq<Receiver>, payload: Payload, raises: Call -> bool)
    returns (calls: seq<Call>, failure: Option<Error>)
    ensures (calls, failure) == Deliver(rs, payload, raises)
  {
    calls := [];
    var i := 0;
    ghost var whole := Deliver(rs, payload, raises);
    assert rs[i..] == rs;
    assert whole == After(calls, whole) by {
      assert calls + whole.0 == whole.0;
    }
    while i < |rs|
      invariant 0 <= i <= |rs|
      invariant Deliver(rs, payload, raises) == After(calls, Deliver(rs[i..], payload, raises))
    {
      var bound;
      if SafeCall.CalleeParam in payload {
        // the call `safecall(receiver, **kwargs)` itself fails
        bound := Err(DuplicateArgument(SafeCall.CalleeParam));
      } else {
        bound := SafeCall.SafeCall(rs[i], payload);
      }
      DeliverStep(rs, i, payload, raises);
      match bound {
        case Err(e) =>
          assert calls + [] == calls;
          return calls, Some(e);
        case Ok(c) =>
          if raises(c) {
            return calls + [c], Some(Raised(c));
          }
          AfterCall(calls, c, Deliver(rs[i + 1..], payload, raises));
          calls := calls + [c];
          i := i + 1;
      }
    }
    assert rs[i..] == [];
    assert calls + [] == calls;
    return calls, None;
  }

  /** The outcome of a delivery that follows the calls already made. */
  function After(calls: seq<Call>, rest: (seq<Call>, Option<Error>)): (res: (seq<Call>, Option<Error>)) {
    (calls + rest.0, rest.1)
  }

  /** One more call moves from the pending delivery to the calls made. */
  lemma AfterCall(calls: seq<Call>, c: Call, rest: (seq<Call>, Option<Error>))
    ensures After(calls, ([c] + rest.0, rest.1)) == After(calls + [c], rest)
  {
    assert calls + ([c] + rest.0) == (calls + [c]) + rest.0;
  }

  /**
   * A signal that has neither its own bucket nor an `Any` bucket reaches
   * no receiver: no call is made and the send ends normally.
   */
  lemma SendUnknownSignal(reg: Registry, signal: Key, sender: Key, channel: Option<Key>,
                          payload: Payload, raises: Call -> bool)
    requires signal != Any && signal !in reg.items && Any !in reg.items
    ensures Deliver(Resolve(reg, signal, SendKey(sender, channel)), Enriched(payload, sender, channel), raises) == ([], None)
  {
    ResolveUnknownSignal(reg, signal, SendKey(sender, channel));
  }

  /** With a channel, the sender does not change which receivers are called, only what they are passed. */
  lemma ChannelIgnoresSender(reg: Registry, signal: Key, sender1: Key, sender2: Key, channel: Key)
    ensures Resolve(reg, signal, SendKey(sender1, Some(channel))) == Resolve(reg, signal, SendKey(sender2, Some(channel)))
  {
  }

  /** A send from `Any` calls the same receivers, with the same payload, as an anonymous send. */
  lemma SendFromAnyIsAnonymous(reg: Registry, signal: Key, channel: Option<Key>, payload: Payload, raises: Call -> bool)
    ensures Deliver(Resolve(reg, signal, SendKey(Any, channel)), Enriched(payload, Any, channel), raises)
            == Deliver(Resolve(reg, signal, SendKey(Anonymous, channel)), Enriched(payload, Anonymous, channel), raises)
  {
  }

  /**
   * A payload entry named `iscalled` collides with `safecall`'s own
   * parameter: when any receiver is resolved, the first call of
   * `safecall` fails, no receiver is called, and the send ends with the
   * duplicate-argument error.
   */
  lemma CalleeNameCollides(reg: Registry, signal: Key, sender: Key, channel: Option<Key>,
                           payload: Payload, raises: Call -> bool)
    requires SafeCall.CalleeParam in payload
    requires Resolve(reg, signal, SendKey(sender, channel)) != []
    ensures Deliver(Resolve(reg, signal, SendKey(sender, channel)), Enriched(payload, sender, channel), raises)
            == ([], Some(DuplicateArgument(SafeCall.CalleeParam)))
  {
    assert SafeCall.CalleeParam in Enriched(payload, sender, channel);
  }
}
