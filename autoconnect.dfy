/**
 * `autoconnect_signals`: connects the methods of an object whose names
 * carry a prefix to the signals their names spell, restricted to the
 * senders and channels the two option dictionaries give per signal. The
 * reflection over the object is replaced by its list of attributes.
 */
module Autoconnect {
  import opened Wrappers
  import opened Signals
  import opened ConnectionMaps
  import opened Dispatch

  // ---------------------------------------------------------------------
  // The naming convention
  // ---------------------------------------------------------------------

  /** `s.replace(from, to)` for single characters: every occurrence is replaced. */
  function ReplaceChar(s: string, from: char, to: char): (r: string)
    ensures |r| == |s|
    ensures forall i :: 0 <= i < |s| ==> r[i] == if s[i] == from then to else s[i]
    decreases |s|
  {
    if s == [] then []
    else [if s[0] == from then to else s[0]] + ReplaceChar(s[1..], from, to)
  }

  /** Replacing back restores a string that did not contain the replacement character. */
  lemma ReplaceBack(s: string, from: char, to: char)
    requires to !in s
    ensures ReplaceChar(ReplaceChar(s, from, to), to, from) == s
  {
    var back := ReplaceChar(ReplaceChar(s, from, to), to, from);
    assert forall i :: 0 <= i < |s| ==> back[i] == s[i] by {
      forall i | 0 <= i < |s| ensures back[i] == s[i] {
        assert s[i] != to by { assert s[i] in s; }
      }
    }
  }

  /** Python's `name[len(prefix):]`: empty when the name is shorter than the prefix. */
  function DropPrefix(prefix: string, name: string): (rest: string)
    ensures prefix <= name ==> name == prefix + rest
    ensures |prefix| > |name| ==> rest == []
  {
    if |prefix| <= |name| then name[|prefix|..] else []
  }

  /** The signal a handler name stands for: the prefix dropped and `_` turned into a space. */
  function SignalName(prefix: string, name: string): (signal: string)
    ensures prefix <= name ==> |signal| == |name| - |prefix|
    ensures prefix <= name ==>
              forall i :: 0 <= i < |signal| ==>
                signal[i] == if name[|prefix| + i] == '_' then ' ' else name[|prefix| + i]
  {
    ReplaceChar(DropPrefix(prefix, name), '_', ' ')
  }

  /** The handler name the naming convention gives a signal: the prefix, then spaces as `_`. */
  function HandlerName(prefix: string, signal: string): (name: string)
    ensures prefix <= name && |name| == |prefix| + |signal|
  {
    prefix + ReplaceChar(signal, ' ', '_')
  }

  /** A signal name without `_` is recovered from its handler name. */
  lemma SignalOfHandlerName(prefix: string, signal: string)
    requires '_' !in signal
    ensures SignalName(prefix, HandlerName(prefix, signal)) == signal
  {
    var name := HandlerName(prefix, signal);
    assert DropPrefix(prefix, name) == ReplaceChar(signal, ' ', '_');
    ReplaceBack(signal, ' ', '_');
  }

  /** A prefixed name without spaces is the handler name of the signal it stands for. */
  lemma HandlerNameOfSignal(prefix: string, name: string)
    requires prefix <= name && ' ' !in name[|prefix|..]
    ensures HandlerName(prefix, SignalName(prefix, name)) == name
  {
    assert DropPrefix(prefix, name) == name[|prefix|..];
    ReplaceBack(name[|prefix|..], '_', ' ');
  }

  // ---------------------------------------------------------------------
  // The handlers of an object
  // ---------------------------------------------------------------------

  /** One attribute of the object: its name, whether it is a bound method, and that method. */
  datatype Attribute = Attribute(name: string, isMethod: bool, bound: Receiver)

  /** An attribute is a signal handler when its name has the prefix and it is a method. */
  predicate IsHandler(a: Attribute, prefix: string) {
    prefix <= a.name && a.isMethod
  }

  /** The handlers among `attrs`, in their order. */
  function Handlers(attrs: seq<Attribute>, prefix: string): (hs: seq<Attribute>)
    decreases |attrs|
  {
    if attrs == [] then []
    else
      var last := attrs[|attrs| - 1];
      Handlers(attrs[..|attrs| - 1], prefix) + (if IsHandler(last, prefix) then [last] else [])
  }

  /** The handlers are exactly the attributes that qualify. */
  lemma {:induction false} HandlersMembers(attrs: seq<Attribute>, prefix: string)
    ensures forall a :: a in Handlers(attrs, prefix) <==> a in attrs && IsHandler(a, prefix)
    decreases |attrs|
  {
    if attrs != [] {
      var init := attrs[..|attrs| - 1];
      HandlersMembers(init, prefix);
      assert attrs == init + [attrs[|attrs| - 1]];
    }
  }

  // ---------------------------------------------------------------------
  // The connections to make
  // ---------------------------------------------------------------------

  /**
   * A value of the `senders` or `channels` dictionary: one sender (or
   * channel), or a list or tuple of them. `None` stands for Python's `None`.
   */
  datatype Targets = Single(target: Option<Key>) | Several(targets: seq<Option<Key>>)

  /** `senders.get(signal, [])` followed by the single-or-list case split. */
  function TargetList(options: map<string, Targets>, signal: string): (ts: seq<Option<Key>>)
    ensures signal !in options ==> ts == []
    ensures signal in options && options[signal].Single? ==> ts == [options[signal].target]
    ensures signal in options && options[signal].Several? ==> ts == options[signal].targets
  {
    if signal !in options then []
    else match options[signal]
      case Single(t) => [t]
      case Several(ts) => ts
  }

  /**
   * A signal gets no connect from a dictionary exactly when it has no
   * entry there or its entry is an empty list or tuple: a single value,
   * `None` included, always gives one target.
   */
  lemma NoTargets(options: map<string, Targets>, signal: string)
    ensures TargetList(options, signal) == [] <==> signal !in options || options[signal] == Several([])
  {
  }

  /** One call of the package-level `connect`. */
  datatype Request = Request(receiver: Receiver, signal: Key, sender: Option<Key>, channel: Option<Key>)

  /** One connect per sender, without a channel. */
  function SenderRequests(m: Receiver, signal: Key, senders: seq<Option<Key>>): (qs: seq<Request>)
    ensures |qs| == |senders|
    ensures forall i :: 0 <= i < |qs| ==> qs[i] == Request(m, signal, senders[i], None)
  {
    seq(|senders|, i requires 0 <= i < |senders| => Request(m, signal, senders[i], None))
  }

  /** One connect per channel, from any sender. */
  function ChannelRequests(m: Receiver, signal: Key, channels: seq<Option<Key>>): (qs: seq<Request>)
    ensures |qs| == |channels|
    ensures forall i :: 0 <= i < |qs| ==> qs[i] == Request(m, signal, Some(Any), channels[i])
  {
    seq(|channels|, i requires 0 <= i < |channels| => Request(m, signal, Some(Any), channels[i]))
  }

  /** The connect to any sender and any channel, made only when neither list names one. */
  function DefaultRequests(m: Receiver, signal: Key, senders: seq<Option<Key>>, channels: seq<Option<Key>>): (qs: seq<Request>) {
    if senders == [] && channels == [] then [Request(m, signal, Some(Any), Some(Any))] else []
  }

  /** The senders listed for a handler's signal. */
  function SendersOf(h: Attribute, prefix: string, senders: map<string, Targets>): (ts: seq<Option<Key>>) {
    TargetList(senders, SignalName(prefix, h.name))
  }

  /** The channels listed for a handler's signal. */
  function ChannelsOf(h: Attribute, prefix: string, channels: map<string, Targets>): (ts: seq<Option<Key>>) {
    TargetList(channels, SignalName(prefix, h.name))
  }

  /** The connects made for one handler: its senders, then its channels, then the default. */
  function HandlerRequests(h: Attribute, prefix: string, senders: map<string, Targets>, channels: map<string, Targets>)
    : (qs: seq<Request>)
  {
    var signal := SignalName(prefix, h.name);
    var sl, cl := TargetList(senders, signal), TargetList(channels, signal);
    SenderRequests(h.bound, Concrete(signal), sl)
      + (ChannelRequests(h.bound, Concrete(signal), cl) + DefaultRequests(h.bound, Concrete(signal), sl, cl))
  }

  /**
   * A handler's connects go to the signal its name spells: one per listed
   * sender, in order, then one per listed channel from any sender, then
   * the catch-all connect exactly when both lists are empty.
   */
  lemma HandlerRequestsLayout(h: Attribute, prefix: string, senders: map<string, Targets>, channels: map<string, Targets>)
    ensures |HandlerRequests(h, prefix, senders, channels)| ==
            |SendersOf(h, prefix, senders)| + |ChannelsOf(h, prefix, channels)|
            + (if SendersOf(h, prefix, senders) == [] && ChannelsOf(h, prefix, channels) == [] then 1 else 0)
    ensures forall i :: 0 <= i < |SendersOf(h, prefix, senders)| ==>
              HandlerRequests(h, prefix, senders, channels)[i] ==
              Request(h.bound, Concrete(SignalName(prefix, h.name)), SendersOf(h, prefix, senders)[i], None)
    ensures forall i :: 0 <= i < |ChannelsOf(h, prefix, channels)| ==>
              HandlerRequests(h, prefix, senders, channels)[|SendersOf(h, prefix, senders)| + i] ==
              Request(h.bound, Concrete(SignalName(prefix, h.name)), Some(Any), ChannelsOf(h, prefix, channels)[i])
    ensures SendersOf(h, prefix, senders) == [] && ChannelsOf(h, prefix, channels) == [] ==>
              HandlerRequests(h, prefix, senders, channels) ==
              [Request(h.bound, Concrete(SignalName(prefix, h.name)), Some(Any), Some(Any))]
  {
    var signal := Concrete(SignalName(prefix, h.name));
    var sl, cl := SendersOf(h, prefix, senders), ChannelsOf(h, prefix, channels);
    var viaSenders := SenderRequests(h.bound, signal, sl);
    var viaChannels := ChannelRequests(h.bound, signal, cl);
    var tail := viaChannels + DefaultRequests(h.bound, signal, sl, cl);
    var qs := viaSenders + tail;
    assert HandlerRequests(h, prefix, senders, channels) == qs;
    forall i | 0 <= i < |SendersOf(h, prefix, senders)|
      ensures HandlerRequests(h, prefix, senders, channels)[i] ==
              Request(h.bound, Concrete(SignalName(prefix, h.name)), SendersOf(h, prefix, senders)[i], None)
    {
      assert qs[i] == viaSenders[i];
    }
    forall i | 0 <= i < |ChannelsOf(h, prefix, channels)|
      ensures HandlerRequests(h, prefix, senders, channels)[|SendersOf(h, prefix, senders)| + i] ==
              Request(h.bound, Concrete(SignalName(prefix, h.name)), Some(Any), ChannelsOf(h, prefix, channels)[i])
    {
      assert qs[|viaSenders| + i] == tail[i];
    }
  }

  /** The connects made for the handlers, handler by handler. */
  function PlanFrom(hs: seq<Attribute>, prefix: string, senders: map<string, Targets>, channels: map<string, Targets>)
    : (qs: seq<Request>)
    decreases |hs|
  {
    if hs == [] then []
    else HandlerRequests(hs[0], prefix, senders, channels) + PlanFrom(hs[1..], prefix, senders, channels)
  }

  /** Every connect `autoconnect_signals` makes, in order. */
  function Plan(attrs: seq<Attribute>, prefix: string, senders: map<string, Targets>, channels: map<string, Targets>)
    : (qs: seq<Request>)
  {
    PlanFrom(Handlers(attrs, prefix), prefix, senders, channels)
  }

  /** A `None` argument replaced by an empty dictionary. */
  function OrEmpty(options: Option<map<string, Targets>>): (m: map<string, Targets>) {
    if options.None? then map[] else options.value
  }

  /** The connects of the plan are those of the handlers. */
  lemma {:induction false} PlanFromMembers(hs: seq<Attribute>, prefix: string,
                                           senders: map<string, Targets>, channels: map<string, Targets>, q: Request)
    ensures q in PlanFrom(hs, prefix, senders, channels) <==>
            exists h :: h in hs && q in HandlerRequests(h, prefix, senders, channels)
    decreases |hs|
  {
    if hs != [] {
      var first, more := HandlerRequests(hs[0], prefix, senders, channels), PlanFrom(hs[1..], prefix, senders, channels);
      assert PlanFrom(hs, prefix, senders, channels) == first + more;
      PlanFromMembers(hs[1..], prefix, senders, channels, q);
      if q in first {
        assert hs[0] in hs;
      } else if q in more {
        var h :| h in hs[1..] && q in HandlerRequests(h, prefix, senders, channels);
        assert h in hs;
      } else {
        assert forall h :: h in hs ==> h == hs[0] || h in hs[1..] by {
          assert hs == [hs[0]] + hs[1..];
        }
      }
    }
  }

  /** Each connect of the plan belongs to one of the object's handlers. */
  lemma PlanMembers(attrs: seq<Attribute>, prefix: string, senders: map<string, Targets>, channels: map<string, Targets>,
                    q: Request)
    ensures q in Plan(attrs, prefix, senders, channels) <==>
            exists a :: a in attrs && IsHandler(a, prefix) && q in HandlerRequests(a, prefix, senders, channels)
  {
    HandlersMembers(attrs, prefix);
    PlanFromMembers(Handlers(attrs, prefix), prefix, senders, channels, q);
  }

  /**
   * A handler whose signal has no sender and no channel entry (or only
   * empty lists) gets exactly one connect, to any sender and any channel,
   * which appends it to the `Any` bucket of its signal.
   */
  lemma DefaultConnection(h: Attribute, prefix: string, senders: map<string, Targets>, channels: map<string, Targets>,
                          reg: Registry)
    requires TargetList(senders, SignalName(prefix, h.name)) == []
    requires TargetList(channels, SignalName(prefix, h.name)) == []
    ensures HandlerRequests(h, prefix, senders, channels) ==
            [Request(h.bound, Concrete(SignalName(prefix, h.name)), Some(Any), Some(Any))]
    ensures var signal := Concrete(SignalName(prefix, h.name));
            var (after, outcome) := ApplyAll(reg, HandlerRequests(h, prefix, senders, channels));
            && outcome == Pass
            && (forall s, x :: Bucket(after, s, x) ==
                  if s == signal && x == Any then Bucket(reg, s, x) + [h.bound] else Bucket(reg, s, x))
  {
    var qs := HandlerRequests(h, prefix, senders, channels);
    var q := qs[0];
    assert qs[1..] == [];
    assert ApplyAll(reg, qs) == (Apply(reg, q).value, Pass);
  }

  // ---------------------------------------------------------------------
  // Making the connections
  // ---------------------------------------------------------------------

  /** One connect of the plan, through `Connections.connect` (a bound method is always callable). */
  function Apply(reg: Registry, q: Request): (res: Result<Registry, Error>) {
    Register(reg, q.receiver, true, q.signal, q.sender, q.channel)
  }

  /** The registry after making the connects in order, the first failing one ending the run. */
  function ApplyAll(reg: Registry, qs: seq<Request>): (res: (Registry, Outcome<Error>))
    decreases |qs|
  {
    if qs == [] then (reg, Pass)
    else
      match Apply(reg, qs[0])
      case Err(e) => (reg, Fail(e))
      case Ok(next) => ApplyAll(next, qs[1..])
  }

  /** Running two lists of connects one after the other is running their concatenation. */
  lemma {:induction false} ApplyAllAppend(reg: Registry, a: seq<Request>, b: seq<Request>)
    ensures ApplyAll(reg, a + b) ==
            if ApplyAll(reg, a).1.Fail? then ApplyAll(reg, a) else ApplyAll(ApplyAll(reg, a).0, b)
    decreases |a|
  {
    if a == [] {
      assert a + b == b;
    } else {
      assert (a + b)[0] == a[0] && (a + b)[1..] == a[1..] + b;
      match Apply(reg, a[0])
      case Err(e) =>
      case Ok(next) => ApplyAllAppend(next, a[1..], b);
    }
  }

  /** The receivers the connects add to bucket `[s][x]`, in order. */
  function ReceiversFor(qs: seq<Request>, s: Key, x: Key): (rs: seq<Receiver>)
    decreases |qs|
  {
    if qs == [] then []
    else
      var q := qs[0];
      (if q.sender.Some? && q.signal == s && ConnectKey(q.sender.value, q.channel) == x then [q.receiver] else [])
        + ReceiversFor(qs[1..], s, x)
  }

  /**
   * The connects succeed exactly when each names a sender; the one that
   * does not fails with the anonymous-connect error.
   */
  lemma {:induction false} ApplyAllOutcome(reg: Registry, qs: seq<Request>)
    ensures ApplyAll(reg, qs).1 == Pass <==> AllNamed(qs)
    ensures ApplyAll(reg, qs).1.Fail? ==> ApplyAll(reg, qs).1.error == AnonymousConnect
    decreases |qs|
  {
    if qs != [] {
      ApplyOutcome(reg, qs[0]);
      AllNamedCons(qs);
      if qs[0].sender.Some? {
        var next := Apply(reg, qs[0]).value;
        assert ApplyAll(reg, qs) == ApplyAll(next, qs[1..]);
        ApplyAllOutcome(next, qs[1..]);
      } else {
        assert ApplyAll(reg, qs).1 == Fail(AnonymousConnect);
      }
    }
  }

  /** Every connect in `qs` names a sender. */
  predicate AllNamed(qs: seq<Request>) {
    forall i :: 0 <= i < |qs| ==> qs[i].sender.Some?
  }

  /** `AllNamed` of a non-empty list, head and tail. */
  lemma AllNamedCons(qs: seq<Request>)
    requires qs != []
    ensures AllNamed(qs) <==> qs[0].sender.Some? && AllNamed(qs[1..])
  {
    assert forall i :: 0 <= i < |qs[1..]| ==> qs[1..][i] == qs[i + 1];
  }

  /** One connect made by autoconnect fails exactly when it has no sender. */
  lemma ApplyOutcome(reg: Registry, q: Request)
    ensures Apply(reg, q).Ok? <==> q.sender.Some?
    ensures Apply(reg, q).Err? ==> Apply(reg, q).error == AnonymousConnect
  {
  }

  /** Concatenation regroups (a generic sequence fact, used to regroup bucket contents). */
  lemma AppendAssoc<T>(a: seq<T>, b: seq<T>, c: seq<T>)
    ensures (a + b) + c == a + (b + c)
  {
  }

  /** One successful connect, seen from one bucket. */
  lemma ApplyBucket(reg: Registry, q: Request, s: Key, x: Key)
    requires q.sender.Some?
    ensures Apply(reg, q).Ok?
    ensures Bucket(Apply(reg, q).value, s, x) ==
            Bucket(reg, s, x) + (if q.signal == s && ConnectKey(q.sender.value, q.channel) == x then [q.receiver] else [])
  {
    AddBuckets(reg, q.receiver, q.signal, ConnectKey(q.sender.value, q.channel));
  }

  /** After a successful run every bucket has gained exactly its receivers, in connect order. */
  lemma {:induction false} ApplyAllBuckets(reg: Registry, qs: seq<Request>, s: Key, x: Key)
    requires AllNamed(qs)
    ensures Bucket(ApplyAll(reg, qs).0, s, x) == Bucket(reg, s, x) + ReceiversFor(qs, s, x)
    decreases |qs|
  {
    if qs != [] {
      var q, tail := qs[0], qs[1..];
      var next := Apply(reg, q).value;
      AllNamedCons(qs);
      ApplyAllBuckets(next, tail, s, x);
      var mine := if q.signal == s && ConnectKey(q.sender.value, q.channel) == x then [q.receiver] else [];
      ApplyBucket(reg, q, s, x);
      AppendAssoc(Bucket(reg, s, x), mine, ReceiversFor(tail, s, x));
    }
  }

  /** A handler's connects name one of its listed senders, or `Any`. */
  lemma HandlerRequestSenders(h: Attribute, prefix: string, senders: map<string, Targets>, channels: map<string, Targets>,
                              q: Request)
    requires q in HandlerRequests(h, prefix, senders, channels)
    ensures q.sender in SendersOf(h, prefix, senders) || q.sender == Some(Any)
  {
    var signal := Concrete(SignalName(prefix, h.name));
    var sl, cl := SendersOf(h, prefix, senders), ChannelsOf(h, prefix, channels);
    var viaSenders := SenderRequests(h.bound, signal, sl);
    var others := ChannelRequests(h.bound, signal, cl) + DefaultRequests(h.bound, signal, sl, cl);
    assert q in viaSenders || q in others;
    if q in viaSenders {
      var j :| 0 <= j < |viaSenders| && viaSenders[j] == q;
      assert sl[j] in sl;
    }
  }

  /** Only a sender entry of `None` can make `autoconnect_signals` fail. */
  lemma AutoconnectSucceeds(reg: Registry, attrs: seq<Attribute>, prefix: string,
                            senders: map<string, Targets>, channels: map<string, Targets>)
    requires forall signal :: signal in senders ==> None !in TargetList(senders, signal)
    ensures ApplyAll(reg, Plan(attrs, prefix, senders, channels)).1 == Pass
  {
    var qs := Plan(attrs, prefix, senders, channels);
    forall i | 0 <= i < |qs| ensures qs[i].sender.Some? {
      var q := qs[i];
      assert exists a :: a in attrs && IsHandler(a, prefix) && q in HandlerRequests(a, prefix, senders, channels) by {
        PlanMembers(attrs, prefix, senders, channels, q);
      }
      var h :| h in attrs && IsHandler(h, prefix) && q in HandlerRequests(h, prefix, senders, channels);
      HandlerRequestSenders(h, prefix, senders, channels, q);
    }
    ApplyAllOutcome(reg, qs);
  }

  // ---------------------------------------------------------------------
  // The procedure
  // ---------------------------------------------------------------------

  /** `for sender in senderlist: connect(method, signal, sender, None)`, stopping at the first failure. */
  method ConnectSenders(c: Connections, m: Receiver, signal: Key, senderlist: seq<Option<Key>>)
    returns (outcome: Outcome<Error>)
    requires c.Valid()
    modifies c.connmap
    ensures c.Valid()
    ensures (c.connmap.connections, outcome) ==
            ApplyAll(old(c.connmap.connections), SenderRequests(m, signal, senderlist))
  {
    ghost var todo := SenderRequests(m, signal, senderlist);
    ghost var whole := ApplyAll(c.connmap.connections, todo);
    assert todo[0..] == todo;
    for j := 0 to |senderlist|
      invariant c.Valid()
      invariant whole == ApplyAll(c.connmap.connections, todo[j..])
    {
      assert todo[j..][0] == todo[j] && todo[j..][1..] == todo[j + 1..];
      var res := c.Connect(m, true, signal, senderlist[j], None);
      if res.Fail? {
        return res;
      }
    }
    assert todo[|senderlist|..] == [];
    outcome := Pass;
  }

  /** `for channel in channellist: connect(method, signal, Any, channel)`, stopping at the first failure. */
  method ConnectChannels(c: Connections, m: Receiver, signal: Key, channellist: seq<Option<Key>>)
    returns (outcome: Outcome<Error>)
    requires c.Valid()
    modifies c.connmap
    ensures c.Valid()
    ensures (c.connmap.connections, outcome) ==
            ApplyAll(old(c.connmap.connections), ChannelRequests(m, signal, channellist))
  {
    ghost var todo := ChannelRequests(m, signal, channellist);
    ghost var whole := ApplyAll(c.connmap.connections, todo);
    assert todo[0..] == todo;
    for j := 0 to |channellist|
      invariant c.Valid()
      invariant whole == ApplyAll(c.connmap.connections, todo[j..])
    {
      assert todo[j..][0] == todo[j] && todo[j..][1..] == todo[j + 1..];
      var res := c.Connect(m, true, signal, Some(Any), channellist[j]);
      if res.Fail? {
        return res;
      }
    }
    assert todo[|channellist|..] == [];
    outcome := Pass;
  }

  /**
   * The connects for one handler: one per listed sender, one per listed
   * channel, and the default one when neither list names any.
   */
  method ConnectHandler(c: Connections, h: Attribute, prefix: string,
                        senders: map<string, Targets>, channels: map<string, Targets>)
    returns (outcome: Outcome<Error>)
    requires c.Valid()
    modifies c.connmap
    ensures c.Valid()
    ensures (c.connmap.connections, outcome) ==
            ApplyAll(old(c.connmap.connections), HandlerRequests(h, prefix, senders, channels))
  {
    var signal := SignalName(prefix, h.name);
    var senderlist := TargetList(senders, signal);
    var channellist := TargetList(channels, signal);
    ghost var start := c.connmap.connections;
    ghost var viaSenders := SenderRequests(h.bound, Concrete(signal), senderlist);
    ghost var viaChannels := ChannelRequests(h.bound, Concrete(signal), channellist);
    ghost var byDefault := DefaultRequests(h.bound, Concrete(signal), senderlist, channellist);
    ApplyAllAppend(start, viaSenders, viaChannels + byDefault);
    outcome := ConnectSenders(c, h.bound, Concrete(signal), senderlist);
    if outcome.Fail? {
      return;
    }
    ghost var middle := c.connmap.connections;
    ApplyAllAppend(middle, viaChannels, byDefault);
    outcome := ConnectChannels(c, h.bound, Concrete(signal), channellist);
    if outcome.Fail? {
      return;
    }
    if senderlist == [] && channellist == [] {
      assert byDefault[0] == Request(h.bound, Concrete(signal), Some(Any), Some(Any)) && byDefault[1..] == [];
      outcome := c.Connect(h.bound, true, Concrete(signal), Some(Any), Some(Any));
    }
  }

  /** The handler-collecting loop: the attributes that have the prefix and are methods. */
  method CollectHandlers(attrs: seq<Attribute>, prefix: string) returns (handlers: seq<Attribute>)
    ensures handlers == Handlers(attrs, prefix)
  {
    handlers := [];
    for i := 0 to |attrs|
      invariant handlers == Handlers(attrs[..i], prefix)
    {
      assert attrs[..i + 1][..i] == attrs[..i];
      var a := attrs[i];
      if prefix <= a.name {
        if a.isMethod {
          handlers := handlers + [a];
        }
      }
    }
    assert attrs[..|attrs|] == attrs;
  }

  /**
   * `autoconnect_signals`: collects the handlers among the attributes,
   * then makes their connects in order; the first failing connect ends
   * the procedure with its error, the connects before it remaining.
   */
  method AutoconnectSignals(c: Connections, attrs: seq<Attribute>, prefix: string,
                            senders: Option<map<string, Targets>>, channels: Option<map<string, Targets>>)
    returns (outcome: Outcome<Error>)
    requires c.Valid()
    modifies c.connmap
    ensures c.Valid()
    ensures (c.connmap.connections, outcome) ==
            ApplyAll(old(c.connmap.connections), Plan(attrs, prefix, OrEmpty(senders), OrEmpty(channels)))
  {
    var senderOptions := if senders.None? then map[] else senders.value;
    var channelOptions := if channels.None? then map[] else channels.value;
    var handlers := CollectHandlers(attrs, prefix);
    ghost var whole := ApplyAll(c.connmap.connections, PlanFrom(handlers, prefix, senderOptions, channelOptions));
    assert handlers[0..] == handlers;
    for k := 0 to |handlers|
      invariant c.Valid()
      invariant whole == ApplyAll(c.connmap.connections, PlanFrom(handlers[k..], prefix, senderOptions, channelOptions))
    {
      ghost var before := c.connmap.connections;
      ghost var mine := HandlerRequests(handlers[k], prefix, senderOptions, channelOptions);
      ghost var later := PlanFrom(handlers[k + 1..], prefix, senderOptions, channelOptions);
      assert PlanFrom(handlers[k..], prefix, senderOptions, channelOptions) == mine + later by {
        assert handlers[k..][0] == handlers[k] && handlers[k..][1..] == handlers[k + 1..];
      }
      ApplyAllAppend(before, mine, later);
      outcome := ConnectHandler(c, handlers[k], prefix, senderOptions, channelOptions);
      if outcome.Fail? {
        return;
      }
    }
    assert handlers[|handlers|..] == [];
    outcome := Pass;
  }
}
