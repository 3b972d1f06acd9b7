# simplesignals dispatcher core, modelled in Dafny

This project models the core of `sisi.py`, the in-process signal dispatcher
of *simplesignals*, and proves properties of that model. The parts are:

- **Sentinels and values** (`signals.dfy`). A signal, sender or channel
  identity is a `Key`: a concrete name, the wildcard `Any` or the default
  sender `Anonymous`. Python's `None` is an `Option`. A receiver is an
  identity with a name and its declared parameter list. That list stands in
  for `inspect.signature`.
- **Insertion-ordered dictionaries** (`dicts.dfy`). Python dicts iterate in
  insertion order, and resolution order depends on it. A `Dict` is a key
  sequence plus a map.
- **The registry** (`connection_map.dfy`). `ConnectionMap` owns a two-level
  dictionary: signal, then sender-or-channel key, then the receivers in
  registration order.
  - `Connect` updates it in place.
  - `GetReceivers` is the wildcard-resolution algorithm with its nested loops.
  - Both are proved against the value functions `Add` and `Resolve`, whose
    properties are proved as lemmas.
- **The binder** (`safecall.dfy`). `SafeCall` binds a keyword payload to a
  receiver's parameters and produces the call made, or the error raised. It
  is proved equal to the recursive `Bind`. `BindMeansDeclared` then shows
  that `Bind` does what a declarative description of the binding says.
  `Invoke` is the call `safecall(r, **payload)` itself, which fails before
  any binding when the payload has an entry named `iscalled`, the name of
  `safecall`'s own parameter.
- **The facade** (`connections.dfy`). `Connections.Connect` checks its
  arguments and registers under the channel or the sender. `Connections.Send`:
  - resolves the receivers;
  - adds `sender` (and `channel`) to the payload;
  - calls the receivers in order until the first failure.
- **Autoconnection** (`autoconnect.dfy`). `AutoconnectSignals` turns handler
  names into signal names. It then issues one connect per listed sender, one
  per listed channel, and a catch-all connect when the signal has neither. It
  is proved against the connection plan `Plan`.

Effects the model cannot see are inputs:
- whether a receiver is callable is a flag;
- an object's attributes are a list;
- whether a receiver raises when called is an oracle `raises: Call -> bool`.

## Model

| member | source | states |
|---|---|---|
| Dicts.Dict.Put | sisi.py:55-65 | assigning a key sets its value; an existing key keeps its place in the order, a new key goes last; well-formedness is kept |
| Dicts.PutPut | sisi.py:60-65 | assigning the same key twice is the same as assigning the second value (the later write to `[signal][sender]` overwrites the earlier) |
| ConnectionMaps.Add | sisi.py:52-65 | `connect` creates a missing signal key, and a missing sender key in that signal's map, at the end of its dictionary's order; existing keys keep their places |
| ConnectionMaps.AddBuckets | sisi.py:58-65 | `connect` appends exactly one receiver to the end of bucket `[signal][sender]` and changes no other bucket |
| ConnectionMaps.AddOtherSignals | sisi.py:52-65 | `connect` leaves the sender map of every other signal as it was |
| ConnectionMaps.AddValid | sisi.py:52-65 | after `connect` both dictionary levels are still well-formed |
| ConnectionMaps.ConnectionMap.constructor | sisi.py:49-50 | a new registry is empty and well-formed |
| ConnectionMaps.ConnectionMap.Connect | sisi.py:52-65 | the in-place updates of `connect` leave the registry `Add` describes and keep it well-formed |
| ConnectionMaps.ConnectionMap.GetReceivers | sisi.py:67-109 | the nested loops of `get_receivers` return exactly `Resolve` of the registry, which they only read |
| ConnectionMaps.CollectSenders | sisi.py:92-108 | the inner loop over one signal bucket's sender keys appends exactly the matching sender buckets, in visiting order |
| ConnectionMaps.ResolveConcrete | sisi.py:76-108 | for a concrete signal S and a sender X other than `Any`/`Anonymous` the result is `[S][X]`, `[S][Any]`, `[Any][X]`, `[Any][Any]` concatenated in that order, absent buckets contributing nothing |
| ConnectionMaps.ResolveBySignal | sisi.py:76-83 | a non-wildcard signal is resolved on its own signal bucket first, then on the `Any` signal bucket |
| ConnectionMaps.SenderBucketsConcrete | sisi.py:94-102 | within one signal bucket, a sender other than `Any` visits its own sender bucket and then the `Any` one |
| ConnectionMaps.ResolveUnknownSignal | sisi.py:77-87 | a concrete signal with no bucket of its own and no `Any` signal bucket resolves to no receivers |
| ConnectionMaps.VisitsExactly | sisi.py:74-108 | the visited (signal, sender) buckets are pairwise distinct, and a bucket is visited exactly when it exists and both its keys match the emission (`Anonymous` matched as `Any`) |
| ConnectionMaps.BucketsLength | sisi.py:105-108 | concatenating bucket lists keeps every receiver: the length is the summed bucket sizes |
| ConnectionMaps.ResolveLength | sisi.py:74-108 | the number of receivers reached is the summed size of the visited buckets |
| ConnectionMaps.BucketsMembers | sisi.py:105-108 | a receiver is in the collected list exactly when it is in one of the collected buckets |
| ConnectionMaps.ResolveMembers | sisi.py:67-109 | a receiver is reached exactly when it is registered in some bucket whose signal key and sender key both match the emission |
| ConnectionMaps.ReachedIsRegistered | sisi.py:67-109 | every receiver reached is registered in a bucket whose signal key and sender key match the emission |
| ConnectionMaps.RegisteredIsReached | sisi.py:67-109 | every receiver registered in a bucket whose signal key and sender key match the emission is reached |
| ConnectionMaps.ReachedMonotone | sisi.py:67-109 | resolution depends only on bucket membership: a registry holding a receiver wherever another does reaches it wherever the other does |
| ConnectionMaps.AddKeepsReached | sisi.py:52-65 | adding a receiver never removes one from what an emission reaches |
| ConnectionMaps.AddAddsOnlyReceiver | sisi.py:52-65 | the only receiver adding can bring into what an emission reaches is the one added |
| ConnectionMaps.AddedIsReached | sisi.py:52-65 | the receiver added is reached by every emission whose signal and sender match the keys it was added under |
| ConnectionMaps.AnonymousReachesEverySender | sisi.py:70-93 | an anonymous emission reaches every receiver of the signal, whatever sender key it was registered under |
| ConnectionMaps.VisitsOverMembers | sisi.py:88-108 | for any list of signal keys, the visited pairs are those keys with their matching existing sender keys |
| ConnectionMaps.VisitsOverDistinct | sisi.py:88-108 | distinct signal keys with distinct sender keys give distinct visited pairs |
| SafeCall.SafeCall | sisi.py:232-261 | the binding loop returns exactly `Bind`: the call made (receiver, positional values, keyword values) or the error raised |
| SafeCall.BindMeansDeclared | sisi.py:238-261 | for a well-formed signature the binding: <br>• succeeds exactly when every parameter is of a supported kind and every named one has a payload entry; <br>• passes the positional-or-keyword values positionally in declaration order; <br>• passes as keywords exactly the keyword-only entries, plus, with `**kwargs`, every entry not bound by name; <br>• otherwise fails on the first unsatisfied parameter with that parameter's error |
| SafeCall.InvokeMeansDeclared | sisi.py:232-261 | the call `safecall(r, **payload)` made by `send` fails with `DuplicateArgument` when the payload has an `iscalled` entry, whatever the receiver, since that name is `safecall`'s own parameter; otherwise it binds as `BindMeansDeclared` describes |
| SafeCall.BindFromMeansDeclared | sisi.py:238-260 | the same description holds from any point of the loop reached by accepting named parameters |
| SafeCall.RejectAt | sisi.py:240-260 | an unsatisfied parameter stops the loop with its own error: `MissingArgument` naming receiver and parameter, `MissingKeyword`, or `Unsupported` for positional-only and variadic-positional kinds |
| SafeCall.PositionalStep | sisi.py:240-250 | accepting a positional-or-keyword parameter consumes its payload entry and appends its value to the positional arguments |
| SafeCall.KeywordStep | sisi.py:252-253 | accepting a keyword-only parameter consumes its payload entry and adds it to the keyword arguments |
| SafeCall.VarKeywordLast | sisi.py:254-256 | at `**kwargs`, which is last, the binding succeeds with the positional values accepted so far |
| SafeCall.VarKeywordKwargs | sisi.py:254-256 | `**kwargs` receives exactly the entries not yet consumed, which with the keyword-only ones are the expected keyword arguments |
| Dispatch.Register | sisi.py:126-133 | a non-callable receiver fails with `NotCallable` and a `None` sender with `AnonymousConnect`, in that order, leaving the registry untouched; otherwise the result is success with `Add` under the connect key |
| Dispatch.ConnectBuckets | sisi.py:130-133 | a connect with a channel appends the receiver to the channel's bucket and leaves the sender's own bucket as it was; without a channel it appends to the sender's bucket; no other bucket changes |
| Dispatch.ConnectedIsReached | sisi.py:120-133 | after a successful connect, the receiver is reached by every emission whose signal matches the connected signal and whose sender matches the key it was registered under |
| Dispatch.ConnectKeepsReached | sisi.py:130-133 | a connect never removes a receiver from what an emission reaches |
| Dispatch.ConnectAddsOnlyReceiver | sisi.py:130-133 | the only receiver a connect can add to an emission's receivers is the one connected |
| Dispatch.Connections.constructor | sisi.py:117-118 | a new facade owns a fresh, empty registry |
| Dispatch.Connections.Connect | sisi.py:120-133 | on a `Register` error, `connect` fails with that error and leaves the registry as it was; otherwise it passes and the registry is the one `Register` gives |
| Dispatch.SentBy | sisi.py:142-145 | the reported sender is never `Any`, and every sender other than `Any` is kept |
| Dispatch.SendFromAnyIsAnonymous | sisi.py:142-157 | a send from `Any` calls the same receivers, with the same payload and the same outcome, as an anonymous send |
| Dispatch.ChannelIgnoresSender | sisi.py:147-150 | when a channel is given, receivers are resolved on the channel, so the sender does not change which receivers are reached |
| Dispatch.Enriched | sisi.py:152-154 | the payload passed on always has `sender` set to the reported sender, and has `channel` set when a channel is given; every other entry is the caller's |
| Dispatch.DeliverFailFast | sisi.py:156-157 | the calls are what `safecall` makes of a prefix of the receivers, in order; the send ends normally exactly when every receiver was called and none raised; otherwise it ends with the last call's exception, or with the `safecall` error of the first receiver not called |
| Dispatch.DeliveredCons | sisi.py:156-157 | a receiver that binds and does not raise, followed by an in-order delivery to the rest, is an in-order delivery |
| Dispatch.CallInOrder | sisi.py:156-157 | the receiver loop of `send` makes exactly the calls, and ends with exactly the failure, that `Deliver` gives, including the failure of the call of `safecall` itself on an `iscalled` entry |
| Dispatch.Connections.Send | sisi.py:135-157 | for a payload that, like Python's `**kwargs`, holds no `self`, `signal`, `sender` or `channel` entry, `send` delivers the enriched payload to `Resolve` of the registry on the channel, or else on the reported sender, in resolution order and fail-fast; the registry is only read |
| Dispatch.CalleeNameCollides | sisi.py:156-157 | a payload entry named `iscalled` makes the first call of `safecall` fail: when any receiver is resolved, none is called and the send ends with `DuplicateArgument` |
| Dispatch.SendUnknownSignal | sisi.py:135-157 | sending a concrete signal that has no bucket, with no `Any` signal bucket either, calls nothing and ends normally |
| Autoconnect.ReplaceChar | sisi.py:337 | `str.replace` of one character keeps the length and replaces every occurrence, position by position |
| Autoconnect.DropPrefix | sisi.py:337 | `name[len(prefix):]` is what follows the prefix, or empty when the name is shorter |
| Autoconnect.SignalName | sisi.py:337 | the signal name is the handler name after the prefix, with every `_` turned into a space |
| Autoconnect.HandlerName | sisi.py:295-300 | the documented handler name of a signal has the prefix and one character per signal character |
| Autoconnect.SignalOfHandlerName | sisi.py:295-300 | a signal name without `_` is recovered from its handler name |
| Autoconnect.HandlerNameOfSignal | sisi.py:295-300 | a prefixed name without spaces is the handler name of the signal derived from it |
| Autoconnect.ReplaceBack | sisi.py:337 | replacing back restores a string that did not contain the replacement character |
| Autoconnect.HandlersMembers | sisi.py:328-333 | the handlers are exactly the attributes whose name has the prefix and that are methods |
| Autoconnect.CollectHandlers | sisi.py:328-333 | the collecting loop yields exactly those handlers, in attribute order |
| Autoconnect.NoTargets | sisi.py:339-344 | a signal gets no target from a dictionary exactly when it has no entry there or its entry is an empty list; a single value, `None` included, always gives one target |
| Autoconnect.HandlerRequestsLayout | sisi.py:335-361 | a handler's connects go to the signal its name spells: senders first, then channels, then the catch-all connect exactly when both lists are empty |
| Autoconnect.DefaultConnection | sisi.py:358-361 | with no sender and no channel listed, a handler gets exactly one connect, to `Any` sender and `Any` channel; it succeeds and appends the handler to the signal's `Any` bucket and to no other |
| Autoconnect.PlanFromMembers | sisi.py:335-361 | a connect is in the plan of a handler list exactly when it is a connect of one of those handlers |
| Autoconnect.PlanMembers | sisi.py:328-361 | a connect is in the plan exactly when it belongs to one of the object's handlers |
| Autoconnect.ApplyAllAppend | sisi.py:335-361 | running two lists of connects one after the other is running their concatenation, stopping at the first failure |
| Autoconnect.ApplyAllOutcome | sisi.py:126-133 | a sequence of connects succeeds exactly when each one names a sender; a failure is the anonymous-connect error |
| Autoconnect.ApplyOutcome | sisi.py:126-133 | one connect made by autoconnection fails exactly when it has no sender, with the anonymous-connect error |
| Autoconnect.ApplyBucket | sisi.py:130-133 | one successful connect appends its receiver to its own bucket and to no other |
| Autoconnect.ApplyAllBuckets | sisi.py:335-361 | after a successful run every bucket has gained exactly the receivers of the connects aimed at it, in connect order |
| Autoconnect.HandlerRequestSenders | sisi.py:339-361 | a handler's connects name one of its listed senders, or `Any` |
| Autoconnect.AutoconnectSucceeds | sisi.py:339-347 | when no sender entry lists `None`, every connect of `autoconnect_signals` succeeds |
| Autoconnect.ConnectSenders | sisi.py:346-347 | the sender loop leaves the registry and the outcome that running its connects in order gives |
| Autoconnect.ConnectChannels | sisi.py:356-357 | the channel loop leaves the registry and the outcome that running its connects in order gives |
| Autoconnect.ConnectHandler | sisi.py:335-361 | one handler's loops leave the registry and the outcome that running its connects in order gives |
| Autoconnect.AutoconnectSignals | sisi.py:292-361 | `autoconnect_signals` (with `None` option dictionaries read as empty) leaves the registry and outcome of running the whole plan in order; a failing connect ends it, and the connects before it remain |

## Left out

- Logging and warnings are not modelled (sisi.py:53, 86, 104, 143, 194-202, 226-228, 321). They are diagnostics and do not change any outcome.
- The known-signal and known-channel sets and `add_signals`, `remove_signals`, `add_channels` and `remove_channels` are not modelled (sisi.py:170-171, 264-289). They are consulted only for warnings.
- The module globals and the package-level `connect` and `send` are not modelled separately (sisi.py:169-172, 180-229). They log and forward to one `Connections` object, which the model passes explicitly. The forward at sisi.py:229 also fails on a payload entry named `self`: it then binds `self` of `Connections.send` twice and raises a `TypeError` before any receiver is called. The model does not capture that failure.
- `prettyprint` is console output and is not modelled.
- `Representer` and its `__repr__` are not modelled: the sentinels are the `Any` and `Anonymous` constructors of `Key`.
- Reflection is replaced by inputs:
  - `inspect.signature` by a receiver's parameter list;
  - `callable` by a flag;
  - `dir`, `getattr` and `inspect.ismethod` by a list of attributes.
  The attribute list is taken in the order given. `dir` returns names sorted, and the model does not impose that order.
- A receiver's own effects are not modelled. A call is recorded as (receiver, positional values, keyword values), and whether it raises is the oracle `raises`.
- `Dispatch.Register`: a non-callable receiver that is a tuple of other than one element makes the `%` formatting at sisi.py:127 raise a `TypeError` instead of the `ValueError` modelled as `NotCallable`; nothing is registered either way.
- Receivers are taken to have a `__name__`. For a callable without one (a `functools.partial`, an instance with `__call__`), a missing positional-or-keyword argument raises an `AttributeError` at sisi.py:244, not the `TypeError` modelled as `MissingArgument`.
- Sending with `sender=None` is not modelled: the sender of a send is always a `Key`.
- Payload entries named `self`, `signal`, `sender` or `channel` are not modelled. Python binds those names to the parameters of `Connections.send`, so its `**kwargs` never holds them (sisi.py:135), and `Dispatch.Connections.Send` requires their absence.
- Aliasing between the registry's nested dictionaries and lists is not modelled. The registry is a value that `Connect` reassigns, since Python never leaks those lists.
- Error message texts are not modelled; errors are constructors carrying the data the messages mention.
- `__main__.py` is a demo script and is not modelled.
- A missing keyword-only argument lets the `KeyError` of `pop` escape (sisi.py:252-253), not the `TypeError` of a missing positional-or-keyword one; the model has a separate `MissingKeyword` error.
- Default arguments are explicit inputs: `connect`'s `signal=Any`, `sender=Any` and `channel=None`, `send`'s `sender=Anonymous` and `channel=None`, and `autoconnect_signals`' `prefix="on__"` (sisi.py:120, 135, 292). Callers of the model pass those values themselves.
- A `Payload` is a map, so the insertion order of the `**kwargs` that a receiver with a variadic keyword parameter gets is not modelled; only which entries it gets and their values.
