/**
 * `safecall`: binds a keyword payload to a receiver's declared
 * parameters, positional-or-keyword parameters positionally in
 * declaration order, keyword-only parameters by keyword, and a variadic
 * keyword parameter to whatever is left; anything else is refused.
 */
module SafeCall {
  import opened Wrappers
  import opened Signals

  /**
   * The binding loop from a given state: `rest` holds the payload entries
   * not yet consumed, `args` and `kwargs` what has been accepted so far.
   */
  function BindFrom(r: Receiver, ps: seq<Param>, rest: Payload, args: seq<Value>, kwargs: Payload): (res: Result<Call, Error>)
    decreases |ps|
  {
    if ps == [] then Ok(Call(r, args, kwargs))
    else
      var p := ps[0];
      match p.kind
      case PositionalOrKeyword =>
        if p.name in rest then BindFrom(r, ps[1..], rest - {p.name}, args + [rest[p.name]], kwargs)
        else Err(MissingArgument(r.name, p.name))
      case KeywordOnly =>
        if p.name in rest then BindFrom(r, ps[1..], rest - {p.name}, args, kwargs[p.name := rest[p.name]])
        else Err(MissingKeyword(p.name))
      case VarKeyword =>
        BindFrom(r, ps[1..], map[], args, kwargs + rest)
      case _ =>
        Err(Unsupported(p.kind))
  }

  /** What `safecall(r, **payload)` calls `r` with, or the error it raises instead. */
  function Bind(r: Receiver, payload: Payload): (res: Result<Call, Error>) {
    BindFrom(r, r.params, payload, [], map[])
  }

  /** The name of `safecall`'s own first parameter, the receiver to call. */
  const CalleeParam := "iscalled"

  /**
   * What the call `safecall(r, **payload)` does: a payload entry named
   * like `safecall`'s own parameter makes the call fail before any
   * binding; otherwise it is the binding.
   */
  function Invoke(r: Receiver, payload: Payload): (res: Result<Call, Error>) {
    if CalleeParam in payload then Err(DuplicateArgument(CalleeParam)) else Bind(r, payload)
  }

  /** `safecall`: the loop over the declared parameters, then the call. */
  method SafeCall(r: Receiver, payload: Payload) returns (result: Result<Call, Error>)
    ensures result == Bind(r, payload)
  {
    var argsToInspect := payload;
    var acceptedArgs: seq<Value> := [];
    var acceptedKwargs: Payload := map[];
    var i := 0;
    while i < |r.params|
      invariant 0 <= i <= |r.params|
      invariant Bind(r, payload) == BindFrom(r, r.params[i..], argsToInspect, acceptedArgs, acceptedKwargs)
    {
      var param := r.params[i];
      match param.kind {
        case PositionalOrKeyword =>
          if param.name !in argsToInspect {
            return Err(MissingArgument(r.name, param.name));
          }
          var arg := argsToInspect[param.name];
          argsToInspect := argsToInspect - {param.name};
          acceptedArgs := acceptedArgs + [arg];
        case KeywordOnly =>
          if param.name !in argsToInspect {
            return Err(MissingKeyword(param.name));
          }
          acceptedKwargs := acceptedKwargs[param.name := argsToInspect[param.name]];
          argsToInspect := argsToInspect - {param.name};
        case VarKeyword =>
          acceptedKwargs := acceptedKwargs + argsToInspect;
          argsToInspect := map[];
        case _ =>
          return Err(Unsupported(param.kind));
      }
      i := i + 1;
    }
    return Ok(Call(r, acceptedArgs, acceptedKwargs));
  }

  // ---------------------------------------------------------------------
  // What the binding means, stated over the whole parameter list
  // ---------------------------------------------------------------------

  /** A parameter bound by name from the payload. */
  predicate Named(p: Param) {
    p.kind == PositionalOrKeyword || p.kind == KeywordOnly
  }

  /** A parameter kind the binder handles. */
  predicate Supported(p: Param) {
    Named(p) || p.kind == VarKeyword
  }

  /** The payload satisfies this parameter. */
  predicate Accepts(p: Param, payload: Payload) {
    Supported(p) && (Named(p) ==> p.name in payload)
  }

  /** The error raised for a parameter the payload does not satisfy. */
  function Rejection(r: Receiver, p: Param): (e: Error) {
    match p.kind
    case PositionalOrKeyword => MissingArgument(r.name, p.name)
    case KeywordOnly => MissingKeyword(p.name)
    case _ => Unsupported(p.kind)
  }

  /**
   * What every Python signature satisfies: parameter names are distinct
   * and a variadic keyword parameter can only come last.
   */
  predicate WellFormed(ps: seq<Param>) {
    && (forall i, j :: 0 <= i < j < |ps| ==> ps[i].name != ps[j].name)
    && (forall i :: 0 <= i < |ps| && ps[i].kind == VarKeyword ==> i == |ps| - 1)
  }

  /** The positional-or-keyword parameters, in declaration order. */
  function Positional(ps: seq<Param>): (pos: seq<Param>)
    decreases |ps|
  {
    if ps == [] then []
    else Positional(ps[..|ps| - 1]) + (if ps[|ps| - 1].kind == PositionalOrKeyword then [ps[|ps| - 1]] else [])
  }

  /** The names bound by name. */
  function NamedSet(ps: seq<Param>): (names: set<string>) {
    set p | p in ps && Named(p) :: p.name
  }

  /** The names of the keyword-only parameters. */
  function KeywordSet(ps: seq<Param>): (names: set<string>) {
    set p | p in ps && p.kind == KeywordOnly :: p.name
  }

  predicate HasVarKeyword(ps: seq<Param>) {
    exists p :: p in ps && p.kind == VarKeyword
  }

  /**
   * The keyword arguments a successful binding passes: the keyword-only
   * entries and, with a variadic keyword parameter, every entry not bound
   * by name.
   */
  function ExpectedKwargs(ps: seq<Param>, payload: Payload): (kwargs: Payload) {
    map n | n in payload && (n in KeywordSet(ps) || (HasVarKeyword(ps) && n !in NamedSet(ps))) :: payload[n]
  }

  /** `args` are the payload values of the parameters `pos`, in order. */
  ghost predicate ArgsMatch(args: seq<Value>, pos: seq<Param>, payload: Payload) {
    |args| == |pos| && forall i :: 0 <= i < |pos| ==> pos[i].name in payload && args[i] == payload[pos[i].name]
  }

  /** The binding of a whole signature, described declaratively. */
  ghost predicate BindsAsDeclared(r: Receiver, ps: seq<Param>, payload: Payload, res: Result<Call, Error>) {
    && (res.Ok? <==> forall p :: p in ps ==> Accepts(p, payload))
    && (res.Ok? ==>
          && res.value.receiver == r
          && ArgsMatch(res.value.args, Positional(ps), payload)
          && res.value.kwargs == ExpectedKwargs(ps, payload))
    && (res.Err? ==>
          exists i :: 0 <= i < |ps| && (forall j :: 0 <= j < i ==> Accepts(ps[j], payload))
                      && !Accepts(ps[i], payload) && res.error == Rejection(r, ps[i]))
  }

  /** How the descriptive sets and lists grow by one parameter. */
  lemma PrefixStep(ps: seq<Param>, k: nat)
    requires k < |ps|
    ensures NamedSet(ps[..k + 1]) == NamedSet(ps[..k]) + (if Named(ps[k]) then {ps[k].name} else {})
    ensures KeywordSet(ps[..k + 1]) == KeywordSet(ps[..k]) + (if ps[k].kind == KeywordOnly then {ps[k].name} else {})
    ensures Positional(ps[..k + 1]) == Positional(ps[..k]) + (if ps[k].kind == PositionalOrKeyword then [ps[k]] else [])
  {
    assert ps[..k + 1] == ps[..k] + [ps[k]];
    assert ps[..k + 1][..k] == ps[..k];
  }

  /** A name bound before position `k` is not the name of the parameter at `k`. */
  lemma FreshName(ps: seq<Param>, k: nat)
    requires WellFormed(ps) && k < |ps|
    ensures ps[k].name !in NamedSet(ps[..k])
  {
    forall q | q in ps[..k] && Named(q)
      ensures q.name != ps[k].name
    {
      var j :| 0 <= j < k && ps[..k][j] == q;
    }
  }

  /** The payload restricted to a set of names, extended by one more name. */
  lemma RestrictInsert(payload: Payload, names: set<string>, n: string)
    requires n in payload
    ensures (map m | m in payload && m in names :: payload[m])[n := payload[n]]
            == map m | m in payload && m in names + {n} :: payload[m]
  {
  }

  /** The restricted payload joined with the entries outside a larger set of names. */
  lemma RestrictJoin(payload: Payload, ks: set<string>, ns: set<string>)
    requires ks <= ns
    ensures (map m | m in payload && m in ks :: payload[m]) + (payload - ns)
            == map m | m in payload && (m in ks || m !in ns) :: payload[m]
  {
  }

  /** The binding stops at a parameter the payload does not satisfy, with that parameter's error. */
  lemma RejectAt(r: Receiver, ps: seq<Param>, payload: Payload, k: nat, rest: Payload, args: seq<Value>, kwargs: Payload)
    requires k < |ps| && !Accepts(ps[k], payload)
    requires forall j :: 0 <= j < k ==> Accepts(ps[j], payload)
    requires rest.Keys <= payload.Keys
    ensures BindsAsDeclared(r, ps, payload, BindFrom(r, ps[k..], rest, args, kwargs))
  {
    assert ps[k..][0] == ps[k];
    assert ps[k] in ps;
  }

  /** The binder's state after accepting the first `k` parameters, all of them bound by name. */
  ghost predicate Reached(ps: seq<Param>, payload: Payload, k: nat, rest: Payload, args: seq<Value>, kwargs: Payload) {
    && WellFormed(ps) && k <= |ps|
    && (forall j :: 0 <= j < k ==> Named(ps[j]) && ps[j].name in payload)
    && rest == payload - NamedSet(ps[..k])
    && ArgsMatch(args, Positional(ps[..k]), payload)
    && kwargs == (map n | n in payload && n in KeywordSet(ps[..k]) :: payload[n])
  }

  /** Accepting a positional-or-keyword parameter moves the state one parameter on. */
  lemma PositionalStep(ps: seq<Param>, payload: Payload, k: nat, rest: Payload, args: seq<Value>, kwargs: Payload)
    requires Reached(ps, payload, k, rest, args, kwargs) && k < |ps|
    requires ps[k].kind == PositionalOrKeyword && ps[k].name in payload
    ensures ps[k].name in rest
    ensures Reached(ps, payload, k + 1, rest - {ps[k].name}, args + [rest[ps[k].name]], kwargs)
  {
    PrefixStep(ps, k);
    FreshName(ps, k);
  }

  /** Accepting a keyword-only parameter moves the state one parameter on. */
  lemma KeywordStep(ps: seq<Param>, payload: Payload, k: nat, rest: Payload, args: seq<Value>, kwargs: Payload)
    requires Reached(ps, payload, k, rest, args, kwargs) && k < |ps|
    requires ps[k].kind == KeywordOnly && ps[k].name in payload
    ensures ps[k].name in rest
    ensures Reached(ps, payload, k + 1, rest - {ps[k].name}, args, kwargs[ps[k].name := rest[ps[k].name]])
  {
    PrefixStep(ps, k);
    FreshName(ps, k);
    RestrictInsert(payload, KeywordSet(ps[..k]), ps[k].name);
  }

  /** The binding from a state reached by accepting the first `k` parameters by name. */
  lemma {:induction false} BindFromMeansDeclared(r: Receiver, ps: seq<Param>, payload: Payload, k: nat,
                                                    rest: Payload, args: seq<Value>, kwargs: Payload)
    requires Reached(ps, payload, k, rest, args, kwargs)
    ensures BindsAsDeclared(r, ps, payload, BindFrom(r, ps[k..], rest, args, kwargs))
    decreases |ps| - k
  {
    if k == |ps| {
      assert ps[..k] == ps;
      assert ps[k..] == [];
      assert !HasVarKeyword(ps);
      assert forall p :: p in ps ==> Accepts(p, payload);
    } else if !Accepts(ps[k], payload) {
      RejectAt(r, ps, payload, k, rest, args, kwargs);
    } else {
      var p := ps[k];
      assert ps[k..][0] == p && ps[k..][1..] == ps[k + 1..];
      match p.kind
      case PositionalOrKeyword =>
        PositionalStep(ps, payload, k, rest, args, kwargs);
        BindFromMeansDeclared(r, ps, payload, k + 1, rest - {p.name}, args + [rest[p.name]], kwargs);
      case KeywordOnly =>
        KeywordStep(ps, payload, k, rest, args, kwargs);
        BindFromMeansDeclared(r, ps, payload, k + 1, rest - {p.name}, args, kwargs[p.name := rest[p.name]]);
      case VarKeyword =>
        VarKeywordLast(r, ps, payload, k, rest, args, kwargs);
    }
  }

  /** Every keyword-only name is a name bound by name (a fact about the two name sets alone). */
  lemma KeywordsNamed(ps: seq<Param>)
    ensures KeywordSet(ps) <= NamedSet(ps)
  {
  }

  /** At the variadic keyword parameter, which is last, the remaining entries become keyword arguments. */
  lemma VarKeywordLast(r: Receiver, ps: seq<Param>, payload: Payload, k: nat,
                       rest: Payload, args: seq<Value>, kwargs: Payload)
    requires Reached(ps, payload, k, rest, args, kwargs) && k < |ps| && ps[k].kind == VarKeyword
    ensures BindsAsDeclared(r, ps, payload, BindFrom(r, ps[k..], rest, args, kwargs))
  {
    assert k == |ps| - 1;
    assert BindFrom(r, ps[k..], rest, args, kwargs) == Ok(Call(r, args, kwargs + rest)) by {
      assert ps[k..][0] == ps[k] && ps[k..][1..] == [];
    }
    assert Positional(ps) == Positional(ps[..k]) by {
      PrefixStep(ps, k);
      assert ps[..k + 1] == ps;
    }
    assert forall p :: p in ps ==> Accepts(p, payload) by {
      forall p | p in ps ensures Accepts(p, payload) {
        var j :| 0 <= j < |ps| && ps[j] == p;
      }
    }
    VarKeywordKwargs(ps, payload, k, rest, args, kwargs);
  }

  /** The keyword arguments at the variadic keyword parameter: those accepted so far and every entry left. */
  lemma VarKeywordKwargs(ps: seq<Param>, payload: Payload, k: nat, rest: Payload, args: seq<Value>, kwargs: Payload)
    requires Reached(ps, payload, k, rest, args, kwargs) && k == |ps| - 1 && ps[k].kind == VarKeyword
    ensures kwargs + rest == ExpectedKwargs(ps, payload)
  {
    var ks, ns := KeywordSet(ps[..k]), NamedSet(ps[..k]);
    assert KeywordSet(ps) == ks && NamedSet(ps) == ns by {
      PrefixStep(ps, k);
      assert ps[..k + 1] == ps;
    }
    assert HasVarKeyword(ps) by {
      assert ps[k] in ps;
    }
    KeywordsNamed(ps[..k]);
    RestrictJoin(payload, ks, ns);
  }

  /**
   * For a well-formed signature, `safecall` succeeds exactly when every
   * parameter is of a supported kind and every parameter bound by name
   * has a payload entry; it then passes the payload values of the
   * positional-or-keyword parameters positionally, in declaration order,
   * and as keyword arguments exactly the keyword-only entries plus, with a
   * variadic keyword parameter, every entry not bound by name. Otherwise
   * it fails on the first parameter in declaration order that is not
   * satisfied, with that parameter's error.
   */
  lemma BindMeansDeclared(r: Receiver, payload: Payload)
    requires WellFormed(r.params)
    ensures BindsAsDeclared(r, r.params, payload, Bind(r, payload))
  {
    var ps := r.params;
    assert ps[..0] == [] && ps[0..] == ps;
    assert NamedSet(ps[..0]) == {} && KeywordSet(ps[..0]) == {};
    BindFromMeansDeclared(r, ps, payload, 0, payload, [], map[]);
  }

  /**
   * `safecall(r, **payload)` as called by `send`: with an `iscalled`
   * entry the call fails with the duplicate-argument error whatever the
   * receiver; otherwise, for a well-formed signature, it binds as
   * `BindMeansDeclared` describes.
   */
  lemma InvokeMeansDeclared(r: Receiver, payload: Payload)
    requires WellFormed(r.params)
    ensures CalleeParam in payload ==> Invoke(r, payload) == Err(DuplicateArgument(CalleeParam))
    ensures CalleeParam !in payload ==> BindsAsDeclared(r, r.params, payload, Invoke(r, payload))
  {
    BindMeansDeclared(r, payload);
  }
}
