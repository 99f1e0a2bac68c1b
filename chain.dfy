/**
  Several units chained in a host middleware stack: request handlers run in
  registration order, each wrapping the `end` the previous ones left, and a
  terminal handler calls `end`; the response handlers then unwind last-in,
  first-out before the original emit runs.
 */
module Chain {
  import opened Dagwood

  // ---------------------------------------------------------------------------
  // The host chain

  /**
    The request phase of the host chain: each unit's processRequest in turn,
    stopping at the first request handler that does not call `next`. The flag
    says whether every unit proceeded.
   */
  function RequestPhase(units: seq<Unit>, st: ResState): (r: (ResState, bool))
    ensures r.1 <==> forall i | 0 <= i < |units| :: units[i].onRequest.callsNext
    ensures r.0.markers == st.markers && r.0.fired == st.fired
    ensures r.0.emitted == st.emitted && r.0.emittedAt == st.emittedAt
    ensures st.log <= r.0.log
    ensures st.end <= r.0.end && |r.0.end| <= |st.end| + |units|
    decreases |units|
  {
    if units == [] then (st, true)
    else
      var st1 := AfterRequest(units[0], st);
      if units[0].onRequest.callsNext then RequestPhase(units[1..], st1) else (st1, false)
  }

  /** The request phase followed, when it completes, by a terminal `res.end(body)`. */
  function Serve(units: seq<Unit>, st: ResState, body: Args): (r: ResState)
    ensures st.log <= r.log && st.fired <= r.fired
    ensures r.emitted == st.emitted || r.emitted == st.emitted + [body]
    ensures r.emitted != st.emitted ==> forall i | 0 <= i < |units| :: units[i].onRequest.callsNext
    ensures r.emitted != st.emitted ==> r.emittedAt == st.emittedAt + [|r.log|]
    ensures r.emitted == st.emitted ==> r.emittedAt == st.emittedAt
  {
    var (st1, completed) := RequestPhase(units, st);
    if completed then Dispatch(st1, |st1.end|, body) else st1
  }

  /** The host dispatching one request through `units` and a terminal handler. */
  method RunChain(units: seq<Unit>, res: Response, body: Args) returns (completed: bool)
    modifies res
    ensures completed == RequestPhase(units, old(res.State())).1
    ensures res.State() == Serve(units, old(res.State()), body)
  {
    ghost var st0 := res.State();
    var i := 0;
    completed := true;
    while i < |units| && completed
      invariant 0 <= i <= |units|
      invariant completed ==> RequestPhase(units, st0) == RequestPhase(units[i..], res.State())
      invariant !completed ==> RequestPhase(units, st0) == (res.State(), false)
    {
      ghost var before := res.State();
      assert units[i..][0] == units[i] && units[i..][1..] == units[i + 1..];
      completed := ProcessRequest(units[i], res);
      assert RequestPhase(units[i..], before)
             == if completed then RequestPhase(units[i + 1..], res.State()) else (res.State(), false);
      i := i + 1;
    }
    if completed {
      assert units[i..] == [];
      res.End(body);
    }
  }

  // ---------------------------------------------------------------------------
  // Reference definitions of the expected order

  /** Request-phase trace: each unit's request writes, in registration order. */
  function SetupLog(units: seq<Unit>): seq<string>
  {
    if units == [] then [] else units[0].onRequest.writes + SetupLog(units[1..])
  }

  /** What a unit's response handler writes, or nothing when it has none. */
  function TeardownWrites(u: Unit): seq<string>
  {
    if u.onResponse.Some? then u.onResponse.value.writes else []
  }

  /** Response-phase trace: the response writes in reverse registration order. */
  function TeardownLog(units: seq<Unit>): seq<string>
  {
    if units == [] then [] else TeardownLog(units[1..]) + TeardownWrites(units[0])
  }

  /** Namespaces of the units that have a response handler, last registered first. */
  function TeardownOrder(units: seq<Unit>): seq<string>
  {
    if units == [] then []
    else TeardownOrder(units[1..]) + (if units[0].onResponse.Some? then [units[0].ns] else [])
  }

  /** The layer a unit installs on a response whose `end` it has not wrapped. */
  function LayerOf(u: Unit): seq<Layer>
  {
    if u.onResponse.Some? then [Layer(u.ns, u.onResponse.value)] else []
  }

  /** The layers the units install, bottom first. */
  function LayersOf(units: seq<Unit>): seq<Layer>
  {
    if units == [] then [] else LayerOf(units[0]) + LayersOf(units[1..])
  }

  /** Trace written by unwinding `layers`, top (last) first. */
  function UnwindLog(layers: seq<Layer>): seq<string>
  {
    if layers == [] then [] else UnwindLog(layers[1..]) + layers[0].onResponse.writes
  }

  /** Namespaces fired by unwinding `layers`, top (last) first. */
  function UnwindNames(layers: seq<Layer>): seq<string>
  {
    if layers == [] then [] else UnwindNames(layers[1..]) + [layers[0].ns]
  }

  function NamesOf(units: seq<Unit>): set<string>
  {
    set u | u in units :: u.ns
  }

  predicate DistinctNames(units: seq<Unit>)
  {
    forall i, j | 0 <= i < j < |units| :: units[i].ns != units[j].ns
  }

  /** Every request handler and every response handler calls its continuation. */
  predicate AllContinue(units: seq<Unit>)
  {
    forall u | u in units :: u.onRequest.callsNext && (u.onResponse.Some? ==> u.onResponse.value.callsNext)
  }

  // ---------------------------------------------------------------------------
  // Lemmas

  /** Dropping the first unit keeps the names distinct and removes its name. */
  lemma TailFacts(units: seq<Unit>)
    requires units != [] && DistinctNames(units)
    ensures DistinctNames(units[1..])
    ensures units[0].ns !in NamesOf(units[1..])
    ensures NamesOf(units[1..]) <= NamesOf(units)
  {
    var rest := units[1..];
    forall i, j | 0 <= i < j < |rest| ensures rest[i].ns != rest[j].ns {
      assert rest[i] == units[i + 1] && rest[j] == units[j + 1];
    }
    forall w | w in rest ensures w.ns != units[0].ns {
      var j :| 0 <= j < |rest| && rest[j] == w;
      assert units[j + 1] == w;
    }
  }

  /** The installed layers come from the units, once per namespace, all continuing. */
  lemma {:induction false} LayersOfFacts(units: seq<Unit>)
    requires DistinctNames(units) && AllContinue(units)
    ensures forall j | 0 <= j < |LayersOf(units)| ::
              LayersOf(units)[j].ns in NamesOf(units) && LayersOf(units)[j].onResponse.callsNext
    ensures forall i, j | 0 <= i < j < |LayersOf(units)| :: LayersOf(units)[i].ns != LayersOf(units)[j].ns
  {
    if units != [] {
      var rest := units[1..];
      TailFacts(units);
      assert AllContinue(rest);
      LayersOfFacts(rest);
      assert units[0] in units;
    }
  }

  /**
    With distinct names and continuing request handlers, the request phase
    proceeds through every unit, stacks their layers over `end` in
    registration order and writes their request trace in that order.
   */
  lemma {:induction false} RequestPhaseStacksLayers(units: seq<Unit>, st: ResState)
    requires DistinctNames(units) && AllContinue(units)
    requires st.end == [] || st.end[|st.end| - 1].ns !in NamesOf(units)
    ensures RequestPhase(units, st)
            == (st.(end := st.end + LayersOf(units), log := st.log + SetupLog(units)), true)
  {
    if units == [] {
      assert st.end + [] == st.end && st.log + [] == st.log;
    } else {
      var st1 := FirstUnitStep(units, st);
      RequestPhaseStacksLayers(units[1..], st1);
      AppendSteps(st, st1, units);
    }
  }

  /** The first unit of a distinct, continuing chain wraps `end` anew and proceeds. */
  lemma FirstUnitStep(units: seq<Unit>, st: ResState) returns (st1: ResState)
    requires units != [] && DistinctNames(units) && AllContinue(units)
    requires st.end == [] || st.end[|st.end| - 1].ns !in NamesOf(units)
    ensures st1 == st.(end := st.end + LayerOf(units[0]), log := st.log + units[0].onRequest.writes)
    ensures RequestPhase(units, st) == RequestPhase(units[1..], st1)
    ensures DistinctNames(units[1..]) && AllContinue(units[1..])
    ensures st1.end == [] || st1.end[|st1.end| - 1].ns !in NamesOf(units[1..])
  {
    var u := units[0];
    TailFacts(units);
    assert u in units;
    assert !IsWrapped(st.end, u.ns);
    st1 := st.(end := st.end + LayerOf(u), log := st.log + u.onRequest.writes);
    assert AfterRequest(u, st) == st1;
  }

  /** Putting the first unit's effect in front of the rest's. */
  lemma AppendSteps(st: ResState, st1: ResState, units: seq<Unit>)
    requires units != []
    requires st1 == st.(end := st.end + LayerOf(units[0]), log := st.log + units[0].onRequest.writes)
    ensures st1.(end := st1.end + LayersOf(units[1..]), log := st1.log + SetupLog(units[1..]))
            == st.(end := st.end + LayersOf(units), log := st.log + SetupLog(units))
  {
    assert LayersOf(units) == LayerOf(units[0]) + LayersOf(units[1..]);
    assert SetupLog(units) == units[0].onRequest.writes + SetupLog(units[1..]);
    ConcatAssoc(st.end, LayerOf(units[0]), LayersOf(units[1..]));
    ConcatAssoc(st.log, units[0].onRequest.writes, SetupLog(units[1..]));
  }

  lemma ConcatAssoc<T>(a: seq<T>, b: seq<T>, c: seq<T>)
    ensures a + b + c == a + (b + c)
  {
  }

  lemma {:induction false} UnwindLast(layers: seq<Layer>, top: Layer)
    ensures UnwindLog(layers + [top]) == top.onResponse.writes + UnwindLog(layers)
    ensures UnwindNames(layers + [top]) == [top.ns] + UnwindNames(layers)
  {
    if layers != [] {
      assert (layers + [top])[1..] == layers[1..] + [top];
      UnwindLast(layers[1..], top);
    } else {
      assert ([] + [top])[1..] == [];
    }
  }

  /**
    Calling `end` over `k` layers whose handlers all continue and whose
    namespaces are distinct and unmarked runs every handler, top first, and
    then the original emit once with the call's arguments.
   */
  lemma {:induction false} UnwindRunsEveryLayer(st: ResState, k: nat, args: Args)
    requires k <= |st.end|
    requires forall j | 0 <= j < k :: st.end[j].onResponse.callsNext && !Called(st.markers, st.end[j].ns)
    requires forall i, j | 0 <= i < j < k :: st.end[i].ns != st.end[j].ns
    ensures Dispatch(st, k, args).log == st.log + UnwindLog(st.end[..k])
    ensures Dispatch(st, k, args).fired == st.fired + UnwindNames(st.end[..k])
    ensures Dispatch(st, k, args).emitted == st.emitted + [args]
    ensures Dispatch(st, k, args).emittedAt == st.emittedAt + [|st.log + UnwindLog(st.end[..k])|]
    decreases k
  {
    if k == 0 {
      assert st.end[..0] == [];
    } else {
      var k1 := k - 1;
      var layer := st.end[k1];
      var markers := if layer.ns in st.markers then st.markers else st.markers[layer.ns := false];
      var st1 := st.(markers := markers[layer.ns := true],
                     log := st.log + layer.onResponse.writes,
                     fired := st.fired + [layer.ns]);
      assert Dispatch(st, k, args) == Dispatch(st1, k1, args);
      forall j | 0 <= j < k1
        ensures !Called(st1.markers, st1.end[j].ns)
      {
        assert st.end[j].ns != layer.ns;
      }
      UnwindRunsEveryLayer(st1, k1, args);
      var below := st.end[..k1];
      assert st.end[..k] == below + [layer];
      UnwindLast(below, layer);
      ConcatAssoc(st.log, layer.onResponse.writes, UnwindLog(below));
      ConcatAssoc(st.fired, [layer.ns], UnwindNames(below));
    }
  }

  lemma {:induction false} UnwindOfUnits(units: seq<Unit>)
    ensures UnwindLog(LayersOf(units)) == TeardownLog(units)
    ensures UnwindNames(LayersOf(units)) == TeardownOrder(units)
  {
    if units != [] {
      UnwindOfUnits(units[1..]);
      if units[0].onResponse.Some? {
        assert (LayerOf(units[0]) + LayersOf(units[1..]))[1..] == LayersOf(units[1..]);
      } else {
        assert LayerOf(units[0]) + LayersOf(units[1..]) == LayersOf(units[1..]);
      }
    }
  }

  /**
    The ordering guarantee: on a response no unit has touched, units with
    distinct names whose handlers all continue produce the request trace in
    registration order followed by the response trace in reverse order; the
    response handlers fire last-registered first, and the original emit
    receives the terminal handler's arguments once, when the trace already
    holds every one of those writes.
   */
  lemma ChainUnwindsInReverse(units: seq<Unit>, st: ResState, body: Args)
    requires DistinctNames(units) && AllContinue(units)
    requires st.end == [] && forall u | u in units :: !Called(st.markers, u.ns)
    ensures Serve(units, st, body).log == st.log + SetupLog(units) + TeardownLog(units)
    ensures Serve(units, st, body).fired == st.fired + TeardownOrder(units)
    ensures Serve(units, st, body).emitted == st.emitted + [body]
    ensures Serve(units, st, body).emittedAt
            == st.emittedAt + [|st.log + SetupLog(units) + TeardownLog(units)|]
  {
    var st1 := ServeAfterSetup(units, st, body);
    UnwindUnits(units, st1, body);
  }

  /** The terminal `end` call over the layers of a distinct, continuing chain. */
  lemma UnwindUnits(units: seq<Unit>, st1: ResState, body: Args)
    requires st1.end == LayersOf(units)
    requires forall j | 0 <= j < |st1.end| ::
               st1.end[j].onResponse.callsNext && !Called(st1.markers, st1.end[j].ns)
    requires forall i, j | 0 <= i < j < |st1.end| :: st1.end[i].ns != st1.end[j].ns
    ensures Dispatch(st1, |st1.end|, body).log == st1.log + TeardownLog(units)
    ensures Dispatch(st1, |st1.end|, body).fired == st1.fired + TeardownOrder(units)
    ensures Dispatch(st1, |st1.end|, body).emitted == st1.emitted + [body]
    ensures Dispatch(st1, |st1.end|, body).emittedAt == st1.emittedAt + [|st1.log + TeardownLog(units)|]
  {
    UnwindRunsEveryLayer(st1, |st1.end|, body);
    assert st1.end[..|st1.end|] == LayersOf(units);
    UnwindOfUnits(units);
  }

  /**
    After the request phase of a distinct, continuing chain, the terminal `end`
    call meets every unit's layer unflagged, continuing and once per namespace.
   */
  lemma ServeAfterSetup(units: seq<Unit>, st: ResState, body: Args) returns (st1: ResState)
    requires DistinctNames(units) && AllContinue(units)
    requires st.end == [] && forall u | u in units :: !Called(st.markers, u.ns)
    ensures st1.end == LayersOf(units) && st1.log == st.log + SetupLog(units)
    ensures st1.fired == st.fired && st1.emitted == st.emitted && st1.emittedAt == st.emittedAt
    ensures Serve(units, st, body) == Dispatch(st1, |st1.end|, body)
    ensures forall j | 0 <= j < |st1.end| ::
              st1.end[j].onResponse.callsNext && !Called(st1.markers, st1.end[j].ns)
    ensures forall i, j | 0 <= i < j < |st1.end| :: st1.end[i].ns != st1.end[j].ns
  {
    RequestPhaseStacksLayers(units, st);
    st1 := st.(end := LayersOf(units), log := st.log + SetupLog(units));
    assert st.end + LayersOf(units) == LayersOf(units);
    LayersOfFacts(units);
    forall j | 0 <= j < |st1.end| ensures !Called(st1.markers, st1.end[j].ns) {
      var n := st1.end[j].ns;
      assert n in NamesOf(units);
      var u :| u in units && u.ns == n;
    }
  }

  // ---------------------------------------------------------------------------
  // Scenarios

  /**
    The integration scenario: units `a` then `b` that log their setup and
    teardown, and a terminal handler calling `end('Hello World!')`.
   */
  method TwoUnitsUnwindInReverse() returns (trace: seq<string>, sent: seq<Args>, sentAt: seq<nat>)
    ensures trace == ["a.setup", "b.setup", "b.teardown", "a.teardown"]
    ensures sent == [["Hello World!"]]
    ensures sentAt == [4]
  {
    var a := NewMiddleware("a", Some(Handler(["a.setup"], true)), Some(Handler(["a.teardown"], true)));
    var b := NewMiddleware("b", Some(Handler(["b.setup"], true)), Some(Handler(["b.teardown"], true)));
    assert a.ns != b.ns by {
      assert a.ns[|Prefix|..] == "a" && b.ns[|Prefix|..] == "b";
    }
    var res := new Response();
    var completed := RunChain([a, b], res, ["Hello World!"]);
    TwoUnitsServe([a, b], a, b, ["Hello World!"]);
    trace, sent, sentAt := res.log, res.emitted, res.emittedAt;
  }

  /** `Serve` for two distinct units whose handlers all continue. */
  lemma TwoUnitsServe(units: seq<Unit>, a: Unit, b: Unit, body: Args)
    requires units == [a, b]
    requires a.ns != b.ns && a.onRequest.callsNext && b.onRequest.callsNext
    requires a.onResponse.Some? && a.onResponse.value.callsNext
    requires b.onResponse.Some? && b.onResponse.value.callsNext
    ensures var r := Serve(units, Fresh, body);
            && r.log == a.onRequest.writes + b.onRequest.writes + b.onResponse.value.writes + a.onResponse.value.writes
            && r.emitted == [body]
            && r.emittedAt == [|r.log|]
  {
    TwoUnitsAreDistinct(a, b);
    ChainUnwindsInReverse(units, Fresh, body);
    TwoUnitsLogs(a, b);
    var setup := a.onRequest.writes + b.onRequest.writes;
    var teardown := b.onResponse.value.writes + a.onResponse.value.writes;
    assert Fresh.log + setup == setup;
    ConcatAssoc(setup, b.onResponse.value.writes, a.onResponse.value.writes);
    assert Fresh.emitted + [body] == [body];
  }

  lemma TwoUnitsAreDistinct(a: Unit, b: Unit)
    requires a.ns != b.ns && a.onRequest.callsNext && b.onRequest.callsNext
    requires a.onResponse.Some? && a.onResponse.value.callsNext
    requires b.onResponse.Some? && b.onResponse.value.callsNext
    ensures DistinctNames([a, b]) && AllContinue([a, b])
  {
  }

  lemma TwoUnitsLogs(a: Unit, b: Unit)
    requires a.onResponse.Some? && b.onResponse.Some?
    ensures SetupLog([a, b]) == a.onRequest.writes + b.onRequest.writes
    ensures TeardownLog([a, b]) == b.onResponse.value.writes + a.onResponse.value.writes
  {
    assert [a, b][1..] == [b] && [b][1..] == [];
    assert b.onRequest.writes + [] == b.onRequest.writes;
    assert SetupLog([b]) == b.onRequest.writes;
    assert [] + b.onResponse.value.writes == b.onResponse.value.writes;
    assert TeardownLog([b]) == b.onResponse.value.writes;
  }

  /** A response handler that never continues: the response is never emitted. */
  method StalledResponseNeverEmits() returns (trace: seq<string>, sent: seq<Args>)
    ensures trace == ["a.setup", "a.teardown"]
    ensures sent == []
  {
    var a := NewMiddleware("a", Some(Handler(["a.setup"], true)), Some(Handler(["a.teardown"], false)));
    var res := new Response();
    var completed := RunChain([a], res, ["Hello World!"]);
    trace, sent := res.log, res.emitted;
  }

  /**
    The idempotency check looks only at the bound `end`: `a`, `b`, then `a`
    again wrap three times, yet `a`'s response handler runs once, because its
    marker lives on the response and not on the wrapper.
   */
  method RepeatedUnitFiresOnce() returns (layers: nat, trace: seq<string>, sent: seq<Args>)
    ensures layers == 3
    ensures trace == ["a.setup", "b.setup", "a.setup", "a.teardown", "b.teardown"]
    ensures sent == [["Hello World!"]]
  {
    var a := NewMiddleware("a", Some(Handler(["a.setup"], true)), Some(Handler(["a.teardown"], true)));
    var b := NewMiddleware("b", Some(Handler(["b.setup"], true)), Some(Handler(["b.teardown"], true)));
    assert a.ns != b.ns by {
      assert a.ns[|Prefix|..] == "a" && b.ns[|Prefix|..] == "b";
    }
    var res := new Response();
    var completed := RunChain([a, b, a], res, ["Hello World!"]);
    RepeatedUnitServe(a, b, ["Hello World!"]);
    layers, trace, sent := |res.end|, res.log, res.emitted;
  }

  /**
    `Serve` for `a`, `b`, `a` with continuing handlers: three layers, and the
    response trace holds `a`'s writes once, before `b`'s.
   */
  lemma RepeatedUnitServe(a: Unit, b: Unit, body: Args)
    requires a.ns != b.ns && a.onRequest.callsNext && b.onRequest.callsNext
    requires a.onResponse.Some? && a.onResponse.value.callsNext
    requires b.onResponse.Some? && b.onResponse.value.callsNext
    ensures |Serve([a, b, a], Fresh, body).end| == 3
    ensures Serve([a, b, a], Fresh, body).log
            == a.onRequest.writes + b.onRequest.writes + a.onRequest.writes
               + a.onResponse.value.writes + b.onResponse.value.writes
    ensures Serve([a, b, a], Fresh, body).emitted == [body]
  {
    var st := AfterRequest(a, AfterRequest(b, AfterRequest(a, Fresh)));
    ThreeRequestsProceed(a, b, Fresh);
    RepeatedUnitWrapsThrice(a, b, Fresh);
    RepeatedUnitUnwind(a.ns, b.ns, a.onResponse.value, b.onResponse.value, st, body);
    assert Fresh.log + a.onRequest.writes == a.onRequest.writes;
    assert Fresh.emitted + [body] == [body];
  }

  /** Three continuing request handlers: the request phase is the three steps in turn. */
  lemma ThreeRequestsProceed(a: Unit, b: Unit, st: ResState)
    requires a.onRequest.callsNext && b.onRequest.callsNext
    ensures RequestPhase([a, b, a], st) == (AfterRequest(a, AfterRequest(b, AfterRequest(a, st))), true)
  {
    var s1 := AfterRequest(a, st);
    var s2 := AfterRequest(b, s1);
    assert [a][1..] == [] && [b, a][1..] == [a] && [a, b, a][1..] == [b, a];
    assert RequestPhase([a], s2) == (AfterRequest(a, s2), true);
    assert RequestPhase([b, a], s1) == RequestPhase([a], s2);
  }

  /** `a`, `b`, `a` on a response with no layers: each one wraps anew. */
  lemma RepeatedUnitWrapsThrice(a: Unit, b: Unit, st: ResState)
    requires a.ns != b.ns && a.onResponse.Some? && b.onResponse.Some? && st.end == []
    ensures AfterRequest(a, AfterRequest(b, AfterRequest(a, st))).end
            == [Layer(a.ns, a.onResponse.value), Layer(b.ns, b.onResponse.value), Layer(a.ns, a.onResponse.value)]
  {
  }

  /** Unwinding `a` over `b` over `a`: the lower `a` layer only forwards. */
  lemma RepeatedUnitUnwind(na: string, nb: string, ha: Handler, hb: Handler, st: ResState, args: Args)
    requires na != nb && ha.callsNext && hb.callsNext
    requires st.end == [Layer(na, ha), Layer(nb, hb), Layer(na, ha)] && st.markers == map[]
    ensures Dispatch(st, 3, args).log == st.log + ha.writes + hb.writes
    ensures Dispatch(st, 3, args).emitted == st.emitted + [args]
  {
    var st1 := st.(markers := st.markers[na := false][na := true], log := st.log + ha.writes,
                   fired := st.fired + [na]);
    var st2 := st1.(markers := st1.markers[nb := false][nb := true], log := st1.log + hb.writes,
                    fired := st1.fired + [nb]);
    assert Dispatch(st, 3, args) == Dispatch(st1, 2, args);
    assert Dispatch(st1, 2, args) == Dispatch(st2, 1, args);
    assert Called(st2.markers, na);
    assert Dispatch(st2, 1, args) == Dispatch(st2, 0, args);
  }

  /**
    A second `end` call after a response handler stalled skips that handler,
    whose marker is already set, and runs the outer ones: the response is
    emitted although the stalled handler never continued.
   */
  method SecondEndPassesStalledHandler() returns (trace: seq<string>, sent: seq<Args>)
    ensures trace == ["a.setup", "b.setup", "b.teardown", "a.teardown"]
    ensures sent == [["again"]]
  {
    var a := NewMiddleware("a", Some(Handler(["a.setup"], true)), Some(Handler(["a.teardown"], true)));
    var b := NewMiddleware("b", Some(Handler(["b.setup"], true)), Some(Handler(["b.teardown"], false)));
    assert a.ns != b.ns by {
      assert a.ns[|Prefix|..] == "a" && b.ns[|Prefix|..] == "b";
    }
    var res := new Response();
    var completed := RunChain([a, b], res, ["Hello World!"]);
    SecondEndServe(a, b, ["Hello World!"], ["again"]);
    res.End(["again"]);
    trace, sent := res.log, res.emitted;
  }

  /**
    Two units whose outer response handler stalls: the terminal `end` emits
    nothing; a second `end` skips the stalled handler, runs the inner one and
    emits its own arguments.
   */
  lemma SecondEndServe(a: Unit, b: Unit, first: Args, second: Args)
    requires a.ns != b.ns && a.onRequest.callsNext && b.onRequest.callsNext
    requires a.onResponse.Some? && a.onResponse.value.callsNext
    requires b.onResponse.Some? && !b.onResponse.value.callsNext
    ensures var r1 := Serve([a, b], Fresh, first);
            && r1.emitted == []
            && r1.log == a.onRequest.writes + b.onRequest.writes + b.onResponse.value.writes
            && Dispatch(r1, |r1.end|, second).log == r1.log + a.onResponse.value.writes
            && Dispatch(r1, |r1.end|, second).emitted == [second]
  {
    var st := AfterRequest(b, AfterRequest(a, Fresh));
    assert [b][1..] == [] && [a, b][1..] == [b];
    assert RequestPhase([b], AfterRequest(a, Fresh)) == (st, true);
    assert RequestPhase([a, b], Fresh) == (st, true);
    var la, lb := Layer(a.ns, a.onResponse.value), Layer(b.ns, b.onResponse.value);
    assert st.end == [la, lb] && st.markers == map[];
    var r1 := st.(markers := map[b.ns := false][b.ns := true], log := st.log + lb.onResponse.writes,
                  fired := [b.ns]);
    assert Dispatch(st, 2, first) == r1;
    var r2 := r1.(markers := r1.markers[a.ns := false][a.ns := true], log := r1.log + la.onResponse.writes,
                  fired := r1.fired + [a.ns]);
    assert Dispatch(r1, 2, second) == Dispatch(r1, 1, second);
    assert Dispatch(r1, 1, second) == Dispatch(r2, 0, second);
  }
}
