/**
  What one unit guarantees about one response: its namespace key, the default
  request handler, no interception without a response handler, the idempotent
  wrap, and the at-most-once firing of each response handler.
 */
module Properties {
  import opened Dagwood

  // ---------------------------------------------------------------------------
  // Namespace keys

  /** Distinct caller names give distinct keys. */
  lemma NamespacesDistinct(a: string, b: string)
    requires a != b
    ensures Namespace(a) != Namespace(b)
  {
  }

  /** A key never coincides with a property name that lacks the prefix. */
  lemma NamespaceAvoidsUnprefixed(name: string, key: string)
    requires !HasPrefix(key)
    ensures Namespace(name) != key
  {
  }

  // ---------------------------------------------------------------------------
  // processRequest

  /**
    Without a request handler, a unit's request phase only calls `next`; without
    a response handler as well, the response is left exactly as it was.
   */
  lemma DefaultRequestHandlerPassesThrough(name: string, responseHandler: Option<Handler>, st: ResState)
    ensures NewMiddleware(name, None, responseHandler).onRequest.callsNext
    ensures AfterRequest(NewMiddleware(name, None, responseHandler), st).log == st.log
    ensures responseHandler.None? ==> AfterRequest(NewMiddleware(name, None, responseHandler), st) == st
  {
  }

  /** Without a response handler the bound `end` stays the same function. */
  lemma NoResponseHandlerNoInterception(u: Unit, st: ResState)
    requires u.onResponse.None?
    ensures AfterRequest(u, st).end == st.end
    ensures AfterRequest(u, st).markers == st.markers
  {
  }

  /**
    Running the same unit twice in a row on one response adds at most one
    layer, and the second run leaves `end` as the first run bound it.
   */
  lemma ProcessingTwiceWrapsOnce(u: Unit, st: ResState)
    ensures AfterRequest(u, AfterRequest(u, st)).end == AfterRequest(u, st).end
    ensures |AfterRequest(u, st).end| <= |st.end| + 1
  {
  }

  /**
    The idempotency check sees only the currently bound `end`: when another
    unit wrapped in between, the unit wraps again.
   */
  lemma WrapChecksOnlyTheTop(end: seq<Layer>, ns: string, h: Handler)
    requires |end| > 0 && end[|end| - 1].ns != ns
    ensures |WrapEnd(end, ns, h)| == |end| + 1
  {
  }

  // ---------------------------------------------------------------------------
  // Calling the wrapped `end`

  /**
    The first call of a unit's wrapper on a response marks the namespace,
    invokes the response handler, and reaches the inner `end` only when the
    handler calls its continuation.
   */
  lemma FirstCallInvokesHandler(st: ResState, args: Args)
    requires |st.end| > 0
    requires !Called(st.markers, st.end[|st.end| - 1].ns)
    ensures var top := st.end[|st.end| - 1];
            var r := Dispatch(st, |st.end|, args);
            && Called(r.markers, top.ns)
            && |r.fired| > |st.fired| && r.fired[|st.fired|] == top.ns
            && r.log[..|st.log| + |top.onResponse.writes|] == st.log + top.onResponse.writes
            && (!top.onResponse.callsNext ==> r.emitted == st.emitted)
  {
    var top := st.end[|st.end| - 1];
    var markers := if top.ns in st.markers then st.markers else st.markers[top.ns := false];
    var st1 := st.(markers := markers[top.ns := true],
                   log := st.log + top.onResponse.writes,
                   fired := st.fired + [top.ns]);
    var r := Dispatch(st, |st.end|, args);
    if top.onResponse.callsNext {
      assert r == Dispatch(st1, |st.end| - 1, args);
      assert st1.log <= r.log;
    }
  }

  /** Once every layer's marker is set, calling `end` only forwards the arguments. */
  lemma {:induction false} CalledLayersForward(st: ResState, k: nat, args: Args)
    requires k <= |st.end|
    requires forall j | 0 <= j < k :: Called(st.markers, st.end[j].ns)
    ensures Dispatch(st, k, args)
            == st.(emitted := st.emitted + [args], emittedAt := st.emittedAt + [|st.log|])
    decreases k
  {
    if k > 0 {
      CalledLayersForward(st, k - 1, args);
    }
  }

  /** When a call reaches the original emit, every layer it passed is marked. */
  lemma {:induction false} ReachingEmitMarksEveryLayer(st: ResState, k: nat, args: Args)
    requires k <= |st.end|
    requires |Dispatch(st, k, args).emitted| == |st.emitted| + 1
    ensures forall j | 0 <= j < k :: Called(Dispatch(st, k, args).markers, st.end[j].ns)
    decreases k
  {
    if k > 0 {
      var layer := st.end[k - 1];
      var markers := if layer.ns in st.markers then st.markers else st.markers[layer.ns := false];
      if markers[layer.ns] {
        ReachingEmitMarksEveryLayer(st.(markers := markers), k - 1, args);
      } else {
        var st1 := st.(markers := markers[layer.ns := true],
                       log := st.log + layer.onResponse.writes,
                       fired := st.fired + [layer.ns]);
        ReachingEmitMarksEveryLayer(st1, k - 1, args);
      }
    }
  }

  /**
    After a call of `end` has reached the original emit, a later call skips
    every response handler and forwards its own arguments unchanged.
   */
  lemma SecondEndOnlyEmits(st: ResState, first: Args, second: Args)
    requires |Dispatch(st, |st.end|, first).emitted| == |st.emitted| + 1
    ensures var r1 := Dispatch(st, |st.end|, first);
            Dispatch(r1, |r1.end|, second)
            == r1.(emitted := st.emitted + [first, second], emittedAt := r1.emittedAt + [|r1.log|])
  {
    var r1 := Dispatch(st, |st.end|, first);
    ReachingEmitMarksEveryLayer(st, |st.end|, first);
    CalledLayersForward(r1, |r1.end|, second);
  }

  // ---------------------------------------------------------------------------
  // At most once per response

  /**
    The invocation record agrees with the markers and has no repeats: a
    response handler has run exactly for the marked namespaces, once each.
   */
  ghost predicate FiredOnce(st: ResState)
  {
    && (forall i, j | 0 <= i < j < |st.fired| :: st.fired[i] != st.fired[j])
    && (forall ns :: ns in st.fired <==> Called(st.markers, ns))
  }

  lemma FreshFiredOnce()
    ensures FiredOnce(Fresh)
  {
  }

  /** Calling `end`, any number of layers deep, keeps FiredOnce. */
  lemma {:induction false} DispatchKeepsFiredOnce(st: ResState, k: nat, args: Args)
    requires k <= |st.end| && FiredOnce(st)
    ensures FiredOnce(Dispatch(st, k, args))
    decreases k
  {
    if k > 0 {
      var layer := st.end[k - 1];
      var markers := if layer.ns in st.markers then st.markers else st.markers[layer.ns := false];
      if markers[layer.ns] {
        var st0 := st.(markers := markers);
        assert forall ns :: Called(st0.markers, ns) == Called(st.markers, ns);
        DispatchKeepsFiredOnce(st0, k - 1, args);
      } else {
        assert layer.ns !in st.fired;
        var st1 := st.(markers := markers[layer.ns := true],
                       log := st.log + layer.onResponse.writes,
                       fired := st.fired + [layer.ns]);
        assert forall ns :: ns in st1.fired <==> ns in st.fired || ns == layer.ns;
        assert FiredOnce(st1);
        if layer.onResponse.callsNext {
          DispatchKeepsFiredOnce(st1, k - 1, args);
        }
      }
    }
  }

  /** processRequest keeps FiredOnce: it never touches markers or the record. */
  lemma RequestKeepsFiredOnce(u: Unit, st: ResState)
    requires FiredOnce(st)
    ensures FiredOnce(AfterRequest(u, st))
  {
  }

  // ---------------------------------------------------------------------------
  // When the original emit is reached

  /**
    Layer `j` stops a call of the bottom `k` layers: its namespace is not yet
    marked, its handler stalls, and no layer above it (below `k`) shares its
    namespace (such a layer would have run or skipped the same handler first).
   */
  ghost predicate Blocks(st: ResState, k: nat, j: nat)
    requires j < k <= |st.end|
  {
    && !Called(st.markers, st.end[j].ns)
    && !st.end[j].onResponse.callsNext
    && (forall i | j < i < k :: st.end[i].ns != st.end[j].ns)
  }

  /** A call of `end` reaches the original emit exactly when no layer blocks it. */
  lemma {:induction false} EmitReachedIffUnblocked(st: ResState, k: nat, args: Args)
    requires k <= |st.end|
    ensures |Dispatch(st, k, args).emitted| == |st.emitted| + 1
            <==> forall j | 0 <= j < k :: !Blocks(st, k, j)
    decreases k
  {
    if k > 0 {
      var k1 := k - 1;
      var layer := st.end[k1];
      var markers := if layer.ns in st.markers then st.markers else st.markers[layer.ns := false];
      if markers[layer.ns] {
        var st0 := st.(markers := markers);
        assert Dispatch(st, k, args) == Dispatch(st0, k1, args);
        EmitReachedIffUnblocked(st0, k1, args);
        forall j | 0 <= j < k1
          ensures Blocks(st0, k1, j) == Blocks(st, k, j)
        {
          if st.end[j].ns == layer.ns {
            assert !Blocks(st, k, j);
          }
        }
        UnblockedStep(st, k, st0, k1);
      } else {
        var st1 := st.(markers := markers[layer.ns := true],
                       log := st.log + layer.onResponse.writes,
                       fired := st.fired + [layer.ns]);
        if layer.onResponse.callsNext {
          assert Dispatch(st, k, args) == Dispatch(st1, k1, args);
          EmitReachedIffUnblocked(st1, k1, args);
          forall j | 0 <= j < k1
            ensures Blocks(st1, k1, j) == Blocks(st, k, j)
          {
            if st.end[j].ns == layer.ns {
              assert !Blocks(st, k, j);
            } else {
              assert Called(st1.markers, st.end[j].ns) == Called(st.markers, st.end[j].ns);
            }
          }
          UnblockedStep(st, k, st1, k1);
        } else {
          assert Blocks(st, k, k1);
        }
      }
    }
  }

  /** One unwinding step: the top layer passes and the layers below block alike. */
  lemma UnblockedStep(st: ResState, k: nat, inner: ResState, k1: nat)
    requires k == k1 + 1 <= |st.end| && inner.end == st.end
    requires !Blocks(st, k, k1)
    requires forall j | 0 <= j < k1 :: Blocks(inner, k1, j) == Blocks(st, k, j)
    ensures (forall j | 0 <= j < k :: !Blocks(st, k, j))
            <==> (forall j | 0 <= j < k1 :: !Blocks(inner, k1, j))
  {
  }
}
