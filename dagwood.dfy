/**
  A model of the bidirectional middleware factory of `dagwood` (index.js).

  A unit is built from a name, a request handler and an optional response
  handler. Its `processRequest` may replace the response's `end` with a
  wrapper that runs the response handler before the `end` it replaced; the
  wrapper remembers, in a per-namespace marker record kept on the response,
  that the handler already ran.

  The currently bound `end` is a stack of wrapper layers over the original
  emit operation: layer 0 is the innermost wrapper (directly over the original
  emit), the last layer is the function `res.end` refers to now.
 */
module Dagwood {

  datatype Option<T> = None | Some(value: T)

  /** The arguments `end` is called with (the response body and friends). */
  type Args = seq<string>

  /**
    What a caller-supplied handler does when called with `(req, res, next)`:
    it appends `writes` to the application's trace and then either calls its
    continuation `next` (callsNext) or never does (a stall).
   */
  datatype Handler = Handler(writes: seq<string>, callsNext: bool)

  /** The default request handler of index.js:57: it only calls `next`. */
  const PassThrough := Handler([], true)

  /** The prefix that keeps a unit's keys away from other properties (index.js:53). */
  const Prefix := "_dagwood-"

  /** A constructed middleware unit: immutable after construction. */
  datatype Unit = Unit(ns: string, onRequest: Handler, onResponse: Option<Handler>)

  /** One wrapper installed over `end`, carrying the marker of its namespace. */
  datatype Layer = Layer(ns: string, onResponse: Handler)

  /**
    Everything about one response that the model observes:
    - end: the wrapper layers of the currently bound `end`;
    - markers: the record `res[ns].processResponseHasBeenCalled`, per namespace;
    - log: the application's trace written by the handlers;
    - emitted: the argument lists the original emit operation received, in order;
    - emittedAt: for each of those calls, how long the trace was when it ran;
    - fired: the namespaces whose response handler was invoked, in order.
   */
  datatype ResState = ResState(
    end: seq<Layer>,
    markers: map<string, bool>,
    log: seq<string>,
    emitted: seq<Args>,
    emittedAt: seq<nat>,
    fired: seq<string>)

  /** A response no unit has touched yet. */
  const Fresh := ResState([], map[], [], [], [], [])

  /** The namespace key a unit uses for its markers. */
  function Namespace(name: string): (ns: string)
    ensures |ns| == |Prefix| + |name|
    ensures ns[..|Prefix|] == Prefix && ns[|Prefix|..] == name
  {
    Prefix + name
  }

  /** True when `key` starts with the unit prefix. */
  predicate HasPrefix(key: string)
  {
    |Prefix| <= |key| && key[..|Prefix|] == Prefix
  }

  /**
    The factory: `new BidirectionalMiddleware(name, requestHandler, responseHandler)`.
    A missing request handler becomes PassThrough; a response handler that is
    not a function is None.
   */
  function NewMiddleware(name: string, requestHandler: Option<Handler>,
                         responseHandler: Option<Handler>): (u: Unit)
    ensures HasPrefix(u.ns) && u.ns[|Prefix|..] == name
    ensures requestHandler.None? ==> u.onRequest == PassThrough
    ensures requestHandler.Some? ==> u.onRequest == requestHandler.value
    ensures u.onResponse == responseHandler
  {
    Unit(Namespace(name),
         if requestHandler.Some? then requestHandler.value else PassThrough,
         responseHandler)
  }

  /**
    `(end[ns] || {}).isWrapped === true`: only the currently bound function's
    own marker is looked at; the original emit carries none.
   */
  predicate IsWrapped(end: seq<Layer>, ns: string): (r: bool)
    ensures end == [] ==> !r
    ensures |end| > 0 ==> r == (end[|end| - 1].ns == ns)
  {
    |end| > 0 && end[|end| - 1].ns == ns
  }

  /** `wrap(res.end)`: idempotent on an `end` already wrapped by this namespace. */
  function WrapEnd(end: seq<Layer>, ns: string, onResponse: Handler): (r: seq<Layer>)
    ensures IsWrapped(r, ns)
    ensures r == end <==> IsWrapped(end, ns)
    ensures |end| <= |r| <= |end| + 1 && r[..|end|] == end
    ensures |r| == |end| + 1 ==> r[|end|] == Layer(ns, onResponse)
  {
    if IsWrapped(end, ns) then end else end + [Layer(ns, onResponse)]
  }

  /** Whether the response's marker for `ns` says its handler already ran. */
  predicate Called(markers: map<string, bool>, ns: string)
  {
    ns in markers && markers[ns]
  }

  /** The state `processRequest(req, res, next)` leaves behind. */
  function AfterRequest(u: Unit, st: ResState): (r: ResState)
    ensures r.markers == st.markers && r.emitted == st.emitted && r.emittedAt == st.emittedAt
    ensures r.fired == st.fired
    ensures r.log == st.log + u.onRequest.writes
    ensures u.onResponse.None? ==> r.end == st.end
    ensures |st.end| <= |r.end| <= |st.end| + 1
    ensures u.onResponse.Some? ==> IsWrapped(r.end, u.ns) && r.end[..|st.end|] == st.end
  {
    var end := if u.onResponse.Some? then WrapEnd(st.end, u.ns, u.onResponse.value) else st.end;
    st.(end := end, log := st.log + u.onRequest.writes)
  }

  /**
    Calling the `end` made of the bottom `k` layers with `args`: the effect of
    `wrappedFunc` (a layer) or of the original emit (k == 0).
   */
  function Dispatch(st: ResState, k: nat, args: Args): (r: ResState)
    requires k <= |st.end|
    ensures r.end == st.end
    ensures st.log <= r.log && st.fired <= r.fired
    ensures r.emitted == st.emitted || r.emitted == st.emitted + [args]
    ensures r.emitted == st.emitted ==> r.emittedAt == st.emittedAt
    ensures r.emitted != st.emitted ==> r.emittedAt == st.emittedAt + [|r.log|]
    ensures forall ns :: Called(st.markers, ns) ==> Called(r.markers, ns)
    decreases k
  {
    if k == 0 then
      st.(emitted := st.emitted + [args], emittedAt := st.emittedAt + [|st.log|])
    else
      var layer := st.end[k - 1];
      var markers := if layer.ns in st.markers then st.markers else st.markers[layer.ns := false];
      if markers[layer.ns] then
        Dispatch(st.(markers := markers), k - 1, args)
      else
        var st1 := st.(markers := markers[layer.ns := true],
                       log := st.log + layer.onResponse.writes,
                       fired := st.fired + [layer.ns]);
        if layer.onResponse.callsNext then Dispatch(st1, k - 1, args) else st1
  }

  /** The host's response object, of which the model keeps what a unit touches. */
  class Response {
    var end: seq<Layer>
    var markers: map<string, bool>
    var log: seq<string>
    var emitted: seq<Args>
    var emittedAt: seq<nat>
    var fired: seq<string>

    function State(): ResState
      reads this
    {
      ResState(end, markers, log, emitted, emittedAt, fired)
    }

    constructor ()
      ensures State() == Fresh
    {
      end, markers, log, emitted, emittedAt, fired := [], map[], [], [], [], [];
    }

    /**
      Calls the `end` made of the bottom `k` layers: the top one of them is a
      `wrappedFunc`; with no layer left it is the original emit operation.
     */
    method Invoke(k: nat, args: Args)
      requires k <= |end|
      modifies this
      ensures State() == Dispatch(old(State()), k, args)
      decreases k
    {
      if k == 0 {
        emitted := emitted + [args];
        emittedAt := emittedAt + [|log|];
        return;
      }
      var layer := end[k - 1];
      if layer.ns !in markers {
        markers := markers[layer.ns := false];
      }
      if markers[layer.ns] {
        Invoke(k - 1, args);
        return;
      }
      markers := markers[layer.ns := true];
      // the response handler runs, with a continuation that calls the inner `end`
      fired := fired + [layer.ns];
      log := log + layer.onResponse.writes;
      if layer.onResponse.callsNext {
        Invoke(k - 1, args);
      }
    }

    /** `res.end(args)`: calls the currently bound `end`. */
    method End(args: Args)
      modifies this
      ensures end == old(end)
      ensures State() == Dispatch(old(State()), |old(end)|, args)
    {
      Invoke(|end|, args);
    }
  }

  /**
    The `processRequest(req, res, next)` a unit returns: wraps `res.end` when the
    unit has a response handler, then runs the request handler; `proceeded`
    says whether that handler called `next`.
   */
  method ProcessRequest(u: Unit, res: Response) returns (proceeded: bool)
    modifies res
    ensures res.State() == AfterRequest(u, old(res.State()))
    ensures u.onResponse.None? ==> res.end == old(res.end)
    ensures u.onResponse.Some? ==> IsWrapped(res.end, u.ns)
    ensures res.markers == old(res.markers) && res.emitted == old(res.emitted)
    ensures res.emittedAt == old(res.emittedAt)
    ensures res.log == old(res.log) + u.onRequest.writes
    ensures proceeded == u.onRequest.callsNext
  {
    if u.onResponse.Some? {
      res.end := WrapEnd(res.end, u.ns, u.onResponse.value);
    }
    res.log := res.log + u.onRequest.writes;
    proceeded := u.onRequest.callsNext;
  }
}
