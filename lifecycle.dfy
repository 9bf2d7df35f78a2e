/** The loader's lifecycle as a state machine over one value: what the
    Monocle object holds, the document head and window globals it touches, the
    promises and timers each init() created, and every handler invocation so
    far. Each public method and each callback is one atomic step. */
module Lifecycle {
  import opened Common
  import opened Registry
  import Uri
  import Retry

  const ScriptUrl := "https://mcl.spur.us/d/mcl.js"
  const VendorHost := "mcl.spur.us"
  const ScriptId := "_mcl"
  const BridgeName := "_onAssessment"
  const DefaultInitTimeout := 5000

  // ---- construction ----

  /** The options object; a missing property is None. */
  datatype Options = Options(token: Option<string>, initTimeout: Option<int>, debug: Option<bool>)

  datatype Config = Config(token: string, initTimeout: int, debug: bool)

  /** The constructor's checks and defaults. */
  function Configure(o: Options): (r: Result<Config>)
    ensures r.Err? <==> o.token.None? || o.token.value == ""
    ensures r.Err? ==> r.failure == NoToken
    ensures r.Ok? ==> r.value.token == o.token.value
    ensures r.Ok? && o.initTimeout.Some? && o.initTimeout.value != 0 ==> r.value.initTimeout == o.initTimeout.value
    ensures r.Ok? && (o.initTimeout.None? || o.initTimeout.value == 0) ==> r.value.initTimeout == DefaultInitTimeout
    ensures r.Ok? ==> (r.value.debug <==> o.debug == Some(true))
  {
    if o.token.None? || o.token.value == "" then Err(NoToken)
    else
      var timeout := if o.initTimeout.Some? && o.initTimeout.value != 0 then o.initTimeout.value else DefaultInitTimeout;
      var debug := if o.debug.Some? then o.debug.value else false;
      Ok(Config(o.token.value, timeout, debug))
  }

  // ---- the document head ----

  /** A script element: one that was on the page already, or the one init()
      cycle k created. */
  datatype Node = Page(n: nat) | Injected(cycle: nat)

  datatype ScriptTag = ScriptTag(node: Node, id: string, async: bool, defer: bool, src: string, attributes: map<string, string>)

  /** The script URL init() builds from the token. */
  function Src(token: string): string {
    ScriptUrl + "?tk=" + Uri.Encode(token)
  }

  /** The element init() cycle k appends. */
  function Tag(k: nat, token: string): ScriptTag {
    ScriptTag(Injected(k), ScriptId, true, true, Src(token), map["onassessment" := BridgeName, "onbundle" := BridgeName])
  }

  predicate Attached(head: seq<ScriptTag>, n: Node) {
    exists i :: 0 <= i < |head| && head[i].node == n
  }

  /** The head after removing element `n` from it. */
  function Detach(head: seq<ScriptTag>, n: Node): seq<ScriptTag> {
    if head == [] then []
    else if head[0].node == n then Detach(head[1..], n)
    else [head[0]] + Detach(head[1..], n)
  }

  /** After removeChild the element is gone and every other script stays. */
  lemma {:induction false} DetachRemoves(head: seq<ScriptTag>, n: Node)
    ensures !Attached(Detach(head, n), n)
    ensures forall t :: t in Detach(head, n) <==> t in head && t.node != n
  {
    if head != [] {
      DetachRemoves(head[1..], n);
      assert head == [head[0]] + head[1..];
    }
  }

  /** Removing an element that is not in the head changes nothing. */
  lemma {:induction false} DetachAbsent(head: seq<ScriptTag>, n: Node)
    requires !Attached(head, n)
    ensures Detach(head, n) == head
  {
    if head != [] {
      assert !Attached(head[1..], n) by {
        forall i | 0 <= i < |head[1..]| ensures head[1..][i].node != n {
          assert head[1..][i] == head[i + 1];
        }
      }
      DetachAbsent(head[1..], n);
      assert head == [head[0]] + head[1..];
    }
  }

  /** `s.includes(sub)`. */
  function Includes(s: string, sub: string): bool
    decreases |s|
  {
    if sub <= s then true
    else if s == [] then false
    else Includes(s[1..], sub)
  }

  /** The head after destroy() removed every script whose src mentions the
      vendor's host. */
  function Purge(head: seq<ScriptTag>): seq<ScriptTag> {
    if head == [] then []
    else if Includes(head[0].src, VendorHost) then Purge(head[1..])
    else [head[0]] + Purge(head[1..])
  }

  /** A script survives the sweep if and only if its src does not mention the
      vendor's host. */
  lemma {:induction false} PurgeKeeps(head: seq<ScriptTag>)
    ensures forall t :: t in Purge(head) <==> t in head && !Includes(t.src, VendorHost)
  {
    if head != [] {
      PurgeKeeps(head[1..]);
      assert head == [head[0]] + head[1..];
    }
  }

  /** Building the purged head one script at a time, as destroy()'s loop does. */
  lemma {:induction false} PurgeSnoc(head: seq<ScriptTag>, t: ScriptTag)
    ensures Purge(head + [t]) == Purge(head) + (if Includes(t.src, VendorHost) then [] else [t])
  {
    if head == [] {
      assert head + [t] == [t];
    } else {
      assert (head + [t])[1..] == head[1..] + [t];
      PurgeSnoc(head[1..], t);
    }
  }

  // ---- promises and timers ----

  datatype Status = Pending | Resolved | Rejected(reason: Failure)

  /** A promise changes only while pending. */
  function Settle(s: Status, to: Status): Status {
    if s.Pending? then to else s
  }

  /** What init() cycle k created: its promise, its timer (armed or not, and
      its delay) and whether its script element has fired load or error. */
  datatype Cycle = Cycle(promise: Status, timerArmed: bool, delay: int, scriptDone: bool)

  /** What init() returns: the promise of cycle k, or one already rejected. */
  datatype Promise = Handle(cycle: nat) | Refused(reason: Failure)

  // ---- the whole state ----

  datatype Model = Model(
    config: Config,
    ssr: bool,              // `typeof window === 'undefined'`
    initialized: bool,      // _initialized
    ready: Option<nat>,     // _readyPromise: the cycle whose promise it is
    script: Option<Node>,   // _script
    monocle: Option<nat>,   // _monocle: the vendor object, by identity
    hasTarget: bool,        // _eventTarget !== null
    handlers: Table,        // _handlers
    nextWrapper: nat,       // wrappers made so far
    cycles: seq<Cycle>,     // every init() cycle, in order
    head: seq<ScriptTag>,   // the scripts of document.head
    bridge: Option<nat>,    // window._onAssessment: the cycle that installed it
    mcl: Option<nat>,       // window.MCL
    calls: seq<Call>)       // handler invocations made so far

  /** A freshly constructed loader (the constructor creates the event target). */
  function Fresh(config: Config, ssr: bool, head: seq<ScriptTag>, mcl: Option<nat>): Model {
    Model(config, ssr, false, None, None, None, true, map[], 0, [], head, None, mcl, [])
  }

  /** What always holds between steps. */
  ghost predicate Inv(m: Model) {
    var n := |m.cycles|;
    && (m.initialized <==> m.ready.Some?)
    && (m.ready.Some? ==> m.ready.value == n - 1)
    && (m.script.Some? ==> n > 0 && m.script.value == Injected(n - 1))
    && (m.initialized ==>
          && m.script == Some(Injected(n - 1))
          && Attached(m.head, Injected(n - 1))
          && !m.cycles[n - 1].promise.Rejected?)
    && (m.bridge.Some? ==> m.bridge.value == n - 1)
    && (forall i :: 0 <= i < |m.head| && m.head[i].node.Injected? ==>
          m.head[i].node.cycle < n && m.head[i].src == Src(m.config.token))
    && (forall k :: 0 <= k < n && m.cycles[k].timerArmed ==> m.cycles[k].promise == Pending)
    && (forall k :: 0 <= k < n ==> m.cycles[k].delay == m.config.initTimeout)
    && (!m.hasTarget ==> m.handlers == map[])
    && WellFormed(m.handlers, m.nextWrapper)
  }

  // ---- the steps ----

  /** _dispatch(e, d): every registration for `e`, in order, when the event
      target exists; nothing otherwise. */
  function Dispatch(m: Model, e: Event, d: Detail): Model {
    if m.hasTarget then m.(calls := m.calls + Deliveries(Get(m.handlers, e), e, d)) else m
  }

  function DispatchErrors(m: Model, fs: seq<Failure>): Model
    decreases |fs|
  {
    if fs == [] then m else DispatchErrors(Dispatch(m, Error, Raised(fs[0])), fs[1..])
  }

  /** init(). */
  function InitStep(m: Model): (Model, Promise)
    requires Inv(m)
  {
    if m.ssr then (m, Refused(InitUnsupported))
    else if m.initialized then (m, Handle(m.ready.value))
    else
      var k := |m.cycles|;
      (m.(initialized := true,
          ready := Some(k),
          cycles := m.cycles + [Cycle(Pending, true, m.config.initTimeout, false)],
          bridge := Some(k),
          script := Some(Injected(k)),
          head := m.head + [Tag(k, m.config.token)]),
       Handle(k))
  }

  /** The `load` listener of cycle k's script: the vendor script has run and
      left `mclNow` in window.MCL. */
  function LoadStep(m: Model, k: nat, mclNow: Option<nat>): Model
    requires k < |m.cycles| && !m.cycles[k].scriptDone
  {
    var m1 := m.(cycles := m.cycles[k := m.cycles[k].(scriptDone := true)], mcl := mclNow, monocle := mclNow);
    Dispatch(m1, Load, NoDetail)
  }

  /** The `error` listener of cycle k's script. */
  function ErrorStep(m: Model, k: nat): Model
    requires k < |m.cycles| && !m.cycles[k].scriptDone
  {
    var c := m.cycles[k];
    var m1 := m.(cycles := m.cycles[k := c.(timerArmed := false, scriptDone := true)],
                 head := Detach(m.head, Injected(k)),
                 initialized := false,
                 ready := None);
    var m2 := Dispatch(m1, Error, Raised(LoadFailed));
    m2.(cycles := m2.cycles[k := m2.cycles[k].(promise := Settle(c.promise, Rejected(LoadFailed)))])
  }

  /** Cycle k's timer fires. It removes whatever `_script` is now; when that
      element is not attached, Detach leaves the head as it is (DetachAbsent),
      which is what the source's parentNode check achieves. */
  function TimeoutStep(m: Model, k: nat): Model
    requires k < |m.cycles| && m.cycles[k].timerArmed
  {
    var c := m.cycles[k];
    var f := InitTimeout(m.config.initTimeout);
    var m1 := m.(cycles := m.cycles[k := c.(timerArmed := false)],
                 head := if m.script.Some? then Detach(m.head, m.script.value) else m.head,
                 initialized := false,
                 ready := None);
    var m2 := Dispatch(m1, Error, Raised(f));
    m2.(cycles := m2.cycles[k := m2.cycles[k].(promise := Settle(c.promise, Rejected(f)))])
  }

  /** The vendor calls window._onAssessment(jwt), installed by cycle k. */
  function AssessmentStep(m: Model, jwt: string): Model
    requires Inv(m) && m.bridge.Some?
  {
    var k := m.bridge.value;
    var c := m.cycles[k];
    var m1 := m.(cycles := m.cycles[k := c.(timerArmed := false)]);
    var m2 := Dispatch(m1, Assessment, Jwt(jwt));
    m2.(cycles := m2.cycles[k := m2.cycles[k].(promise := Settle(c.promise, Resolved))])
  }

  /** on(e, h). */
  function OnStep(m: Model, e: Event, h: Handler): Model {
    if m.ssr then m
    else
      var m1 := m.(hasTarget := true);
      if Registered(Get(m.handlers, e), h) then m1
      else m1.(handlers := Added(m.handlers, e, h, m.nextWrapper), nextWrapper := m.nextWrapper + 1)
  }

  /** off(e, h). */
  function OffStep(m: Model, e: Event, h: Handler): Model {
    if m.ssr || e !in m.handlers then m
    else m.(handlers := Removed(m.handlers, e, h))
  }

  /** destroy(). Timers and promises are left as they are. */
  function DestroyStep(m: Model): Model {
    if m.ssr || !m.initialized then m
    else
      var head1 := if m.script.Some? then Detach(m.head, m.script.value) else m.head;
      m.(head := Purge(head1),
         bridge := None,
         mcl := None,
         hasTarget := false,
         monocle := None,
         script := None,
         handlers := map[],
         initialized := false,
         ready := None)
  }

  /** getAssessment() up to its `await this.init()`. */
  function BeginAssessmentStep(m: Model): (Model, Promise)
    requires Inv(m)
  {
    if m.ssr then (m, Refused(ServerSide)) else InitStep(m)
  }

  /** getAssessment() from the settlement of the promise it awaited. */
  function FinishAssessmentStep(m: Model, p: Promise, retries: int, vendor: Retry.Vendor): (Model, Result<string>)
    requires p.Handle? ==> p.cycle < |m.cycles| && !m.cycles[p.cycle].promise.Pending?
  {
    if p.Refused? then (m, Err(p.reason))
    else if m.cycles[p.cycle].promise.Rejected? then (m, Err(m.cycles[p.cycle].promise.reason))
    else
      var o := Retry.Run(m.monocle, retries, vendor);
      (DispatchErrors(m, o.raised), o.result)
  }

  // ---- every step keeps the invariant ----

  lemma FreshInv(config: Config, ssr: bool, head: seq<ScriptTag>, mcl: Option<nat>)
    requires forall i :: 0 <= i < |head| ==> head[i].node.Page?
    ensures Inv(Fresh(config, ssr, head, mcl))
  {
  }

  lemma DispatchKeepsInv(m: Model, e: Event, d: Detail)
    requires Inv(m)
    ensures Inv(Dispatch(m, e, d))
    ensures Dispatch(m, e, d) == m.(calls := Dispatch(m, e, d).calls)
  {
  }

  lemma DispatchErrorsKeepsInv(m: Model, fs: seq<Failure>)
    requires Inv(m)
    ensures Inv(DispatchErrors(m, fs))
    ensures DispatchErrors(m, fs) == m.(calls := DispatchErrors(m, fs).calls)
    decreases |fs|
  {
    if fs != [] {
      DispatchKeepsInv(m, Error, Raised(fs[0]));
      DispatchErrorsKeepsInv(Dispatch(m, Error, Raised(fs[0])), fs[1..]);
    }
  }

  lemma InitKeepsInv(m: Model)
    requires Inv(m)
    ensures Inv(InitStep(m).0)
  {
    if !m.ssr && !m.initialized {
      var m' := InitStep(m).0;
      var n := |m.cycles|;
      assert m'.head[|m.head|].node == Injected(n);
      assert forall k :: 0 <= k < n ==> m'.cycles[k] == m.cycles[k];
    }
  }

  lemma LoadKeepsInv(m: Model, k: nat, mclNow: Option<nat>)
    requires Inv(m) && k < |m.cycles| && !m.cycles[k].scriptDone
    ensures Inv(LoadStep(m, k, mclNow))
  {
    var m1 := m.(cycles := m.cycles[k := m.cycles[k].(scriptDone := true)], mcl := mclNow, monocle := mclNow);
    assert Inv(m1);
    DispatchKeepsInv(m1, Load, NoDetail);
  }

  /** Clearing the loader's state while cycle k's timer stops and its
      promise stays as it is, with some of the head's scripts removed. */
  lemma ResetKeepsInv(m: Model, k: nat, c: Cycle, head: seq<ScriptTag>)
    requires Inv(m) && k < |m.cycles|
    requires c.promise == m.cycles[k].promise && c.delay == m.cycles[k].delay && !c.timerArmed
    requires forall i :: 0 <= i < |head| ==> head[i] in m.head
    ensures Inv(m.(cycles := m.cycles[k := c], head := head, initialized := false, ready := None))
  {
  }

  /** Settling the promise of a cycle whose timer is stopped, once the loader is reset. */
  lemma SettleKeepsInv(m: Model, k: nat, s: Status)
    requires Inv(m) && k < |m.cycles| && !m.cycles[k].timerArmed && !m.initialized
    ensures Inv(m.(cycles := m.cycles[k := m.cycles[k].(promise := s)]))
  {
  }

  lemma ErrorKeepsInv(m: Model, k: nat)
    requires Inv(m) && k < |m.cycles| && !m.cycles[k].scriptDone
    ensures Inv(ErrorStep(m, k))
  {
    var c := m.cycles[k];
    var head := Detach(m.head, Injected(k));
    DetachRemoves(m.head, Injected(k));
    ResetKeepsInv(m, k, c.(timerArmed := false, scriptDone := true), head);
    var m1 := m.(cycles := m.cycles[k := c.(timerArmed := false, scriptDone := true)],
                 head := head, initialized := false, ready := None);
    DispatchKeepsInv(m1, Error, Raised(LoadFailed));
    SettleKeepsInv(Dispatch(m1, Error, Raised(LoadFailed)), k, Settle(c.promise, Rejected(LoadFailed)));
  }

  lemma TimeoutKeepsInv(m: Model, k: nat)
    requires Inv(m) && k < |m.cycles| && m.cycles[k].timerArmed
    ensures Inv(TimeoutStep(m, k))
  {
    var c := m.cycles[k];
    var f := InitTimeout(m.config.initTimeout);
    var head := if m.script.Some? then Detach(m.head, m.script.value) else m.head;
    if m.script.Some? {
      DetachRemoves(m.head, m.script.value);
    }
    ResetKeepsInv(m, k, c.(timerArmed := false), head);
    var m1 := m.(cycles := m.cycles[k := c.(timerArmed := false)],
                 head := head, initialized := false, ready := None);
    DispatchKeepsInv(m1, Error, Raised(f));
    SettleKeepsInv(Dispatch(m1, Error, Raised(f)), k, Settle(c.promise, Rejected(f)));
  }

  lemma AssessmentKeepsInv(m: Model, jwt: string)
    requires Inv(m) && m.bridge.Some?
    ensures Inv(AssessmentStep(m, jwt))
  {
    var k := m.bridge.value;
    var m1 := m.(cycles := m.cycles[k := m.cycles[k].(timerArmed := false)]);
    assert Inv(m1);
    DispatchKeepsInv(m1, Assessment, Jwt(jwt));
  }

  lemma OnKeepsInv(m: Model, e: Event, h: Handler)
    requires Inv(m)
    ensures Inv(OnStep(m, e, h))
  {
    if !m.ssr && !Registered(Get(m.handlers, e), h) {
      AddedWellFormed(m.handlers, m.nextWrapper, e, h);
    }
  }

  lemma OffKeepsInv(m: Model, e: Event, h: Handler)
    requires Inv(m)
    ensures Inv(OffStep(m, e, h))
  {
    RemovedWellFormed(m.handlers, m.nextWrapper, e, h);
    if !m.ssr && e in m.handlers && !m.hasTarget {
      assert false;
    }
  }

  lemma DestroyKeepsInv(m: Model)
    requires Inv(m)
    ensures Inv(DestroyStep(m))
  {
    if !m.ssr && m.initialized {
      var head1 := if m.script.Some? then Detach(m.head, m.script.value) else m.head;
      if m.script.Some? {
        DetachRemoves(m.head, m.script.value);
      }
      assert forall i :: 0 <= i < |head1| ==> head1[i] in m.head;
      var r := Purge(head1);
      PurgeKeeps(head1);
      assert forall i :: 0 <= i < |r| ==> r[i] in head1;
    }
  }

  lemma FinishAssessmentKeepsInv(m: Model, p: Promise, retries: int, vendor: Retry.Vendor)
    requires Inv(m)
    requires p.Handle? ==> p.cycle < |m.cycles| && !m.cycles[p.cycle].promise.Pending?
    ensures Inv(FinishAssessmentStep(m, p, retries, vendor).0)
  {
    DispatchErrorsKeepsInv(m, Retry.Run(m.monocle, retries, vendor).raised);
  }

  // ---- all steps together ----

  /** Everything that can happen next: a public method call or a callback. */
  datatype Action =
    | CallInit
    | ScriptLoad(k: nat, mclNow: Option<nat>)
    | ScriptError(k: nat)
    | TimerFires(k: nat)
    | VendorAssessment(jwt: string)
    | CallOn(e: Event, h: Handler)
    | CallOff(e: Event, h: Handler)
    | CallDestroy
    | BeginAssessment
    | FinishAssessment(p: Promise, retries: int, vendor: Retry.Vendor)

  /** When the action can happen: a script fires load or error once, a timer
      only while armed, the bridge only while installed, and getAssessment()
      resumes only once the promise it awaits has settled. */
  ghost predicate Enabled(m: Model, a: Action) {
    match a
    case ScriptLoad(k, _) => k < |m.cycles| && !m.cycles[k].scriptDone
    case ScriptError(k) => k < |m.cycles| && !m.cycles[k].scriptDone
    case TimerFires(k) => k < |m.cycles| && m.cycles[k].timerArmed
    case VendorAssessment(_) => m.bridge.Some?
    case FinishAssessment(p, _, _) => p.Handle? ==> p.cycle < |m.cycles| && !m.cycles[p.cycle].promise.Pending?
    case _ => true
  }

  function Next(m: Model, a: Action): Model
    requires Inv(m) && Enabled(m, a)
  {
    match a
    case CallInit => InitStep(m).0
    case ScriptLoad(k, v) => LoadStep(m, k, v)
    case ScriptError(k) => ErrorStep(m, k)
    case TimerFires(k) => TimeoutStep(m, k)
    case VendorAssessment(jwt) => AssessmentStep(m, jwt)
    case CallOn(e, h) => OnStep(m, e, h)
    case CallOff(e, h) => OffStep(m, e, h)
    case CallDestroy => DestroyStep(m)
    case BeginAssessment => BeginAssessmentStep(m).0
    case FinishAssessment(p, r, v) => FinishAssessmentStep(m, p, r, v).0
  }

  lemma NextKeepsInv(m: Model, a: Action)
    requires Inv(m) && Enabled(m, a)
    ensures Inv(Next(m, a))
  {
    match a
    case CallInit => InitKeepsInv(m);
    case ScriptLoad(k, v) => LoadKeepsInv(m, k, v);
    case ScriptError(k) => ErrorKeepsInv(m, k);
    case TimerFires(k) => TimeoutKeepsInv(m, k);
    case VendorAssessment(jwt) => AssessmentKeepsInv(m, jwt);
    case CallOn(e, h) => OnKeepsInv(m, e, h);
    case CallOff(e, h) => OffKeepsInv(m, e, h);
    case CallDestroy => DestroyKeepsInv(m);
    case BeginAssessment => InitKeepsInv(m);
    case FinishAssessment(p, r, v) => FinishAssessmentKeepsInv(m, p, r, v);
  }
}
