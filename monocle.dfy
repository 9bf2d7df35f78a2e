/** The Monocle class: the loader object whose methods and callbacks change
    its private fields in place. The document head and the two window globals
    it touches, and the record of handler invocations, are fields here too.
    Every method's new state is the matching step of Lifecycle applied to the
    old state, and keeps Lifecycle.Inv. */
module MonocleLoader {
  import opened Common
  import opened Registry
  import opened Lifecycle
  import Retry

  class Monocle {
    const config: Config
    const ssr: bool                // `typeof window === 'undefined'`
    var initialized: bool          // _initialized
    var readyPromise: Option<nat>  // _readyPromise, as the cycle whose promise it is
    var script: Option<Node>       // _script
    var monocle: Option<nat>       // _monocle
    var hasTarget: bool            // _eventTarget !== null
    var handlers: Table            // _handlers
    var nextWrapper: nat           // wrappers made so far
    var cycles: seq<Cycle>         // the promise, timer and script state of every init() cycle
    var head: seq<ScriptTag>       // document.head's scripts
    var bridge: Option<nat>        // window._onAssessment
    var mcl: Option<nat>           // window.MCL
    var calls: seq<Call>           // handler invocations so far

    function Snapshot(): Model
      reads this
    {
      Model(config, ssr, initialized, readyPromise, script, monocle, hasTarget, handlers, nextWrapper,
            cycles, head, bridge, mcl, calls)
    }

    ghost predicate Valid()
      reads this
    {
      Inv(Snapshot())
    }

    /** `new Monocle(options)` once the options are checked; the head and
        window.MCL are what the page holds at that moment. */
    constructor (config: Config, ssr: bool, head: seq<ScriptTag>, mcl: Option<nat>)
      requires forall i :: 0 <= i < |head| ==> head[i].node.Page?
      ensures Valid() && Snapshot() == Fresh(config, ssr, head, mcl)
    {
      this.config := config;
      this.ssr := ssr;
      initialized := false;
      readyPromise := None;
      script := None;
      monocle := None;
      hasTarget := true;
      handlers := map[];
      nextWrapper := 0;
      cycles := [];
      this.head := head;
      bridge := None;
      this.mcl := mcl;
      calls := [];
      new;
      FreshInv(config, ssr, head, mcl);
    }

    /** `new Monocle(options)`: throws NoToken without a token. */
    static method Create(options: Options, ssr: bool, head: seq<ScriptTag>, mcl: Option<nat>) returns (r: Result<Monocle>)
      requires forall i :: 0 <= i < |head| ==> head[i].node.Page?
      ensures r.Err? <==> options.token.None? || options.token.value == ""
      ensures r.Err? ==> r.failure == NoToken
      ensures r.Ok? ==> && fresh(r.value) && r.value.Valid()
                        && r.value.Snapshot() == Fresh(Configure(options).value, ssr, head, mcl)
    {
      var c := Configure(options);
      if c.Err? {
        return Err(c.failure);
      }
      var m := new Monocle(c.value, ssr, head, mcl);
      return Ok(m);
    }

    /** _dispatch(e, d). */
    method Dispatch(e: Event, d: Detail)
      modifies this
      ensures Snapshot() == Lifecycle.Dispatch(old(Snapshot()), e, d)
    {
      if hasTarget {
        calls := calls + Deliveries(Get(handlers, e), e, d);
      }
    }

    /** init(). */
    method Init() returns (p: Promise)
      requires Valid()
      modifies this
      ensures Valid()
      ensures (Snapshot(), p) == InitStep(old(Snapshot()))
    {
      ghost var m0 := Snapshot();
      if ssr {
        return Refused(InitUnsupported);
      }
      if initialized {
        return Handle(readyPromise.value);
      }
      initialized := true;
      var k := |cycles|;
      // the new promise, with its timer armed for initTimeout ms
      cycles := cycles + [Cycle(Pending, true, config.initTimeout, false)];
      bridge := Some(k);
      var tag := Tag(k, config.token);
      script := Some(tag.node);
      head := head + [tag];
      readyPromise := Some(k);
      p := Handle(k);
      assert (Snapshot(), p) == InitStep(m0);
      InitKeepsInv(m0);
    }

    /** The `load` listener of cycle k's script. */
    method OnLoad(k: nat, mclNow: Option<nat>)
      requires Valid() && k < |cycles| && !cycles[k].scriptDone
      modifies this
      ensures Valid()
      ensures Snapshot() == LoadStep(old(Snapshot()), k, mclNow)
    {
      LoadKeepsInv(Snapshot(), k, mclNow);
      cycles := cycles[k := cycles[k].(scriptDone := true)];
      mcl := mclNow;
      monocle := mcl;
      Dispatch(Load, NoDetail);
    }

    /** The `error` listener of cycle k's script. */
    method OnError(k: nat)
      requires Valid() && k < |cycles| && !cycles[k].scriptDone
      modifies this
      ensures Valid()
      ensures Snapshot() == ErrorStep(old(Snapshot()), k)
    {
      ErrorKeepsInv(Snapshot(), k);
      var c := cycles[k];
      cycles := cycles[k := c.(timerArmed := false, scriptDone := true)];
      head := Detach(head, Injected(k));
      initialized := false;
      readyPromise := None;
      Dispatch(Error, Raised(LoadFailed));
      cycles := cycles[k := cycles[k].(promise := Settle(c.promise, Rejected(LoadFailed)))];
    }

    /** Cycle k's timer fires. */
    method OnTimeout(k: nat)
      requires Valid() && k < |cycles| && cycles[k].timerArmed
      modifies this
      ensures Valid()
      ensures Snapshot() == TimeoutStep(old(Snapshot()), k)
    {
      ghost var m0 := Snapshot();
      var c := cycles[k];
      cycles := cycles[k := c.(timerArmed := false)];
      // `_script?.parentNode` and removeChild: Detach of an element not in the head changes nothing
      head := if script.Some? then Detach(head, script.value) else head;
      initialized := false;
      readyPromise := None;
      var f := InitTimeout(config.initTimeout);
      ghost var m1 := Snapshot();
      Dispatch(Error, Raised(f));
      assert Snapshot() == Lifecycle.Dispatch(m1, Error, Raised(f));
      cycles := cycles[k := cycles[k].(promise := Settle(c.promise, Rejected(f)))];
      assert Snapshot() == TimeoutStep(m0, k);
      TimeoutKeepsInv(m0, k);
    }

    /** The vendor calls window._onAssessment(jwt). */
    method OnAssessment(jwt: string)
      requires Valid() && bridge.Some?
      modifies this
      ensures Valid()
      ensures Snapshot() == AssessmentStep(old(Snapshot()), jwt)
    {
      AssessmentKeepsInv(Snapshot(), jwt);
      var k := bridge.value;
      var c := cycles[k];
      cycles := cycles[k := c.(timerArmed := false)];
      Dispatch(Assessment, Jwt(jwt));
      cycles := cycles[k := cycles[k].(promise := Settle(c.promise, Resolved))];
    }

    /** getAssessment() up to `await this.init()`. */
    method GetAssessment() returns (p: Promise)
      requires Valid()
      modifies this
      ensures Valid()
      ensures (Snapshot(), p) == BeginAssessmentStep(old(Snapshot()))
    {
      if ssr {
        return Refused(ServerSide);
      }
      p := Init();
    }

    /** getAssessment(retries) once the promise it awaited has settled;
        `given` is the caller's `retries`, None when it passed none. */
    method ResumeAssessment(p: Promise, given: Option<int>, vendor: Retry.Vendor) returns (r: Result<string>)
      requires Valid()
      requires p.Handle? ==> p.cycle < |cycles| && !cycles[p.cycle].promise.Pending?
      modifies this
      ensures Valid()
      ensures (Snapshot(), r) == FinishAssessmentStep(old(Snapshot()), p, Retry.Retries(given), vendor)
    {
      var retries := Retry.Retries(given);
      FinishAssessmentKeepsInv(Snapshot(), p, retries, vendor);
      if p.Refused? {
        return Err(p.reason);
      }
      var s := cycles[p.cycle].promise;
      if s.Rejected? {
        return Err(s.reason);
      }
      var o := Retry.Retrieve(monocle, retries, vendor);
      Retry.RunBounds(monocle, retries, vendor);
      if o.raised != [] {
        ghost var before := Snapshot();
        Dispatch(Error, Raised(o.raised[0]));
        assert DispatchErrors(before, o.raised) == DispatchErrors(Lifecycle.Dispatch(before, Error, Raised(o.raised[0])), []);
      }
      r := o.result;
    }

    /** on(e, h). */
    method On(e: Event, h: Handler)
      requires Valid()
      modifies this
      ensures Valid()
      ensures Snapshot() == OnStep(old(Snapshot()), e, h)
    {
      ghost var m0 := Snapshot();
      OnKeepsInv(m0, e, h);
      if ssr {
        return;
      }
      hasTarget := true;
      var existing := Get(handlers, e);
      if Registered(existing, h) {
        return;
      }
      var w := nextWrapper;
      nextWrapper := nextWrapper + 1;
      handlers := handlers[e := existing + [Entry(h, w)]];
      assert handlers == Added(m0.handlers, e, h, m0.nextWrapper);
      assert Snapshot() == OnStep(m0, e, h);
    }

    /** off(e, h): rebuilds the event's list without `h`, then keeps or deletes the key. */
    method Off(e: Event, h: Handler)
      requires Valid()
      modifies this
      ensures Valid()
      ensures Snapshot() == OffStep(old(Snapshot()), e, h)
    {
      ghost var m0 := Snapshot();
      OffKeepsInv(m0, e, h);
      if ssr || e !in handlers {
        return;
      }
      var list := handlers[e];
      var remaining := [];
      var i := 0;
      while i < |list|
        invariant 0 <= i <= |list|
        invariant remaining == Without(list[..i], h)
        invariant unchanged(this)
      {
        if list[i].original != h {
          remaining := remaining + [list[i]];
        }
        WithoutSnoc(list[..i], list[i], h);
        assert list[..i + 1] == list[..i] + [list[i]];
        i := i + 1;
      }
      assert list[..|list|] == list;
      assert remaining == Without(handlers[e], h);
      if |remaining| > 0 {
        handlers := handlers[e := remaining];
      } else {
        handlers := handlers - {e};
      }
      assert handlers == Removed(m0.handlers, e, h);
      assert Snapshot() == OffStep(m0, e, h);
    }

    /** The residual-script sweep of destroy(): every script whose src
        mentions the vendor's host is removed, the others stay in order. */
    static method PurgeVendorScripts(scripts: seq<ScriptTag>) returns (kept: seq<ScriptTag>)
      ensures kept == Purge(scripts)
    {
      kept := [];
      var i := 0;
      while i < |scripts|
        invariant 0 <= i <= |scripts|
        invariant kept == Purge(scripts[..i])
      {
        if !Includes(scripts[i].src, VendorHost) {
          kept := kept + [scripts[i]];
        }
        PurgeSnoc(scripts[..i], scripts[i]);
        assert scripts[..i + 1] == scripts[..i] + [scripts[i]];
        i := i + 1;
      }
      assert scripts[..|scripts|] == scripts;
    }

    /** destroy(). */
    method Destroy()
      requires Valid()
      modifies this
      ensures Valid()
      ensures Snapshot() == DestroyStep(old(Snapshot()))
    {
      ghost var m0 := Snapshot();
      if ssr || !initialized {
        return;
      }
      var before := if script.Some? then Detach(head, script.value) else head;
      var kept := PurgeVendorScripts(before);
      head := kept;
      bridge := None;
      mcl := None;
      hasTarget := false;
      monocle := None;
      script := None;
      handlers := map[];
      initialized := false;
      readyPromise := None;
      assert Snapshot() == DestroyStep(m0);
      DestroyKeepsInv(m0);
    }
  }
}
