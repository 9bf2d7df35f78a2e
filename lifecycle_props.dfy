/** What the loader promises about its lifecycle, its events and its teardown,
    proved of the steps in Lifecycle. */
module LifecycleProperties {
  import opened Common
  import opened Registry
  import opened Lifecycle
  import Uri
  import Retry

  // ---- init() ----

  /** init() while initialized hands back the same promise, which is pending
      or resolved, and changes nothing; so a second init() right after a first
      returns the identical promise and creates no second script. */
  lemma InitIdempotent(m: Model)
    requires Inv(m) && !m.ssr
    ensures m.initialized ==>
      && InitStep(m) == (m, Handle(|m.cycles| - 1))
      && !m.cycles[|m.cycles| - 1].promise.Rejected?
    ensures Inv(InitStep(m).0)
    ensures InitStep(InitStep(m).0) == InitStep(m)
  {
    InitKeepsInv(m);
  }

  /** init() from the uninitialized state appends exactly one script (id
      `_mcl`, async, deferred, its src the vendor URL with the encoded token),
      installs the bridge for the new cycle, arms that cycle's timer with the
      configured delay and leaves its promise pending; no earlier cycle, no
      other script, handler or global changes. */
  lemma InitInjectsOneScript(m: Model)
    requires Inv(m) && !m.ssr && !m.initialized
    ensures var (m', p) := InitStep(m);
      var k := |m.cycles|;
      && p == Handle(k)
      && m'.initialized && m'.ready == Some(k)
      && m'.bridge == Some(k)
      && m'.cycles == m.cycles + [Cycle(Pending, true, m.config.initTimeout, false)]
      && |m'.head| == |m.head| + 1 && m'.head[..|m.head|] == m.head
      && (var t := m'.head[|m.head|];
          && t.node == Injected(k) && t.id == "_mcl" && t.async && t.defer
          && t.src == "https://mcl.spur.us/d/mcl.js?tk=" + Uri.Encode(m.config.token))
      && m'.handlers == m.handlers && m'.calls == m.calls
      && m'.monocle == m.monocle && m'.mcl == m.mcl
  {
    var (m', p) := InitStep(m);
    assert m'.head[..|m.head|] == m.head;
  }

  /** Outside a browser init() refuses with its own message and changes nothing. */
  lemma InitOutsideBrowser(m: Model)
    requires Inv(m) && m.ssr
    ensures InitStep(m) == (m, Refused(InitUnsupported))
    ensures Message(InitUnsupported) == Some(MessagePrefix + "init() not supported in SSR")
  {
  }

  // ---- the callbacks ----

  /** The script's `error`: the timer of its cycle is cleared, its element is
      gone from the head, the loader is uninitialized again, exactly one
      `error` event with LoadFailed is dispatched and the cycle's promise is
      rejected unless it had settled already; other cycles keep their timers
      and promises. */
  lemma ScriptErrorResets(m: Model, k: nat)
    requires Inv(m) && k < |m.cycles| && !m.cycles[k].scriptDone
    ensures var m' := ErrorStep(m, k);
      && !m'.initialized && m'.ready == None
      && !m'.cycles[k].timerArmed
      && !Attached(m'.head, Injected(k))
      && (forall t :: t in m'.head <==> t in m.head && t.node != Injected(k))
      && m'.cycles[k].promise == Settle(m.cycles[k].promise, Rejected(LoadFailed))
      && !m'.cycles[k].promise.Pending?
      && m'.calls == Dispatch(m, Error, Raised(LoadFailed)).calls
      && |m'.cycles| == |m.cycles|
      && (forall j :: 0 <= j < |m.cycles| && j != k ==> m'.cycles[j] == m.cycles[j])
      && m'.handlers == m.handlers && m'.bridge == m.bridge && m'.monocle == m.monocle
  {
    DetachRemoves(m.head, Injected(k));
  }

  /** The timer: whatever script is current is gone from the head, the loader
      is uninitialized again, exactly one `error` event carrying the configured
      duration is dispatched, and the cycle's promise, still pending because its
      timer was armed, is rejected with that same failure. */
  lemma TimeoutResets(m: Model, k: nat)
    requires Inv(m) && k < |m.cycles| && m.cycles[k].timerArmed
    ensures var m' := TimeoutStep(m, k);
      var f := InitTimeout(m.config.initTimeout);
      && !m'.initialized && m'.ready == None
      && !m'.cycles[k].timerArmed
      && (m.script.Some? ==> !Attached(m'.head, m.script.value))
      && m'.cycles[k].promise == Rejected(f)
      && m'.calls == Dispatch(m, Error, Raised(f)).calls
      && Message(f) == Some(MessagePrefix + "init() timeout after " + Decimal(m.config.initTimeout) + " ms")
      && (forall j :: 0 <= j < |m.cycles| && j != k ==> m'.cycles[j] == m.cycles[j])
  {
    if m.script.Some? {
      DetachRemoves(m.head, m.script.value);
    }
  }

  /** The vendor's assessment: the timer of the bridge's cycle is cleared, one
      `assessment` event with exactly the JWT is dispatched, and that cycle's
      promise is resolved unless it had settled; when its timer was still
      armed, it is resolved. The loader's state and the head do not change. */
  lemma AssessmentResolves(m: Model, jwt: string)
    requires Inv(m) && m.bridge.Some?
    ensures var k := m.bridge.value;
      var m' := AssessmentStep(m, jwt);
      && !m'.cycles[k].timerArmed
      && m'.cycles[k].promise == Settle(m.cycles[k].promise, Resolved)
      && (m.cycles[k].timerArmed ==> m'.cycles[k].promise == Resolved)
      && m'.calls == Dispatch(m, Assessment, Jwt(jwt)).calls
      && m'.initialized == m.initialized && m'.ready == m.ready && m'.head == m.head
      && (forall j :: 0 <= j < |m.cycles| && j != k ==> m'.cycles[j] == m.cycles[j])
  {
  }

  /** The script's `load` only stores window.MCL as the vendor object and
      dispatches `load`: no promise settles, no timer changes. */
  lemma LoadNeverSettles(m: Model, k: nat, mclNow: Option<nat>)
    requires Inv(m) && k < |m.cycles| && !m.cycles[k].scriptDone
    ensures var m' := LoadStep(m, k, mclNow);
      && m'.monocle == mclNow
      && m'.calls == Dispatch(m, Load, NoDetail).calls
      && |m'.cycles| == |m.cycles|
      && (forall j :: 0 <= j < |m.cycles| ==>
            m'.cycles[j].promise == m.cycles[j].promise && m'.cycles[j].timerArmed == m.cycles[j].timerArmed)
      && m'.initialized == m.initialized && m'.ready == m.ready && m'.head == m.head
  {
  }

  /** A promise settles at most once: no step changes a settled promise, and
      no step forgets a cycle. */
  lemma SettledStaysSettled(m: Model, a: Action, j: nat)
    requires Inv(m) && Enabled(m, a)
    requires j < |m.cycles| && !m.cycles[j].promise.Pending?
    ensures j < |Next(m, a).cycles| && Next(m, a).cycles[j].promise == m.cycles[j].promise
  {
    match a
    case CallInit =>
      if !m.ssr && !m.initialized {
        InitInjectsOneScript(m);
      }
    case ScriptLoad(k, v) => LoadNeverSettles(m, k, v);
    case ScriptError(k) => ScriptErrorResets(m, k);
    case TimerFires(k) => TimeoutResets(m, k);
    case VendorAssessment(jwt) => AssessmentResolves(m, jwt);
    case CallOn(e, h) =>
    case CallOff(e, h) =>
    case CallDestroy => DestroyTearsDown(m);
    case BeginAssessment =>
      if !m.ssr && !m.initialized {
        InitInjectsOneScript(m);
      }
    case FinishAssessment(p, r, v) =>
      DispatchErrorsKeepsInv(m, Retry.Run(m.monocle, r, v).raised);
  }

  /** destroy() does not cancel the timer of a pending cycle. If init() runs
      again before that timer fires, the old timer removes the NEW cycle's
      script and uninitializes the loader while the new cycle's promise is
      still pending. */
  lemma StaleTimerTearsDownNextCycle(m: Model)
    requires Inv(m) && !m.ssr && m.initialized
    requires m.cycles[|m.cycles| - 1].timerArmed
    ensures Inv(DestroyStep(m))
    ensures var k := |m.cycles| - 1;
      var m2 := InitStep(DestroyStep(m)).0;
      && m2.initialized && Attached(m2.head, Injected(k + 1))
      && k + 1 < |m2.cycles| && m2.cycles[k].timerArmed
      && var m3 := TimeoutStep(m2, k);
         && !m3.initialized
         && !Attached(m3.head, Injected(k + 1))
         && m3.cycles[k + 1].promise == Pending
  {
    var k := |m.cycles| - 1;
    var m1 := DestroyStep(m);
    DestroyKeepsInv(m);
    assert m1.cycles == m.cycles && !m1.initialized;
    InitKeepsInv(m1);
    InitInjectsOneScript(m1);
    var m2 := InitStep(m1).0;
    assert m2.cycles[k] == m.cycles[k];
    assert m2.script == Some(Injected(k + 1));
    TimeoutResets(m2, k);
  }

  /** The error listener of an older cycle uninitializes the loader whichever
      cycle is current, while the current script stays in the head. destroy()
      then returns at once, and the next init() injects a second script: the
      head holds two injected scripts at once. */
  lemma StaleErrorStrandsScript(m: Model, j: nat)
    requires Inv(m) && !m.ssr && m.initialized
    requires j < |m.cycles| - 1 && !m.cycles[j].scriptDone
    ensures Inv(ErrorStep(m, j))
    ensures var k := |m.cycles| - 1;
      var m2 := DestroyStep(ErrorStep(m, j));
      && m2 == ErrorStep(m, j)
      && var m3 := InitStep(m2).0;
         && m3.initialized
         && Attached(m3.head, Injected(k))
         && Attached(m3.head, Injected(k + 1))
  {
    var k := |m.cycles| - 1;
    ErrorKeepsInv(m, j);
    ScriptErrorResets(m, j);
    var m1 := ErrorStep(m, j);
    var i :| 0 <= i < |m.head| && m.head[i].node == Injected(k);
    assert m.head[i] in m1.head;
    var i1 :| 0 <= i1 < |m1.head| && m1.head[i1] == m.head[i];
    InitKeepsAttached(m1, Injected(k));
  }

  /** init() from the uninitialized state keeps every script of the head and
      attaches its own. */
  lemma InitKeepsAttached(m: Model, n: Node)
    requires Inv(m) && !m.ssr && !m.initialized && Attached(m.head, n)
    ensures Attached(InitStep(m).0.head, n)
    ensures Attached(InitStep(m).0.head, Injected(|m.cycles|))
  {
    var head := InitStep(m).0.head;
    var i :| 0 <= i < |m.head| && m.head[i].node == n;
    assert head[i] == m.head[i];
    assert head[|head| - 1].node == Injected(|m.cycles|);
  }

  // ---- destroy() ----

  /** The vendor URL contains the vendor host, so the script init() injects is
      one destroy() purges. */
  lemma {:induction false} InjectedSrcIncludesHost(token: string)
    ensures Includes(Src(token), VendorHost)
  {
    var s := Src(token);
    assert s[..|ScriptUrl|] == ScriptUrl;
    assert ScriptUrl[8..19] == VendorHost;
    assert s[8..19] == ScriptUrl[8..19];
    IncludesAt(s, VendorHost, 8);
  }

  lemma {:induction false} IncludesAt(s: string, sub: string, i: nat)
    requires i + |sub| <= |s| && s[i..i + |sub|] == sub
    ensures Includes(s, sub)
  {
    if i > 0 && !(sub <= s) {
      assert s[1..][i - 1..i - 1 + |sub|] == sub;
      IncludesAt(s[1..], sub, i - 1);
    }
  }

  /** destroy() while uninitialized changes nothing; otherwise it removes
      every script it injected and every other script whose src mentions the
      vendor host, keeps the remaining scripts, deletes the bridge and MCL,
      forgets the vendor object, the script, the event target and every
      handler, and is uninitialized. Timers and promises are left alone. */
  lemma DestroyTearsDown(m: Model)
    requires Inv(m)
    ensures !m.initialized ==> DestroyStep(m) == m
    ensures !m.ssr && m.initialized ==>
      var m' := DestroyStep(m);
      && (forall i :: 0 <= i < |m'.head| ==> m'.head[i].node.Page? && !Includes(m'.head[i].src, VendorHost))
      && (forall t :: t in m.head && !Includes(t.src, VendorHost) ==> t in m'.head)
      && (forall t :: t in m'.head ==> t in m.head)
      && m'.bridge == None && m'.mcl == None && m'.monocle == None && m'.script == None
      && !m'.hasTarget && m'.handlers == map[]
      && !m'.initialized && m'.ready == None
      && m'.cycles == m.cycles && m'.calls == m.calls
  {
    if !m.ssr && m.initialized {
      var m' := DestroyStep(m);
      InjectedSrcIncludesHost(m.config.token);
      var head1 := if m.script.Some? then Detach(m.head, m.script.value) else m.head;
      if m.script.Some? {
        DetachRemoves(m.head, m.script.value);
      }
      PurgeKeeps(head1);
      forall i | 0 <= i < |m'.head| ensures m'.head[i].node.Page? {
        assert m'.head[i] in head1;
        assert m'.head[i] in m.head;
        var j :| 0 <= j < |m.head| && m.head[j] == m'.head[i];
      }
      forall t | t in m.head && !Includes(t.src, VendorHost) ensures t in m'.head {
        var j :| 0 <= j < |m.head| && m.head[j] == t;
        assert t.node.Page?;
      }
    }
  }

  /** After destroy(), init() starts as on a fresh loader: the head holds
      exactly one script it injected, the new one. */
  lemma ReinitAfterDestroy(m: Model)
    requires Inv(m) && !m.ssr && m.initialized
    ensures Inv(DestroyStep(m))
    ensures var m2 := InitStep(DestroyStep(m)).0;
      && m2.initialized
      && Attached(m2.head, Injected(|m.cycles|))
      && (forall i :: 0 <= i < |m2.head| && m2.head[i].node.Injected? ==> m2.head[i].node == Injected(|m.cycles|))
  {
    DestroyTearsDown(m);
    DestroyKeepsInv(m);
    InitKeepsInv(DestroyStep(m));
  }

  // ---- the event hub through the façade ----

  /** A handler registered for `assessment` hears the vendor's assessment
      exactly once, with exactly its JWT, as the last of that dispatch. */
  lemma AssessmentReachesHandlerOnce(m: Model, h: Handler, jwt: string)
    requires Inv(m) && !m.ssr && m.bridge.Some?
    requires !Registered(Get(m.handlers, Assessment), h)
    ensures Inv(OnStep(m, Assessment, h))
    ensures var m1 := OnStep(m, Assessment, h);
      var m2 := AssessmentStep(m1, jwt);
      && |m2.calls| > |m1.calls|
      && m2.calls[|m2.calls| - 1] == Call(h, Assessment, Jwt(jwt))
      && CallsTo(m2.calls[|m1.calls|..], h) == 1
  {
    var m1 := OnStep(m, Assessment, h);
    OnKeepsInv(m, Assessment, h);
    var list := Get(m1.handlers, Assessment);
    assert list == Get(m.handlers, Assessment) + [Entry(h, m.nextWrapper)];
    assert Registered(list, h) by {
      assert list[|list| - 1].original == h;
    }
    var m2 := AssessmentStep(m1, jwt);
    assert m2.calls == m1.calls + Deliveries(list, Assessment, Jwt(jwt));
    assert m2.calls[|m1.calls|..] == Deliveries(list, Assessment, Jwt(jwt));
    DeliveredOnce(list, h, Assessment, Jwt(jwt));
  }

  /** After off() with the same handler it hears nothing. */
  lemma OffStopsDelivery(m: Model, e: Event, h: Handler, d: Detail)
    requires Inv(m)
    ensures var m1 := OffStep(m, e, h);
      !m.ssr ==> CallsTo(Dispatch(m1, e, d).calls[|m1.calls|..], h) == 0
  {
    var m1 := OffStep(m, e, h);
    OffKeepsInv(m, e, h);
    if !m.ssr && m1.hasTarget {
      var rest := Get(m1.handlers, e);
      if e in m.handlers {
        WithoutUnregisters(m.handlers[e], h);
      }
      assert !Registered(rest, h);
      assert Dispatch(m1, e, d).calls[|m1.calls|..] == Deliveries(rest, e, d);
      DeliveredOnce(rest, h, e, d);
    } else if !m.ssr {
      assert Dispatch(m1, e, d).calls[|m1.calls|..] == [];
    }
  }

  /** on() is idempotent, and off() undoes the on() of a new handler. */
  lemma OnOffRoundTrip(m: Model, e: Event, h: Handler)
    requires Inv(m) && !m.ssr
    ensures OnStep(OnStep(m, e, h), e, h) == OnStep(m, e, h)
    ensures !Registered(Get(m.handlers, e), h) ==> OffStep(OnStep(m, e, h), e, h).handlers == m.handlers
  {
    var m1 := OnStep(m, e, h);
    if !Registered(Get(m.handlers, e), h) {
      assert Get(m1.handlers, e)[|Get(m1.handlers, e)| - 1].original == h;
      OffUndoesOn(m.handlers, m.nextWrapper, e, h);
    }
  }

  /** off() with a handler that is not registered for the event, or for an
      event with no handlers, changes nothing; off() twice is off() once. */
  lemma OffUnknownIsNoop(m: Model, e: Event, h: Handler)
    requires Inv(m)
    ensures !Registered(Get(m.handlers, e), h) ==> OffStep(m, e, h) == m
    ensures OffStep(OffStep(m, e, h), e, h) == OffStep(m, e, h)
  {
    if !m.ssr && e in m.handlers {
      if !Registered(m.handlers[e], h) {
        WithoutAbsent(m.handlers[e], h);
        assert m.handlers[e := m.handlers[e]] == m.handlers;
      }
      RemovedIdempotent(m.handlers, e, h);
    }
  }

  // ---- getAssessment() ----

  /** Once the awaited promise has settled: a rejected init() is passed on
      with nothing dispatched; after a resolved one, the loop's result is
      returned and exactly one `error` event is dispatched for each failure
      except a missing vendor object. */
  lemma FinishAssessmentReports(m: Model, p: Promise, retries: int, vendor: Retry.Vendor)
    requires Inv(m)
    requires p.Handle? ==> p.cycle < |m.cycles| && !m.cycles[p.cycle].promise.Pending?
    ensures var (m', r) := FinishAssessmentStep(m, p, retries, vendor);
      && (p.Refused? ==> r == Err(p.reason) && m' == m)
      && (p.Handle? && m.cycles[p.cycle].promise.Rejected? ==> r == Err(m.cycles[p.cycle].promise.reason) && m' == m)
      && (p.Handle? && m.cycles[p.cycle].promise.Resolved? ==>
            && r == Retry.Run(m.monocle, retries, vendor).result
            && m' == (if r.Err? && r.failure != MclUndefined then Dispatch(m, Error, Raised(r.failure)) else m))
  {
    Retry.RunBounds(m.monocle, retries, vendor);
    var o := Retry.Run(m.monocle, retries, vendor);
    if o.raised != [] {
      assert DispatchErrors(m, o.raised) == DispatchErrors(Dispatch(m, Error, Raised(o.raised[0])), []);
    }
  }
}
