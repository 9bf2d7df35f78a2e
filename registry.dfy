/** The handler table behind on(), off() and _dispatch(): for each event, the
    registrations in the order they were made, each pairing the consumer's
    handler with the listener that wraps it. Handlers are compared by
    identity, so they are opaque numbers here. */
module Registry {
  import opened Common

  type Handler = nat
  type Wrapper = nat

  datatype Entry = Entry(original: Handler, wrapper: Wrapper)

  type Table = map<Event, seq<Entry>>

  /** `_handlers.get(event) || []`. */
  function Get(t: Table, e: Event): seq<Entry> {
    if e in t then t[e] else []
  }

  /** `list.some(x => x.original === h)`. */
  predicate Registered(list: seq<Entry>, h: Handler) {
    exists i :: 0 <= i < |list| && list[i].original == h
  }

  /** No handler appears twice in one event's list. */
  ghost predicate Distinct(list: seq<Entry>) {
    forall i, j :: 0 <= i < j < |list| ==> list[i].original != list[j].original
  }

  /** What the table always satisfies: no empty list is kept, no handler is
      registered twice for one event, and every wrapper is one of the first
      `next` ever made, used once. */
  ghost predicate WellFormed(t: Table, next: nat) {
    && (forall e :: e in t ==> |t[e]| > 0 && Distinct(t[e]))
    && (forall e, i :: e in t && 0 <= i < |t[e]| ==> t[e][i].wrapper < next)
    && (forall e, i, f, j :: e in t && f in t && 0 <= i < |t[e]| && 0 <= j < |t[f]| && (e, i) != (f, j)
          ==> t[e][i].wrapper != t[f][j].wrapper)
  }

  /** The registrations `off` keeps: every entry whose original is not `h`,
      in their order. */
  function Without(list: seq<Entry>, h: Handler): (r: seq<Entry>)
    ensures |r| <= |list|
  {
    if list == [] then []
    else if list[0].original == h then Without(list[1..], h)
    else [list[0]] + Without(list[1..], h)
  }

  /** The table after `on(e, h)` registered `h` with the fresh wrapper `w`. */
  function Added(t: Table, e: Event, h: Handler, w: Wrapper): Table {
    t[e := Get(t, e) + [Entry(h, w)]]
  }

  /** The table after `off(e, h)`: the remaining entries, or no key at all. */
  function Removed(t: Table, e: Event, h: Handler): Table {
    if e !in t then t
    else
      var rest := Without(t[e], h);
      if |rest| > 0 then t[e := rest] else t - {e}
  }

  /** The handler invocations one dispatch of `e` with `d` makes, one per
      registration, in registration order. */
  function Deliveries(list: seq<Entry>, e: Event, d: Detail): (r: seq<Call>)
    ensures |r| == |list|
    ensures forall i :: 0 <= i < |list| ==> r[i] == Call(list[i].original, e, d)
  {
    seq(|list|, i requires 0 <= i < |list| => Call(list[i].original, e, d))
  }

  /** How many of `calls` went to handler `h`. */
  function CallsTo(calls: seq<Call>, h: Handler): nat {
    if calls == [] then 0
    else (if calls[0].handler == h then 1 else 0) + CallsTo(calls[1..], h)
  }

  // ---- Without: the filter `off` runs ----

  /** Building the remaining list one entry at a time, as off's loop does. */
  lemma {:induction false} WithoutSnoc(list: seq<Entry>, x: Entry, h: Handler)
    ensures Without(list + [x], h) == Without(list, h) + (if x.original == h then [] else [x])
  {
    if list == [] {
      assert list + [x] == [x];
    } else {
      assert (list + [x])[1..] == list[1..] + [x];
      WithoutSnoc(list[1..], x, h);
    }
  }

  /** Exactly the entries whose original is not `h` remain. */
  lemma {:induction false} WithoutMembers(list: seq<Entry>, h: Handler, x: Entry)
    ensures x in Without(list, h) <==> x in list && x.original != h
  {
    if list != [] {
      WithoutMembers(list[1..], h, x);
      assert list == [list[0]] + list[1..];
    }
  }

  /** Removing an unregistered handler keeps the list as it is. */
  lemma {:induction false} WithoutAbsent(list: seq<Entry>, h: Handler)
    requires !Registered(list, h)
    ensures Without(list, h) == list
  {
    if list != [] {
      assert !Registered(list[1..], h) by {
        forall i | 0 <= i < |list[1..]| ensures list[1..][i].original != h {
          assert list[1..][i] == list[i + 1];
        }
      }
      WithoutAbsent(list[1..], h);
    }
  }

  /** With no duplicates, removing a registered handler deletes exactly its one
      entry and keeps the others in their order. */
  lemma {:induction false} WithoutSingle(list: seq<Entry>, h: Handler, k: nat)
    requires Distinct(list)
    requires k < |list| && list[k].original == h
    ensures Without(list, h) == list[..k] + list[k + 1..]
  {
    if k == 0 {
      assert !Registered(list[1..], h) by {
        forall i | 0 <= i < |list[1..]| ensures list[1..][i].original != h {
          assert list[1..][i] == list[i + 1];
        }
      }
      WithoutAbsent(list[1..], h);
    } else {
      WithoutSingle(list[1..], h, k - 1);
      assert list[..k] == [list[0]] + list[1..][..k - 1];
      assert list[k + 1..] == list[1..][k..];
    }
  }

  /** Without never creates a duplicate. */
  lemma {:induction false} WithoutDistinct(list: seq<Entry>, h: Handler)
    requires Distinct(list)
    ensures Distinct(Without(list, h))
  {
    if list != [] {
      WithoutDistinct(list[1..], h);
      var rest := Without(list[1..], h);
      if list[0].original != h {
        forall i | 0 <= i < |rest| ensures rest[i].original != list[0].original {
          WithoutMembers(list[1..], h, rest[i]);
          var j :| 0 <= j < |list[1..]| && list[1..][j] == rest[i];
          assert list[j + 1] == rest[i];
        }
      }
    }
  }

  /** The handler is gone from the list. */
  lemma WithoutUnregisters(list: seq<Entry>, h: Handler)
    ensures !Registered(Without(list, h), h)
  {
    var r := Without(list, h);
    if Registered(r, h) {
      var i :| 0 <= i < |r| && r[i].original == h;
      WithoutMembers(list, h, r[i]);
    }
  }

  // ---- table-level properties of on and off ----

  /** on() with a new handler keeps the table well formed, given a fresh wrapper. */
  lemma AddedWellFormed(t: Table, next: nat, e: Event, h: Handler)
    requires WellFormed(t, next)
    requires !Registered(Get(t, e), h)
    ensures WellFormed(Added(t, e, h, next), next + 1)
  {
    var t' := Added(t, e, h, next);
    var l := Get(t, e);
    assert t'[e] == l + [Entry(h, next)];
    forall i, j | 0 <= i < j < |t'[e]| ensures t'[e][i].original != t'[e][j].original {
      if j == |l| {
        assert t'[e][i] == l[i];
      } else {
        assert t'[e][i] == l[i] && t'[e][j] == l[j];
      }
    }
  }

  /** off() keeps the table well formed. */
  lemma RemovedWellFormed(t: Table, next: nat, e: Event, h: Handler)
    requires WellFormed(t, next)
    ensures WellFormed(Removed(t, e, h), next)
  {
    if e in t {
      var l := t[e];
      var rest := Without(l, h);
      WithoutDistinct(l, h);
      forall i | 0 <= i < |rest| ensures exists j :: 0 <= j < |l| && l[j] == rest[i] {
        WithoutMembers(l, h, rest[i]);
      }
      var t': Table := Removed(t, e, h);
      forall f: Event, i: int, g: Event, j: int | f in t' && g in t' && 0 <= i < |t'[f]| && 0 <= j < |t'[g]| && (f, i) != (g, j)
        ensures t'[f][i].wrapper != t'[g][j].wrapper
      {
        var fi := Origin(t, e, h, f, i);
        var gj := Origin(t, e, h, g, j);
      }
    }
  }

  /** Where entry i of event f's list after off(e, h) sat before it. */
  ghost function Origin(t: Table, e: Event, h: Handler, f: Event, i: nat): (j: nat)
    requires f in Removed(t, e, h) && i < |Removed(t, e, h)[f]|
    ensures f in t && j < |t[f]| && t[f][j] == Removed(t, e, h)[f][i]
  {
    if f != e || e !in t then i
    else
      var l := t[e];
      WithoutMembers(l, h, Without(l, h)[i]);
      var j :| 0 <= j < |l| && l[j] == Without(l, h)[i]; j
  }

  /** on() with a handler already registered for the event leaves the table as
      it is, and off() undoes an on() of a new handler exactly: the same lists,
      and no key left behind where there was none. */
  lemma OffUndoesOn(t: Table, next: nat, e: Event, h: Handler)
    requires WellFormed(t, next)
    requires !Registered(Get(t, e), h)
    ensures Removed(Added(t, e, h, next), e, h) == t
  {
    var l := Get(t, e);
    WithoutSnoc(l, Entry(h, next), h);
    WithoutAbsent(l, h);
    if e !in t {
      var t' := Added(t, e, h, next);
      assert Without(t'[e], h) == [];
      assert t' - {e} == t;
    } else {
      var t' := Added(t, e, h, next);
      assert t'[e] == l + [Entry(h, next)];
      assert Without(t'[e], h) == l;
      assert |l| > 0;
      assert t'[e := l] == t;
    }
  }

  /** off() twice is off() once. */
  lemma RemovedIdempotent(t: Table, e: Event, h: Handler)
    ensures Removed(Removed(t, e, h), e, h) == Removed(t, e, h)
  {
    if e in t && |Without(t[e], h)| > 0 {
      WithoutUnregisters(t[e], h);
      WithoutAbsent(Without(t[e], h), h);
    }
  }

  /** One dispatch reaches a handler exactly once when it is registered for the
      event, and not at all otherwise. */
  lemma {:induction false} DeliveredOnce(list: seq<Entry>, h: Handler, e: Event, d: Detail)
    requires Distinct(list)
    ensures CallsTo(Deliveries(list, e, d), h) == if Registered(list, h) then 1 else 0
  {
    if list != [] {
      var tail := list[1..];
      assert Deliveries(list, e, d)[1..] == Deliveries(tail, e, d);
      DeliveredOnce(tail, h, e, d);
      if list[0].original == h {
        assert !Registered(tail, h) by {
          forall i | 0 <= i < |tail| ensures tail[i].original != h {
            assert tail[i] == list[i + 1];
          }
        }
      } else {
        assert Registered(list, h) ==> Registered(tail, h) by {
          if Registered(list, h) {
            var i :| 0 <= i < |list| && list[i].original == h;
            assert tail[i - 1] == list[i];
          }
        }
        assert Registered(tail, h) ==> Registered(list, h) by {
          if Registered(tail, h) {
            var i :| 0 <= i < |tail| && tail[i].original == h;
            assert list[i + 1] == tail[i];
          }
        }
      }
    }
  }
}
