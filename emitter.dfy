/**
 * The typed event emitter of the JS core package. Per event type it keeps
 * an insertion-ordered collection of handlers, each registered at most
 * once together with its `once` flag; a type with no handlers left is
 * removed from the store. Handlers are abstract identities (JavaScript
 * compares functions by reference); invoking one is recorded, not run.
 */
module Events {
  import opened Wrappers

  datatype Entry<H> = Entry(handler: H, once: bool)

  /** A handler given to the constructor: absent, plain, or with options. */
  datatype InitialHandler<H> = Missing | Plain(h: H) | WithOptions(handler: H, once: Option<bool>) | WithoutHandlerKey

  /** The function returned by `on`/`once`: calling it performs `off(type, handler)`. */
  datatype CleanupFn<E, H> = CleanupFn(eventType: E, handler: H)

  function Handlers<H(==)>(s: seq<Entry<H>>): (r: seq<H>)
    ensures |r| == |s|
    ensures forall k | 0 <= k < |s| :: r[k] == s[k].handler
  {
    seq(|s|, k requires 0 <= k < |s| => s[k].handler)
  }

  predicate DistinctHandlers<H(==)>(s: seq<Entry<H>>) {
    forall i, j | 0 <= i < |s| && 0 <= j < |s| && i != j :: s[i].handler != s[j].handler
  }

  /** The store invariant: every stored type has a non-empty, duplicate-free handler list. */
  predicate WellFormed<E(==), H(==)>(store: map<E, seq<Entry<H>>>) {
    forall t | t in store :: store[t] != [] && DistinctHandlers(store[t])
  }

  /** The handlers of a type in registration order; none for an unknown type. */
  function ItemOf<E(==), H(==)>(store: map<E, seq<Entry<H>>>, t: E): seq<Entry<H>> {
    if t in store then store[t] else []
  }

  /** Stores the handler list of a type, dropping the type when the list is empty. */
  function Settle<E(==), H(==)>(store: map<E, seq<Entry<H>>>, t: E, item: seq<Entry<H>>): (r: map<E, seq<Entry<H>>>)
    ensures t in r <==> item != []
    ensures t in r ==> r[t] == item
    ensures forall u | u in store && u != t :: u in r && r[u] == store[u]
    ensures forall u | u in r && u != t :: u in store
  {
    if item == [] then store - {t} else store[t := item]
  }

  /** `#on(type, handler, ctx)`: appends the handler unless it is already registered for the type. */
  function Register<E(==), H(==)>(store: map<E, seq<Entry<H>>>, t: E, h: H, once: bool): (r: map<E, seq<Entry<H>>>)
    ensures h in Handlers(ItemOf(store, t)) ==> r == store
    ensures h !in Handlers(ItemOf(store, t)) ==> r == store[t := ItemOf(store, t) + [Entry(h, once)]]
  {
    var item := ItemOf(store, t);
    if h in Handlers(item) then store else store[t := item + [Entry(h, once)]]
  }

  /** The handler list with one handler deleted (`Map.prototype.delete`). */
  function Without<H(==)>(s: seq<Entry<H>>, h: H): (r: seq<Entry<H>>)
    ensures |r| <= |s|
  {
    if s == [] then []
    else if s[0].handler == h then Without(s[1..], h)
    else [s[0]] + Without(s[1..], h)
  }

  /** Deleting a handler removes it and keeps every other entry, adding none. */
  lemma {:induction false} WithoutSpec<H>(s: seq<Entry<H>>, h: H)
    ensures h !in Handlers(Without(s, h))
    ensures forall k | 0 <= k < |s| && s[k].handler != h :: s[k] in Without(s, h)
    ensures forall e | e in Without(s, h) :: e in s
  {
    if s != [] {
      WithoutSpec(s[1..], h);
      var rest := Without(s[1..], h);
      forall k | 1 <= k < |s| && s[k].handler != h
        ensures s[k] in Without(s, h)
      {
        assert s[1..][k - 1] == s[k];
      }
      if s[0].handler != h {
        assert Without(s, h) == [s[0]] + rest;
        assert Handlers([s[0]] + rest) == [s[0].handler] + Handlers(rest);
      }
    }
  }

  /** The entries an emit keeps: every `on` handler, in order, and no `once` handler. */
  function KeepRecurring<H(==)>(s: seq<Entry<H>>): (r: seq<Entry<H>>)
    ensures forall e | e in r :: !e.once && e in s
    ensures forall k | 0 <= k < |s| && !s[k].once :: s[k] in r
  {
    if s == [] then []
    else if s[0].once then KeepRecurring(s[1..])
    else [s[0]] + KeepRecurring(s[1..])
  }

  lemma {:induction false} WithoutAbsent<H>(s: seq<Entry<H>>, h: H)
    requires h !in Handlers(s)
    ensures Without(s, h) == s
  {
    if s != [] {
      assert Handlers(s[1..]) == Handlers(s)[1..];
      WithoutAbsent(s[1..], h);
    }
  }

  /** One unfolding of `Without` on a list with a known first entry. */
  lemma WithoutCons<H>(x: Entry<H>, r: seq<Entry<H>>, h: H)
    ensures Without([x] + r, h) == if x.handler == h then Without(r, h) else [x] + Without(r, h)
  {
    assert ([x] + r)[1..] == r;
  }

  lemma {:induction false} WithoutAppend<H>(a: seq<Entry<H>>, b: seq<Entry<H>>, h: H)
    ensures Without(a + b, h) == Without(a, h) + Without(b, h)
  {
    if a != [] {
      var x, rest := a[0], a[1..];
      assert a == [x] + rest;
      assert a + b == [x] + (rest + b);
      WithoutAppend(rest, b, h);
      WithoutCons(x, rest + b, h);
      WithoutCons(x, rest, h);
      if x.handler != h {
        assert [x] + (Without(rest, h) + Without(b, h)) == [x] + Without(rest, h) + Without(b, h);
      }
    } else {
      assert a + b == b;
    }
  }

  lemma {:induction false} KeepAppend<H>(a: seq<Entry<H>>, b: seq<Entry<H>>)
    ensures KeepRecurring(a + b) == KeepRecurring(a) + KeepRecurring(b)
  {
    if a != [] {
      assert (a + b)[1..] == a[1..] + b;
      KeepAppend(a[1..], b);
    } else {
      assert a + b == b;
    }
  }

  lemma {:induction false} WithoutKeepsDistinct<H>(s: seq<Entry<H>>, h: H)
    requires DistinctHandlers(s)
    ensures DistinctHandlers(Without(s, h))
  {
    if s != [] {
      WithoutKeepsDistinct(s[1..], h);
      if s[0].handler != h {
        var r := Without(s[1..], h);
        WithoutSpec(s[1..], h);
        forall e | e in r ensures e.handler != s[0].handler {
          var k :| 0 <= k < |s[1..]| && s[1..][k] == e;
          assert s[k + 1] == e;
        }
        assert forall k | 0 <= k < |r| :: r[k] in r;
      }
    }
  }

  /** Deleting the handler at position i of a distinct list removes exactly that entry. */
  lemma RemoveAt<H>(s: seq<Entry<H>>, i: nat)
    requires DistinctHandlers(s) && i < |s|
    ensures Without(s[i..], s[i].handler) == s[i + 1..]
  {
    assert s[i..] == [s[i]] + s[i + 1..];
    var tail := s[i + 1..];
    forall k | 0 <= k < |tail| ensures tail[k].handler != s[i].handler {
      assert tail[k] == s[i + 1 + k];
    }
    WithoutAbsent(tail, s[i].handler);
  }

  /** A handler never appears among the kept entries of a prefix of a distinct list that ends before it. */
  lemma PrefixLacks<H>(s: seq<Entry<H>>, i: nat)
    requires DistinctHandlers(s) && i < |s|
    ensures s[i].handler !in Handlers(KeepRecurring(s[..i]))
  {
    var r := KeepRecurring(s[..i]);
    forall k | 0 <= k < |r| ensures r[k].handler != s[i].handler {
      assert r[k] in r;
      var j :| 0 <= j < |s[..i]| && s[..i][j] == r[k];
      assert s[j] == r[k];
    }
  }

  lemma SettleTwice<E, H>(store: map<E, seq<Entry<H>>>, t: E, a: seq<Entry<H>>, b: seq<Entry<H>>)
    requires a != []
    ensures Settle(Settle(store, t, a), t, b) == Settle(store, t, b)
  {
  }

  /** Extending a prefix by the next element. */
  lemma PrefixStep<T>(s: seq<T>, i: nat)
    requires i < |s|
    ensures s[..i + 1] == s[..i] + [s[i]]
  {
  }

  /** The store left while emitting after visiting i entries of the snapshot. */
  function EmitProgress<E(==), H(==)>(store: map<E, seq<Entry<H>>>, t: E, snapshot: seq<Entry<H>>, i: nat): map<E, seq<Entry<H>>>
    requires i <= |snapshot|
  {
    Settle(store, t, KeepRecurring(snapshot[..i]) + snapshot[i..])
  }

  /** Before the first entry the in-progress store is the store itself. */
  lemma EmitProgressStart<E, H>(store: map<E, seq<Entry<H>>>, t: E)
    requires t in store && store[t] != []
    ensures EmitProgress(store, t, store[t], 0) == store
  {
    var snapshot := store[t];
    assert snapshot[..0] == [] && snapshot[0..] == snapshot;
    assert KeepRecurring(snapshot[..0]) + snapshot[0..] == snapshot;
  }

  /** After the last entry only the recurring handlers of the snapshot are left. */
  lemma EmitProgressEnd<E, H>(store: map<E, seq<Entry<H>>>, t: E, snapshot: seq<Entry<H>>)
    ensures EmitProgress(store, t, snapshot, |snapshot|) == Settle(store, t, KeepRecurring(snapshot))
  {
    assert snapshot[..|snapshot|] == snapshot;
    assert KeepRecurring(snapshot[..|snapshot|]) + snapshot[|snapshot|..] == KeepRecurring(snapshot);
  }

  /** Visiting a `once` entry: deleting its handler from the in-progress store advances it by one. */
  lemma EmitOnceStep<E, H>(store: map<E, seq<Entry<H>>>, t: E, snapshot: seq<Entry<H>>, i: nat)
    requires DistinctHandlers(snapshot) && i < |snapshot| && snapshot[i].once
    ensures t in EmitProgress(store, t, snapshot, i)
    ensures Settle(EmitProgress(store, t, snapshot, i), t,
                   Without(EmitProgress(store, t, snapshot, i)[t], snapshot[i].handler))
         == EmitProgress(store, t, snapshot, i + 1)
  {
    assert snapshot[i..] != [];
    OnceStepItem(snapshot, i);
    SettleTwice(store, t, KeepRecurring(snapshot[..i]) + snapshot[i..],
                KeepRecurring(snapshot[..i + 1]) + snapshot[i + 1..]);
  }

  /** Visiting a recurring entry leaves the in-progress store as it was. */
  lemma EmitKeepStep<E, H>(store: map<E, seq<Entry<H>>>, t: E, snapshot: seq<Entry<H>>, i: nat)
    requires i < |snapshot| && !snapshot[i].once
    ensures EmitProgress(store, t, snapshot, i + 1) == EmitProgress(store, t, snapshot, i)
  {
    KeepStepItem(snapshot, i);
  }

  /** A `once` entry adds nothing to the kept entries of a prefix. */
  lemma KeepPastOnce<H>(snapshot: seq<Entry<H>>, i: nat)
    requires i < |snapshot| && snapshot[i].once
    ensures KeepRecurring(snapshot[..i + 1]) == KeepRecurring(snapshot[..i])
  {
    assert snapshot[..i + 1] == snapshot[..i] + [snapshot[i]];
    KeepAppend(snapshot[..i], [snapshot[i]]);
    assert KeepRecurring([snapshot[i]]) == [];
  }

  /** Deleting the i-th `once` handler from the in-progress list advances it by one entry. */
  lemma OnceStepItem<H>(snapshot: seq<Entry<H>>, i: nat)
    requires DistinctHandlers(snapshot) && i < |snapshot| && snapshot[i].once
    ensures Without(KeepRecurring(snapshot[..i]) + snapshot[i..], snapshot[i].handler)
         == KeepRecurring(snapshot[..i + 1]) + snapshot[i + 1..]
  {
    var h, kept := snapshot[i].handler, KeepRecurring(snapshot[..i]);
    KeepPastOnce(snapshot, i);
    PrefixLacks(snapshot, i);
    WithoutAbsent(kept, h);
    WithoutAppend(kept, snapshot[i..], h);
    RemoveAt(snapshot, i);
  }

  /** Passing a recurring entry leaves the in-progress list as it was. */
  lemma KeepStepItem<H>(snapshot: seq<Entry<H>>, i: nat)
    requires i < |snapshot| && !snapshot[i].once
    ensures KeepRecurring(snapshot[..i + 1]) + snapshot[i + 1..] == KeepRecurring(snapshot[..i]) + snapshot[i..]
  {
    var entry := snapshot[i];
    assert snapshot[..i + 1] == snapshot[..i] + [entry];
    assert snapshot[i..] == [entry] + snapshot[i + 1..];
    KeepAppend(snapshot[..i], [entry]);
    assert KeepRecurring([entry]) == [entry];
  }

  class Emitter<E(==), H(==)> {
    var store: map<E, seq<Entry<H>>>

    predicate Valid()
      reads this
    {
      WellFormed(store)
    }

    /** The constructor's registrations, in the order of the initial entries. */
    static function InitialStore(store: map<E, seq<Entry<H>>>, entries: seq<(E, InitialHandler<H>)>): map<E, seq<Entry<H>>>
      decreases |entries|
    {
      if entries == [] then store
      else
        var t := entries[0].0;
        var next :=
          match entries[0].1
          case Missing => store
          case WithoutHandlerKey => store
          case Plain(h) => Register(store, t, h, false)
          case WithOptions(h, once) => Register(store, t, h, once.GetOr(false));
        InitialStore(next, entries[1..])
    }

    /** `new Emitter(initialHandlers)`; an omitted argument is the empty sequence. */
    constructor (initial: seq<(E, InitialHandler<H>)>)
      ensures Valid()
      ensures store == InitialStore(map[], initial)
    {
      store := map[];
      new;
      var i := 0;
      while i < |initial|
        invariant 0 <= i <= |initial|
        invariant Valid()
        invariant InitialStore(store, initial[i..]) == InitialStore(map[], initial)
      {
        assert initial[i..][1..] == initial[i + 1..];
        var (t, entry) := initial[i];
        match entry {
          case Missing =>
          case WithoutHandlerKey =>
          case Plain(h) =>
            var _ := RegisterHandler(t, h, false);
          case WithOptions(h, once) =>
            var _ := RegisterHandler(t, h, once.GetOr(false));
        }
        i := i + 1;
      }
    }

    /** `#on(type, handler, ctx)`. */
    method RegisterHandler(t: E, h: H, once: bool) returns (cleanup: CleanupFn<E, H>)
      requires Valid()
      modifies this
      ensures Valid()
      ensures store == Register(old(store), t, h, once)
      ensures cleanup == CleanupFn(t, h)
    {
      var item := if t in store then store[t] else [];
      cleanup := CleanupFn(t, h);
      if h in Handlers(item) {
        return;
      }
      forall i, j | 0 <= i < |item + [Entry(h, once)]| && 0 <= j < |item + [Entry(h, once)]| && i != j
        ensures (item + [Entry(h, once)])[i].handler != (item + [Entry(h, once)])[j].handler
      {
        if i < |item| && j < |item| {
        } else if i < |item| {
          assert Handlers(item)[i] == item[i].handler;
        } else {
          assert Handlers(item)[j] == item[j].handler;
        }
      }
      store := store[t := item + [Entry(h, once)]];
    }

    /** `on(type, handler)`: a recurring registration. */
    method On(t: E, h: H) returns (cleanup: CleanupFn<E, H>)
      requires Valid()
      modifies this
      ensures Valid()
      ensures store == Register(old(store), t, h, false)
      ensures cleanup == CleanupFn(t, h)
    {
      cleanup := RegisterHandler(t, h, false);
    }

    /** `once(type, handler)`: a registration removed after its first invocation. */
    method Once(t: E, h: H) returns (cleanup: CleanupFn<E, H>)
      requires Valid()
      modifies this
      ensures Valid()
      ensures store == Register(old(store), t, h, true)
      ensures cleanup == CleanupFn(t, h)
    {
      cleanup := RegisterHandler(t, h, true);
    }

    /** `off(type)` when `handler` is `None`, `off(type, handler)` otherwise. */
    method Off(t: E, handler: Option<H>)
      requires Valid()
      modifies this
      ensures Valid()
      ensures t !in old(store) ==> store == old(store)
      ensures t in old(store) && handler.None? ==> store == old(store) - {t}
      ensures t in old(store) && handler.Some? ==> store == Settle(old(store), t, Without(old(store)[t], handler.value))
    {
      if t !in store {
        return;
      }
      if handler.Some? {
        var item := store[t];
        item := Without(item, handler.value);
        WithoutKeepsDistinct(store[t], handler.value);
        if |item| == 0 {
          store := store - {t};
        } else {
          store := store[t := item];
        }
      } else {
        store := store - {t};
      }
    }

    /** Calling a cleanup function returned by `on`/`once`. */
    method RunCleanup(cleanup: CleanupFn<E, H>)
      requires Valid()
      modifies this
      ensures Valid()
      ensures cleanup.eventType !in old(store) ==> store == old(store)
      ensures cleanup.eventType in old(store) ==>
        store == Settle(old(store), cleanup.eventType, Without(old(store)[cleanup.eventType], cleanup.handler))
    {
      Off(cleanup.eventType, Some(cleanup.handler));
    }

    /** `clear()`. */
    method Clear()
      modifies this
      ensures Valid() && store == map[]
    {
      store := map[];
    }

    /**
     * `emit(type, ...args)`: invokes the handlers registered when the emit
     * starts, in registration order, and removes each `once` handler after
     * invoking it. Returns the handlers invoked, in order.
     */
    method Emit(t: E) returns (invoked: seq<H>)
      requires Valid()
      modifies this
      ensures Valid()
      ensures invoked == Handlers(ItemOf(old(store), t))
      ensures t in old(store) ==> store == Settle(old(store), t, KeepRecurring(old(store)[t]))
      ensures t !in old(store) ==> store == old(store)
    {
      if t !in store {
        return [];
      }
      var snapshot := store[t];
      invoked := [];
      var i := 0;
      EmitProgressStart(store, t);
      while i < |snapshot|
        invariant 0 <= i <= |snapshot|
        invariant Valid()
        invariant DistinctHandlers(snapshot)
        invariant invoked == Handlers(snapshot)[..i]
        invariant store == EmitProgress(old(store), t, snapshot, i)
      {
        var entry := snapshot[i];
        invoked := invoked + [entry.handler];
        PrefixStep(Handlers(snapshot), i);
        if entry.once {
          EmitOnceStep(old(store), t, snapshot, i);
          Off(t, Some(entry.handler));
        } else {
          EmitKeepStep(old(store), t, snapshot, i);
        }
        i := i + 1;
      }
      assert Handlers(snapshot)[..i] == Handlers(snapshot);
      EmitProgressEnd(old(store), t, snapshot);
    }
  }

  /** After an emit, a second emit of the same type invokes only the recurring handlers, in order. */
  lemma SecondEmitSkipsOnce<E, H>(store: map<E, seq<Entry<H>>>, t: E)
    requires WellFormed(store) && t in store
    ensures Handlers(ItemOf(Settle(store, t, KeepRecurring(store[t])), t)) == Handlers(KeepRecurring(store[t]))
    ensures forall e | e in ItemOf(Settle(store, t, KeepRecurring(store[t])), t) :: !e.once
  {
  }

  /** Registering a handler that is already there keeps its first registration, including its `once` flag. */
  lemma DuplicateRegistrationIgnored<E, H>(store: map<E, seq<Entry<H>>>, t: E, h: H, once: bool)
    requires t in store && Entry(h, !once) in store[t]
    ensures Register(store, t, h, once) == store
  {
    var k :| 0 <= k < |store[t]| && store[t][k] == Entry(h, !once);
    assert Handlers(store[t])[k] == h;
  }
}
