/**
 * Exclusive ownership of a chain's runtime upgrade overrides. A guard is dropped in two separately locked
 * halves, clearing the registry and then releasing the ownership, and other threads may run in between.
 */
module UpgradeGuard {
  import opened Basics

  type ChainId = nat
  type GuardId = nat
  type Overrides = nat

  /** An entry of the global registry, with the guard whose stack wrote it. */
  datatype Entry = Entry(overrides: Overrides, writer: GuardId)

  /** The two process-wide tables. */
  datatype Tables = Tables(owners: set<ChainId>, registry: map<ChainId, Entry>)

  function AcquireIn(t: Tables, chain: ChainId): (Tables, bool) {
    (t.(owners := t.owners + {chain}), chain !in t.owners)
  }

  function ClearIn(t: Tables, chain: ChainId): Tables {
    t.(registry := t.registry - {chain})
  }

  function ReleaseIn(t: Tables, chain: ChainId): Tables {
    t.(owners := t.owners - {chain})
  }

  class RuntimeUpgradeTables {
    var owners: set<ChainId>
    var registry: map<ChainId, Entry>

    ghost function Value(): Tables
      reads this
    {
      Tables(owners, registry)
    }

    constructor ()
      ensures Value() == Tables({}, map[])
    {
      owners, registry := {}, map[];
    }

    /** Fails if the chain has an owner, and otherwise makes it owned. */
    method Acquire(chain: ChainId) returns (ok: bool)
      modifies this`owners
      ensures (Value(), ok) == AcquireIn(old(Value()), chain)
      ensures !ok ==> Value() == old(Value())
    {
      ok := chain !in owners;
      owners := owners + {chain};
    }

    method ClearChain(chain: ChainId)
      modifies this`registry
      ensures Value() == ClearIn(old(Value()), chain)
    {
      registry := registry - {chain};
    }

    method Release(chain: ChainId)
      modifies this`owners
      ensures Value() == ReleaseIn(old(Value()), chain)
    {
      owners := owners - {chain};
    }

    /** Both halves of a drop with nothing in between. */
    method DropGuard(chain: ChainId)
      modifies this
      ensures Value() == ReleaseIn(ClearIn(old(Value()), chain), chain)
    {
      ClearChain(chain);
      Release(chain);
    }
  }

  // ---- Any number of guards, interleaved ----

  /** `dropping` once the first half of the drop is done. */
  datatype Guard = Guard(chain: ChainId, dropping: bool)

  /** All guards that exist; `next` names the next one. */
  datatype World = World(tables: Tables, guards: map<GuardId, Guard>, next: GuardId)

  datatype Order = ClearThenRelease | ReleaseThenClear

  datatype Op =
    | Acquire(chain: ChainId)
    | Write(guard: GuardId, overrides: Overrides)
    | BeginDrop(guard: GuardId)
    | EndDrop(guard: GuardId)

  ghost predicate Enabled(w: World, op: Op) {
    match op
    case Acquire(_) => true
    case Write(g, _) => g in w.guards && !w.guards[g].dropping
    case BeginDrop(g) => g in w.guards && !w.guards[g].dropping
    case EndDrop(g) => g in w.guards && w.guards[g].dropping
  }

  ghost function Half(t: Tables, chain: ChainId, clear: bool): Tables {
    if clear then ClearIn(t, chain) else ReleaseIn(t, chain)
  }

  /** One atomic step; a step that no guard can take changes nothing. Only guards not being dropped write. */
  ghost function Next(order: Order, w: World, op: Op): World {
    if !Enabled(w, op) then w
    else match op
      case Acquire(chain) =>
        var (t, ok) := AcquireIn(w.tables, chain);
        if ok then World(t, w.guards[w.next := Guard(chain, false)], w.next + 1) else w
      case Write(g, o) =>
        w.(tables := w.tables.(registry := w.tables.registry[w.guards[g].chain := Entry(o, g)]))
      case BeginDrop(g) =>
        w.(tables := Half(w.tables, w.guards[g].chain, order.ClearThenRelease?),
           guards := w.guards[g := w.guards[g].(dropping := true)])
      case EndDrop(g) =>
        w.(tables := Half(w.tables, w.guards[g].chain, order.ReleaseThenClear?), guards := w.guards - {g})
  }

  /** The half of a drop that clears the registry. */
  ghost predicate Clears(order: Order, op: Op, g: GuardId) {
    if order.ClearThenRelease? then op == BeginDrop(g) else op == EndDrop(g)
  }

  const EMPTY: World := World(Tables({}, map[]), map[], 0)

  /** The world after a sequence of steps. */
  ghost function After(order: Order, ops: seq<Op>): World {
    if ops == [] then EMPTY else Next(order, After(order, ops[..|ops| - 1]), ops[|ops| - 1])
  }

  /**
   * Owned chains are those of the guards, no two guards share a chain, and an override in the registry was
   * written by its chain's guard, which has not begun to drop.
   */
  ghost predicate Exclusive(w: World) {
    && (forall g :: g in w.guards ==> g < w.next && w.guards[g].chain in w.tables.owners)
    && (forall c :: c in w.tables.owners ==> exists g :: g in w.guards && w.guards[g].chain == c)
    && (forall g, h :: g in w.guards && h in w.guards && w.guards[g].chain == w.guards[h].chain ==> g == h)
    && (forall c :: c in w.tables.registry ==>
          var g := w.tables.registry[c].writer;
          g in w.guards && w.guards[g] == Guard(c, false))
  }

  lemma AcquireKeeps(w: World, chain: ChainId)
    ensures Exclusive(w) ==> Exclusive(Next(ClearThenRelease, w, Acquire(chain)))
  {
    if Exclusive(w) && chain !in w.tables.owners {
      var n := Next(ClearThenRelease, w, Acquire(chain));
      forall c | c in n.tables.owners ensures exists g :: g in n.guards && n.guards[g].chain == c {
        if c == chain {
          assert n.guards[w.next].chain == c;
        } else {
          var g :| g in w.guards && w.guards[g].chain == c;
          assert g in n.guards && n.guards[g].chain == c;
        }
      }
    }
  }

  lemma WriteKeeps(w: World, g: GuardId, o: Overrides)
    ensures Exclusive(w) ==> Exclusive(Next(ClearThenRelease, w, Write(g, o)))
  {
  }

  lemma BeginKeeps(w: World, g: GuardId)
    ensures Exclusive(w) ==> Exclusive(Next(ClearThenRelease, w, BeginDrop(g)))
  {
    if Exclusive(w) && Enabled(w, BeginDrop(g)) {
      var n := Next(ClearThenRelease, w, BeginDrop(g));
      forall c | c in n.tables.owners ensures exists h :: h in n.guards && n.guards[h].chain == c {
        var h :| h in w.guards && w.guards[h].chain == c;
        assert h in n.guards && n.guards[h].chain == c;
      }
    }
  }

  lemma EndKeeps(w: World, g: GuardId)
    ensures Exclusive(w) ==> Exclusive(Next(ClearThenRelease, w, EndDrop(g)))
  {
    if Exclusive(w) && Enabled(w, EndDrop(g)) {
      var n := Next(ClearThenRelease, w, EndDrop(g));
      forall c | c in n.tables.owners ensures exists h :: h in n.guards && n.guards[h].chain == c {
        var h :| h in w.guards && w.guards[h].chain == c;
        assert h in n.guards && n.guards[h].chain == c;
      }
    }
  }

  lemma ExclusiveStep(w: World, op: Op)
    ensures Exclusive(w) ==> Exclusive(Next(ClearThenRelease, w, op))
  {
    match op
    case Acquire(chain) => AcquireKeeps(w, chain);
    case Write(g, o) => WriteKeeps(w, g, o);
    case BeginDrop(g) => BeginKeeps(w, g);
    case EndDrop(g) => EndKeeps(w, g);
  }

  lemma {:induction false} AlwaysExclusive(ops: seq<Op>)
    ensures Exclusive(After(ClearThenRelease, ops))
  {
    if ops != [] {
      AlwaysExclusive(ops[..|ops| - 1]);
      ExclusiveStep(After(ClearThenRelease, ops[..|ops| - 1]), ops[|ops| - 1]);
    }
  }

  /**
   * After any interleaving: a chain has at most one guard; an acquisition succeeds exactly when the chain has
   * none, and then it finds the chain's registry empty; and whatever a guard's drop clears, it wrote itself.
   */
  lemma GuardsAreIsolated(ops: seq<Op>)
    ensures var w := After(ClearThenRelease, ops);
            && (forall g, h :: g in w.guards && h in w.guards && w.guards[g].chain == w.guards[h].chain ==> g == h)
            && (forall chain :: AcquireIn(w.tables, chain).1 <==>
                  forall g :: g in w.guards ==> w.guards[g].chain != chain)
            && (forall chain :: AcquireIn(w.tables, chain).1 ==> chain !in w.tables.registry)
            && (forall op, g :: Enabled(w, op) && Clears(ClearThenRelease, op, g) ==>
                  var chain := w.guards[g].chain;
                  chain in w.tables.registry ==> w.tables.registry[chain].writer == g)
  {
    AlwaysExclusive(ops);
  }

  /** What a guard last wrote is in the registry. */
  ghost predicate InPlace(w: World, g: GuardId, chain: ChainId, o: Overrides) {
    && g in w.guards && w.guards[g] == Guard(chain, false)
    && chain in w.tables.registry && w.tables.registry[chain] == Entry(o, g)
  }

  ghost predicate ByGuard(op: Op, g: GuardId) {
    !op.Acquire? && op.guard == g
  }

  lemma InPlaceStep(w: World, op: Op, g: GuardId, chain: ChainId, o: Overrides)
    ensures Exclusive(w) && InPlace(w, g, chain, o) && !ByGuard(op, g) ==>
              InPlace(Next(ClearThenRelease, w, op), g, chain, o)
  {
  }

  lemma {:induction false} StaysInPlace(start: seq<Op>, after: seq<Op>, g: GuardId, chain: ChainId, o: Overrides)
    requires forall op :: op in after ==> !ByGuard(op, g)
    ensures InPlace(After(ClearThenRelease, start), g, chain, o) ==>
              InPlace(After(ClearThenRelease, start + after), g, chain, o)
  {
    if after == [] {
      assert start + after == start;
    } else {
      var init, last := after[..|after| - 1], after[|after| - 1];
      var all := start + after;
      assert all[..|all| - 1] == start + init && last in after;
      StaysInPlace(start, init, g, chain, o);
      AlwaysExclusive(start + init);
      InPlaceStep(After(ClearThenRelease, start + init), last, g, chain, o);
    }
  }

  /** Overrides stay exactly as their owner wrote them until the owner itself writes again or drops. */
  lemma OverridesStayInPlace(before: seq<Op>, after: seq<Op>, g: GuardId, o: Overrides)
    requires Enabled(After(ClearThenRelease, before), Write(g, o))
    requires forall op :: op in after ==> !ByGuard(op, g)
    ensures var chain := After(ClearThenRelease, before).guards[g].chain;
            InPlace(After(ClearThenRelease, before + [Write(g, o)] + after), g, chain, o)
  {
    var start := before + [Write(g, o)];
    assert start[..|start| - 1] == before;
    StaysInPlace(start, after, g, After(ClearThenRelease, before).guards[g].chain, o);
  }

  /** With the halves of the drop swapped, a guard's drop can clear what a later owner has written. */
  lemma ReleasingFirstIsUnsafe(chain: ChainId, o: Overrides)
    ensures var ops := [Acquire(chain), BeginDrop(0), Acquire(chain), Write(1, o)];
            var w := After(ReleaseThenClear, ops);
            && Enabled(w, EndDrop(0)) && Clears(ReleaseThenClear, EndDrop(0), 0)
            && InPlace(w, 1, chain, o)
            && chain !in Next(ReleaseThenClear, w, EndDrop(0)).tables.registry
  {
    var ops := [Acquire(chain), BeginDrop(0), Acquire(chain), Write(1, o)];
    assert ops[..3][..2][..1] == [Acquire(chain)] && ops[..3][..2] == ops[..2];
    assert After(ReleaseThenClear, ops[..1]) == World(Tables({chain}, map[]), map[0 := Guard(chain, false)], 1);
    var w2 := After(ReleaseThenClear, ops[..2]);
    assert ops[..2][..1] == ops[..1];
    assert w2 == World(Tables({}, map[]), map[0 := Guard(chain, true)], 1);
    assert ops[..3][..2] == ops[..2];
    var w3 := After(ReleaseThenClear, ops[..3]);
    assert w3 == World(Tables({chain}, map[]), map[0 := Guard(chain, true), 1 := Guard(chain, false)], 2);
  }
}
