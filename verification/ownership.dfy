/** Reference balance across any number of SmartPtr handles.

    A table holds the reference counts, the pointers of a sequence of live
    handles and, per object, the references owned outside any handle (raw
    pointers that QueryInterface returned, Detach handed out, or other code
    holds). It is balanced when every object's count is exactly the references
    owned outside plus the handles that point at it. Each handle operation,
    applied with the same step the SmartPtr class is proved against, keeps the
    table balanced, so no sequence of operations leaks or double-releases. */
module Ownership {
  import opened Com
  import opened SmartPointer

  datatype Table = Table(refs: Counts, handles: seq<Ptr>, raw: Counts)

  /** 1 when `p` points at object `o`, else 0. */
  function Mark(L: Layout, p: Ptr, o: ObjId): nat
  {
    if L.Holds(p, o) then 1 else 0
  }

  /** How many of the handles `hs` point at object `o`. */
  function Holders(L: Layout, hs: seq<Ptr>, o: ObjId): nat
  {
    if hs == [] then 0 else Mark(L, hs[0], o) + Holders(L, hs[1..], o)
  }

  /** Every count is the references held outside the handles plus the handles holding the object. */
  predicate Balanced(L: Layout, t: Table)
  {
    && L.Valid() && L.Tracks(t.refs) && t.raw.Keys == t.refs.Keys
    && (forall i | 0 <= i < |t.handles| :: L.Knows(t.handles[i]))
    && (forall o | o in t.refs :: t.refs[o] == t.raw[o] + Holders(L, t.handles, o))
  }

  /** What a program can do with its handles. */
  datatype Op =
    | Construct                 // SmartPtr(): a new empty handle
    | CopyConstruct(src: nat)   // SmartPtr(handles[src])
    | Destruct(h: nat)          // ~SmartPtr(): the handle goes away
    | Assign(dst: nat, src: nat)
    | Release(h: nat)
    | Detach(h: nat)            // the reference moves outside the handles
    | Attach(h: nat, p: Ptr)    // a reference owned outside moves into the handle
    | Query(h: nat, iid: Iid)   // on success the caller owns the new reference

  /** When a program may issue `op`: the handles exist, Attach is given a
      reference the caller owns, QueryInterface is not called through an empty
      handle, and a handle assigned to itself either is recognised as itself
      or does not hold the object's last reference. */
  predicate Enabled(L: Layout, t: Table, op: Op)
    requires Balanced(L, t)
  {
    var n := |t.handles|;
    match op
    case Construct => true
    case CopyConstruct(s) => s < n
    case Destruct(h) => h < n
    case Assign(d, s) =>
      d < n && s < n &&
      (d == s ==> (HeldIsAlive(L, t, d); ReacquireSafe(L, t.refs, t.handles[d], t.handles[d])))
    case Release(h) => h < n
    case Detach(h) => h < n
    case Attach(h, p) => h < n && L.Knows(p) && (p.Ref? ==> t.raw[L.owner[p.addr]] >= 1)
    case Query(h, _) => h < n && t.handles[h].Ref?
  }

  lemma {:induction false} HoldersAppend(L: Layout, hs: seq<Ptr>, p: Ptr, o: ObjId)
    ensures Holders(L, hs + [p], o) == Holders(L, hs, o) + Mark(L, p, o)
  {
    if hs == [] {
      assert [p][1..] == [];
    } else {
      assert (hs + [p])[1..] == hs[1..] + [p];
      HoldersAppend(L, hs[1..], p, o);
    }
  }

  lemma {:induction false} HoldersUpdate(L: Layout, hs: seq<Ptr>, i: nat, p: Ptr, o: ObjId)
    requires i < |hs|
    ensures Holders(L, hs[i := p], o) + Mark(L, hs[i], o) == Holders(L, hs, o) + Mark(L, p, o)
  {
    if i == 0 {
      assert hs[0 := p][1..] == hs[1..];
    } else {
      assert hs[i := p][1..] == hs[1..][i - 1 := p];
      HoldersUpdate(L, hs[1..], i - 1, p, o);
    }
  }

  lemma {:induction false} HoldersRemove(L: Layout, hs: seq<Ptr>, i: nat, o: ObjId)
    requires i < |hs|
    ensures Holders(L, hs[..i] + hs[i + 1..], o) + Mark(L, hs[i], o) == Holders(L, hs, o)
  {
    if i == 0 {
      assert hs[..0] + hs[1..] == hs[1..];
    } else {
      var tl := hs[1..];
      var rest := hs[..i] + hs[i + 1..];
      assert rest[0] == hs[0];
      assert rest[1..] == tl[..i - 1] + tl[i..];
      HoldersRemove(L, tl, i - 1, o);
    }
  }

  /** Two different handles holding one object make at least two holders. */
  lemma HoldersAtLeast(L: Layout, hs: seq<Ptr>, i: nat, j: nat, o: ObjId)
    requires i < |hs| && j < |hs| && L.Holds(hs[i], o) && L.Holds(hs[j], o)
    ensures Holders(L, hs, o) >= (if i == j then 1 else 2)
  {
    HoldersUpdate(L, hs, i, Null, o);
    if i != j {
      HoldersUpdate(L, hs[i := Null], j, Null, o);
    }
  }

  /** The object behind any handle of a balanced table is alive. */
  lemma HeldIsAlive(L: Layout, t: Table, h: nat)
    requires Balanced(L, t) && h < |t.handles|
    ensures L.Alive(t.refs, t.handles[h])
  {
    var p := t.handles[h];
    if p.Ref? {
      HoldersAtLeast(L, t.handles, h, h, L.owner[p.addr]);
    }
  }

  /** Handles that each own their reference always meet the precondition of
      operator= when they are two different handles: the source's object
      survives the release of the old pointer. */
  lemma AssignIsSafe(L: Layout, t: Table, d: nat, s: nat)
    requires Balanced(L, t) && Enabled(L, t, Assign(d, s))
    ensures L.Alive(t.refs, t.handles[d])
    ensures ReacquireSafe(L, t.refs, t.handles[d], t.handles[s])
  {
    HeldIsAlive(L, t, d);
    var dst, src := t.handles[d], t.handles[s];
    if d != s && !ComObjectsEqual(L, dst, src) && src.Ref? {
      var o := L.owner[src.addr];
      if L.Holds(dst, o) {
        HoldersAtLeast(L, t.handles, d, s, o);
      } else {
        HeldIsAlive(L, t, s);
      }
    }
  }

  /** A handle assigned to itself may always be assigned when the IUnknown
      query on its own pointer succeeds (as it does for every object under
      COM's identity rule), and otherwise whenever some other reference to the
      object exists besides the handle's own. */
  lemma SelfAssignEnabled(L: Layout, t: Table, d: nat)
    requires Balanced(L, t) && d < |t.handles|
    requires || t.handles[d].Null?
             || L.Identity(t.handles[d].addr).Some?
             || t.refs[L.owner[t.handles[d].addr]] >= 2
    ensures Enabled(L, t, Assign(d, d))
  {
    HeldIsAlive(L, t, d);
  }

  /** COM's identity rule meets the first condition of `SelfAssignEnabled`
      for every handle. */
  lemma IdentityRuleAnswersEveryHandle(L: Layout, t: Table, d: nat)
    requires Balanced(L, t) && d < |t.handles| && L.FollowsIdentityRule()
    ensures t.handles[d].Null? || L.Identity(t.handles[d].addr).Some?
  {
  }

  /** One operation on the table, each with the effect the source gives it. */
  function Apply(L: Layout, t: Table, op: Op): Table
    requires Balanced(L, t) && Enabled(L, t, op)
  {
    var hs := t.handles;
    match op
    case Construct =>
      t.(handles := hs + [Null])
    case CopyConstruct(s) =>
      Table(L.AddRefTo(t.refs, hs[s]), hs + [hs[s]], t.raw)
    case Destruct(h) =>
      HeldIsAlive(L, t, h);
      Table(L.ReleaseOf(t.refs, hs[h]), hs[..h] + hs[h + 1..], t.raw)
    case Assign(d, s) =>
      AssignIsSafe(L, t, d, s);
      var r := Assigned(L, t.refs, hs[d], hs[s]);
      Table(r.refs, hs[d := r.held], t.raw)
    case Release(h) =>
      HeldIsAlive(L, t, h);
      Table(L.ReleaseOf(t.refs, hs[h]), hs[h := Null], t.raw)
    case Detach(h) =>
      Table(t.refs, hs[h := Null], L.AddRefTo(t.raw, hs[h]))
    case Attach(h, p) =>
      HeldIsAlive(L, t, h);
      Table(L.ReleaseOf(t.refs, hs[h]), hs[h := p], L.ReleaseOf(t.raw, p))
    case Query(h, iid) =>
      var a := hs[h].addr;
      if (a, iid) in L.answers then
        var q := Ref(L.answers[(a, iid)]);
        Table(L.AddRefTo(t.refs, q), hs, L.AddRefTo(t.raw, q))
      else t
  }

  lemma DestructKeepsBalance(L: Layout, t: Table, h: nat)
    requires Balanced(L, t) && Enabled(L, t, Destruct(h))
    ensures Balanced(L, Apply(L, t, Destruct(h)))
  {
    var hs := t.handles;
    var t' := Apply(L, t, Destruct(h));
    forall o | o in t.refs ensures t'.refs[o] == t'.raw[o] + Holders(L, t'.handles, o) {
      HoldersRemove(L, hs, h, o);
    }
    forall i | 0 <= i < |t'.handles| ensures L.Knows(t'.handles[i]) {
      if i < h {
        assert t'.handles[i] == hs[i];
      } else {
        assert t'.handles[i] == hs[i + 1];
      }
    }
  }

  lemma AssignKeepsBalance(L: Layout, t: Table, d: nat, s: nat)
    requires Balanced(L, t) && Enabled(L, t, Assign(d, s))
    ensures Balanced(L, Apply(L, t, Assign(d, s)))
  {
    var hs := t.handles;
    AssignIsSafe(L, t, d, s);
    var t' := Apply(L, t, Assign(d, s));
    if !ComObjectsEqual(L, hs[d], hs[s]) {
      assert t' == Table(L.AddRefTo(L.ReleaseOf(t.refs, hs[d]), hs[s]), hs[d := hs[s]], t.raw);
      forall o | o in t.refs ensures t'.refs[o] == t'.raw[o] + Holders(L, t'.handles, o) {
        HoldersUpdate(L, hs, d, hs[s], o);
      }
    } else {
      assert t'.handles == hs;
    }
  }

  /** Every enabled operation keeps the table balanced. */
  lemma ApplyKeepsBalance(L: Layout, t: Table, op: Op)
    requires Balanced(L, t) && Enabled(L, t, op)
    ensures Balanced(L, Apply(L, t, op))
  {
    var hs := t.handles;
    var t' := Apply(L, t, op);
    match op
    case Construct =>
      forall o | o in t.refs ensures t'.refs[o] == t'.raw[o] + Holders(L, t'.handles, o) {
        HoldersAppend(L, hs, Null, o);
      }
    case CopyConstruct(s) =>
      forall o | o in t.refs ensures t'.refs[o] == t'.raw[o] + Holders(L, t'.handles, o) {
        HoldersAppend(L, hs, hs[s], o);
      }
    case Destruct(h) =>
      DestructKeepsBalance(L, t, h);
    case Assign(d, s) =>
      AssignKeepsBalance(L, t, d, s);
    case Release(h) =>
      forall o | o in t.refs ensures t'.refs[o] == t'.raw[o] + Holders(L, t'.handles, o) {
        HoldersUpdate(L, hs, h, Null, o);
      }
    case Detach(h) =>
      forall o | o in t.refs ensures t'.refs[o] == t'.raw[o] + Holders(L, t'.handles, o) {
        HoldersUpdate(L, hs, h, Null, o);
      }
    case Attach(h, p) =>
      forall o | o in t.refs ensures t'.refs[o] == t'.raw[o] + Holders(L, t'.handles, o) {
        HoldersUpdate(L, hs, h, p, o);
      }
    case Query(h, iid) =>
  }

  /** The table after a program of operations, or None when the program issues
      an operation it may not. */
  function Run(L: Layout, t: Table, ops: seq<Op>): (r: Option<Table>)
    requires Balanced(L, t)
    ensures r.Some? ==> Balanced(L, r.value)
    decreases |ops|
  {
    if ops == [] then Some(t)
    else if !Enabled(L, t, ops[0]) then None
    else
      ApplyKeepsBalance(L, t, ops[0]);
      Run(L, Apply(L, t, ops[0]), ops[1..])
  }

  /** Operations that only create, copy, assign, release and destroy handles. */
  predicate Lifecycle(op: Op)
  {
    op.Construct? || op.CopyConstruct? || op.Destruct? || op.Assign? || op.Release?
  }

  /** Copying, assigning, releasing and destroying handles never touch the
      references owned outside the handles. */
  lemma {:induction false} LifecycleKeepsRaw(L: Layout, t: Table, ops: seq<Op>)
    requires Balanced(L, t) && Run(L, t, ops).Some?
    requires forall k | 0 <= k < |ops| :: Lifecycle(ops[k])
    ensures Run(L, t, ops).value.raw == t.raw
    decreases |ops|
  {
    if ops != [] {
      ApplyKeepsBalance(L, t, ops[0]);
      LifecycleKeepsRaw(L, Apply(L, t, ops[0]), ops[1..]);
    }
  }

  /** No leak and no double release: over any program of copies, assignments,
      releases and destructions, each object's count falls by the handles that
      held it at the start and rises by the handles that hold it at the end;
      once no handle holds the object, its count is the references held
      outside the handles when the program began. */
  lemma CountFollowsHandles(L: Layout, t: Table, ops: seq<Op>, o: ObjId)
    requires Balanced(L, t) && Run(L, t, ops).Some? && o in t.refs
    requires forall k | 0 <= k < |ops| :: Lifecycle(ops[k])
    ensures o in Run(L, t, ops).value.refs
    ensures Run(L, t, ops).value.refs[o] + Holders(L, t.handles, o)
         == t.refs[o] + Holders(L, Run(L, t, ops).value.handles, o)
    ensures Holders(L, Run(L, t, ops).value.handles, o) == 0
         ==> Run(L, t, ops).value.refs[o] == t.raw[o]
  {
    LifecycleKeepsRaw(L, t, ops);
  }

  /** After any enabled program, attaches, detaches and queries included, an
      object no handle holds has exactly the references owned outside the
      handles: the handles keep none of it. */
  lemma NoHandleLeftOnlyRawReferences(L: Layout, t: Table, ops: seq<Op>, o: ObjId)
    requires Balanced(L, t) && Run(L, t, ops).Some? && o in Run(L, t, ops).value.refs
    ensures Holders(L, Run(L, t, ops).value.handles, o) == 0
         ==> Run(L, t, ops).value.refs[o] == Run(L, t, ops).value.raw[o]
  {
  }

  /** `h.Attach(h.Detach())` gives back the table it started from. */
  lemma AttachDetachRoundTrip(L: Layout, t: Table, h: nat)
    requires Balanced(L, t) && h < |t.handles|
    ensures Run(L, t, [Detach(h), Attach(h, t.handles[h])]) == Some(t)
  {
    var p := t.handles[h];
    var ops := [Detach(h), Attach(h, p)];
    ApplyKeepsBalance(L, t, Detach(h));
    var t1 := Apply(L, t, Detach(h));
    assert Enabled(L, t1, Attach(h, p));
    ApplyKeepsBalance(L, t1, Attach(h, p));
    assert L.ReleaseOf(L.AddRefTo(t.raw, p), p) == t.raw by {
      CopyThenDestroyNeutral(L, t.raw, p);
    }
    assert t1.handles[h := p] == t.handles;
    assert Apply(L, t1, Attach(h, p)) == t;
    assert ops[1..] == [Attach(h, p)] && ops[1..][1..] == [];
    assert Run(L, t1, ops[1..]) == Run(L, t, []);
  }

  /** Attaching the pointer a handle already holds, with no separate reference
      to hand over, releases the handle's own reference and keeps the pointer:
      the handles now hold one reference more than the count, and a sole owner
      is left holding an object whose count is 0. */
  lemma AttachOwnPointerDropsReference(L: Layout, t: Table, h: nat)
    requires Balanced(L, t) && h < |t.handles| && t.handles[h].Ref?
    ensures L.Alive(t.refs, t.handles[h])
    ensures var p := t.handles[h];
            var o := L.owner[p.addr];
            var c := L.ReleaseOf(t.refs, p);
            && c[o] + 1 == t.raw[o] + Holders(L, t.handles[h := p], o)
            && (t.raw[o] == 0 && Holders(L, t.handles, o) == 1 ==> c[o] == 0)
  {
    HeldIsAlive(L, t, h);
    assert t.handles[h := t.handles[h]] == t.handles;
  }
}
