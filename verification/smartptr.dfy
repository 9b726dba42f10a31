/** The COM smart pointer: the identity test between two interface pointers and
    `SmartPtr`, a handle that owns at most one reference.

    Each handle operation has an exact effect on two things: the handle's own
    pointer and the reference counts of the objects. The handle is a class whose
    methods change that pointer and call AddRef, Release and QueryInterface on a
    `ComWorld`, passed in because the objects live outside the handle. */
module SmartPointer {
  import opened Com

  /** The answer of AreComObjectsEqual: both NULL, or both IUnknown queries
      succeed and return the same address. A failed query never counts as equal. */
  function ComObjectsEqual(L: Layout, p1: Ptr, p2: Ptr): bool
  {
    match (p1, p2)
    case (Null, Null) => true
    case (Ref(a1), Ref(a2)) =>
      (match (L.Identity(a1), L.Identity(a2))
       case (Some(u1), Some(u2)) => u1 == u2
       case _ => false)
    case _ => false
  }

  /** Equality never claims two different objects are the same, even when the
      objects do not follow the identity rule. */
  lemma EqualNeverFalsePositive(L: Layout, p1: Ptr, p2: Ptr)
    requires L.Valid() && L.Knows(p1) && L.Knows(p2)
    ensures ComObjectsEqual(L, p1, p2) ==> L.SameObject(p1, p2)
  {
    if ComObjectsEqual(L, p1, p2) && p1.Ref? {
      var u := L.Identity(p1.addr).value;
      assert L.owner[u] == L.owner[p1.addr];
      assert L.owner[u] == L.owner[p2.addr];
    }
  }

  /** For objects that follow COM's identity rule, equality is exactly "same object":
      both NULL, or two interface pointers of one object. */
  lemma EqualIffSameObject(L: Layout, p1: Ptr, p2: Ptr)
    requires L.Valid() && L.FollowsIdentityRule() && L.Knows(p1) && L.Knows(p2)
    ensures ComObjectsEqual(L, p1, p2) <==> L.SameObject(p1, p2)
  {
    EqualNeverFalsePositive(L, p1, p2);
    if p1.Ref? && p2.Ref? && L.SameObject(p1, p2) {
      assert L.answers[(p1.addr, IidUnknown)] == L.answers[(p2.addr, IidUnknown)];
    }
  }

  /** Equality is symmetric and transitive whatever the objects answer. */
  lemma EqualSymmetricTransitive(L: Layout, p1: Ptr, p2: Ptr, p3: Ptr)
    ensures ComObjectsEqual(L, p1, p2) == ComObjectsEqual(L, p2, p1)
    ensures ComObjectsEqual(L, p1, p2) && ComObjectsEqual(L, p2, p3) ==> ComObjectsEqual(L, p1, p3)
  {
  }

  /** AreComObjectsEqual as the code runs it: query IUnknown on each pointer,
      compare, and release every interface the queries returned. */
  method AreComObjectsEqual(w: ComWorld, p1: Ptr, p2: Ptr) returns (r: bool)
    requires w.Valid()
    requires p1.Ref? ==> w.Live(p1.addr)
    requires p2.Ref? ==> w.Live(p2.addr)
    modifies w
    ensures w.Valid()
    ensures r == ComObjectsEqual(w.layout, p1, p2)
    ensures w.refs == old(w.refs)
  {
    r := false;
    if p1.Null? && p2.Null? {
      r := true;
    } else if p1.Null? || p2.Null? {
      r := false;
    } else {
      var hr1, unk1 := w.QueryInterface(p1.addr, IidUnknown);
      if hr1.Succeeded() {
        var hr2, unk2 := w.QueryInterface(p2.addr, IidUnknown);
        if hr2.Succeeded() {
          r := unk1 == unk2;
          var n2 := w.Release(unk2.addr);
        }
        var n1 := w.Release(unk1.addr);
      }
    }
  }

  /** A handle's pointer together with all reference counts. */
  datatype Snapshot = Snapshot(held: Ptr, refs: Counts)

  /** Assignment re-acquires its source only after releasing the old pointer;
      this says the source's object is still alive at that point. */
  predicate ReacquireSafe(L: Layout, c: Counts, dst: Ptr, src: Ptr)
    requires L.Tracks(c) && L.Knows(dst) && L.Knows(src) && L.Alive(c, dst)
  {
    !ComObjectsEqual(L, dst, src) ==> L.Alive(L.ReleaseOf(c, dst), src)
  }

  /** What `operator=` leaves behind: nothing changes when the two pointers are
      the same object; otherwise the old pointer is released, the source adopted
      and AddRef'd. */
  function Assigned(L: Layout, c: Counts, dst: Ptr, src: Ptr): Snapshot
    requires L.Tracks(c) && L.Knows(dst) && L.Knows(src) && L.Alive(c, dst)
    requires ReacquireSafe(L, c, dst, src)
  {
    if ComObjectsEqual(L, dst, src) then Snapshot(dst, c)
    else Snapshot(src, L.AddRefTo(L.ReleaseOf(c, dst), src))
  }

  /** Assigning a pointer to the same object, including self-assignment and
      NULL to NULL, leaves the handle and every count as they were. */
  lemma AssignSameObjectUnchanged(L: Layout, c: Counts, dst: Ptr, src: Ptr)
    requires L.Valid() && L.FollowsIdentityRule()
    requires L.Tracks(c) && L.Knows(dst) && L.Knows(src) && L.Alive(c, dst)
    requires L.SameObject(dst, src)
    ensures ReacquireSafe(L, c, dst, src)
    ensures Assigned(L, c, dst, src) == Snapshot(dst, c)
  {
    EqualIffSameObject(L, dst, src);
  }

  /** Without the identity rule, self-assignment is not safe: when the IUnknown
      query on a pointer fails, the pointer is not recognised as itself, so a
      handle holding its object's only reference releases it to 0 before
      adding it again. */
  lemma SelfAssignWithFailingIdentityQuery(L: Layout, c: Counts, a: Addr)
    requires L.Tracks(c) && a in L.owner && c[L.owner[a]] == 1 && L.Identity(a).None?
    ensures !ComObjectsEqual(L, Ref(a), Ref(a))
    ensures L.ReleaseOf(c, Ref(a))[L.owner[a]] == 0
    ensures !ReacquireSafe(L, c, Ref(a), Ref(a))
  {
  }

  /** Whatever the layout, a self-assignment that is safe changes nothing. */
  lemma SafeSelfAssignUnchanged(L: Layout, c: Counts, p: Ptr)
    requires L.Tracks(c) && L.Knows(p) && L.Alive(c, p) && ReacquireSafe(L, c, p, p)
    ensures Assigned(L, c, p, p).held == p
    ensures Assigned(L, c, p, p).refs == c
  {
  }

  /** Assigning a pointer to a different object adopts it, takes one reference
      from the old object and adds one to the new one; no other count moves. */
  lemma AssignOtherObject(L: Layout, c: Counts, dst: Ptr, src: Ptr)
    requires L.Valid()
    requires L.Tracks(c) && L.Knows(dst) && L.Knows(src) && L.Alive(c, dst) && L.Alive(c, src)
    requires !L.SameObject(dst, src)
    ensures ReacquireSafe(L, c, dst, src)
    ensures Assigned(L, c, dst, src).held == src
    ensures forall o | o in c ::
      Assigned(L, c, dst, src).refs[o] + (if L.Holds(dst, o) then 1 else 0)
        == c[o] + (if L.Holds(src, o) then 1 else 0)
  {
    EqualNeverFalsePositive(L, dst, src);
  }

  /** A copy followed by the copy's destruction gives every count back. */
  lemma CopyThenDestroyNeutral(L: Layout, c: Counts, p: Ptr)
    requires L.Tracks(c) && L.Knows(p)
    ensures L.Alive(L.AddRefTo(c, p), p)
    ensures L.ReleaseOf(L.AddRefTo(c, p), p) == c
  {
    var r := L.ReleaseOf(L.AddRefTo(c, p), p);
    assert forall o | o in c :: r[o] == c[o];
  }

  /** SmartPtr<T>: owns at most one reference, to the object behind `ptr`. */
  class SmartPtr {
    var ptr: Ptr

    /** A non-NULL handle points at a live object. */
    ghost predicate Valid(w: ComWorld)
      reads this, w
    {
      w.Valid() && (ptr.Ref? ==> w.Live(ptr.addr))
    }

    /** SmartPtr(): an empty handle. */
    constructor ()
      ensures ptr == Null
    {
      ptr := Null;
    }

    /** The copy constructor: the same pointer, with one more reference to its
        object when it is not NULL. */
    constructor Copy(w: ComWorld, src: SmartPtr)
      requires src.Valid(w)
      modifies w
      ensures ptr == src.ptr && Valid(w) && src.Valid(w)
      ensures w.refs == w.layout.AddRefTo(old(w.refs), src.ptr)
    {
      ptr := src.ptr;
      new;
      if ptr.Ref? {
        var n := w.AddRef(ptr.addr);
      }
    }

    /** ~SmartPtr(): one Release when the handle is not NULL. */
    method Destroy(w: ComWorld)
      requires Valid(w)
      modifies w
      ensures w.Valid()
      ensures w.refs == w.layout.ReleaseOf(old(w.refs), ptr)
    {
      if ptr.Ref? {
        var n := w.Release(ptr.addr);
      }
    }

    /** operator=: a no-op when both pointers are the same COM object; otherwise
        release the old pointer, adopt the source's and AddRef it. */
    method Assign(w: ComWorld, src: SmartPtr)
      requires Valid(w) && src.Valid(w)
      requires ReacquireSafe(w.layout, w.refs, ptr, src.ptr)
      modifies this, w
      ensures Valid(w) && src.Valid(w)
      ensures Snapshot(ptr, w.refs) == Assigned(w.layout, old(w.refs), old(ptr), old(src.ptr))
    {
      var same := AreComObjectsEqual(w, ptr, src.ptr);
      if !same {
        if ptr.Ref? {
          var n := w.Release(ptr.addr);
        }
        ptr := src.ptr;
        if ptr.Ref? {
          var n := w.AddRef(ptr.addr);
        }
      }
    }

    /** The templated QueryInterface: asks the held interface for another one.
        On success the caller receives a pointer with one reference already added. */
    method QueryInterface(w: ComWorld, iid: Iid) returns (hr: HResult, q: Ptr)
      requires Valid(w) && ptr.Ref?
      modifies w
      ensures Valid(w)
      ensures hr.Succeeded() <==> (ptr.addr, iid) in w.layout.answers
      ensures hr.Succeeded() ==> q == Ref(w.layout.answers[(ptr.addr, iid)]) && w.layout.SameObject(q, ptr)
      ensures hr.Succeeded() ==> w.refs == w.layout.AddRefTo(old(w.refs), q) && w.Live(q.addr)
      ensures !hr.Succeeded() ==> q == Null && w.refs == old(w.refs)
    {
      hr, q := w.QueryInterface(ptr.addr, iid);
    }

    /** Release(): empties the handle; one Release when it held a pointer, whose
        result it returns, and 0 when it was already empty. */
    method Release(w: ComWorld) returns (n: nat)
      requires Valid(w)
      modifies this, w
      ensures ptr == Null && w.Valid()
      ensures w.refs == w.layout.ReleaseOf(old(w.refs), old(ptr))
      ensures old(ptr).Null? ==> n == 0
      ensures old(ptr).Ref? ==> n == w.refs[w.layout.owner[old(ptr).addr]]
    {
      var p := ptr;
      n := 0;
      if p.Ref? {
        ptr := Null;
        n := w.Release(p.addr);
      }
    }

    /** Detach(): hands the pointer, and the reference it carries, to the caller
        and empties the handle; no count changes. */
    method Detach() returns (p: Ptr)
      modifies this
      ensures p == old(ptr) && ptr == Null
    {
      p := ptr;
      ptr := Null;
    }

    /** Attach(p): releases the old pointer when it is not NULL and adopts `p`
        without an AddRef: the caller hands over a reference it already owns. */
    method Attach(w: ComWorld, p: Ptr)
      requires Valid(w) && w.layout.Knows(p)
      modifies this, w
      ensures ptr == p && w.Valid()
      ensures w.refs == w.layout.ReleaseOf(old(w.refs), old(ptr))
    {
      if ptr.Ref? {
        var n := w.Release(ptr.addr);
      }
      ptr := p;
    }

    /** operator==: AreComObjectsEqual on the held pointer; every count is as it was. */
    method Equals(w: ComWorld, p: Ptr) returns (r: bool)
      requires Valid(w) && (p.Ref? ==> w.Live(p.addr))
      modifies w
      ensures Valid(w)
      ensures r == ComObjectsEqual(w.layout, ptr, p)
      ensures w.refs == old(w.refs)
    {
      r := AreComObjectsEqual(w, ptr, p);
    }

    /** operator!=: the negation of operator==; every count is as it was. */
    method NotEquals(w: ComWorld, p: Ptr) returns (r: bool)
      requires Valid(w) && (p.Ref? ==> w.Live(p.addr))
      modifies w
      ensures Valid(w)
      ensures r == !ComObjectsEqual(w.layout, ptr, p)
      ensures w.refs == old(w.refs)
    {
      var eq := Equals(w, p);
      r := !eq;
    }
  }
}
