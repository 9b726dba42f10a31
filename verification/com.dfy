/** The COM object world a smart pointer talks to.

    Objects are not part of the smart pointer: they own their reference counts
    and answer QueryInterface. Here an interface pointer is an address, every
    address belongs to one object, and the object's reference count is kept in
    a map from object to count. The static part (which address belongs to which
    object, and what QueryInterface answers) is a `Layout` value; the counts,
    which AddRef and Release change in place, are a field of `ComWorld`. */
module Com {

  /** The address of an interface pointer. */
  type Addr = nat
  /** The identity of a COM object (several interface pointers may share one). */
  type ObjId = nat
  /** An interface identifier (an IID). */
  type Iid = nat

  /** The identifier of IUnknown, the interface every COM object exposes for identity. */
  const IidUnknown: Iid := 0

  datatype Option<T> = None | Some(value: T)

  /** A raw interface pointer, possibly NULL. */
  datatype Ptr = Null | Ref(addr: Addr)

  /** The two outcomes of QueryInterface that matter here. */
  datatype HResult = S_OK | E_NOINTERFACE {
    predicate Succeeded() { S_OK? }
  }

  /** Reference count of every object. */
  type Counts = map<ObjId, nat>

  datatype Layout = Layout(owner: map<Addr, ObjId>, answers: map<(Addr, Iid), Addr>)
  {
    /** QueryInterface only hands out interface pointers of the object it was asked. */
    predicate Valid()
    {
      forall q | q in answers :: q.0 in owner && answers[q] in owner && owner[answers[q]] == owner[q.0]
    }

    /** `p` is NULL or an interface pointer of some object. */
    predicate Knows(p: Ptr)
    {
      p.Null? || p.addr in owner
    }

    /** `p` is an interface pointer of object `o`. */
    predicate Holds(p: Ptr, o: ObjId)
    {
      p.Ref? && p.addr in owner && owner[p.addr] == o
    }

    /** Every object that owns an interface pointer has a count in `c`. */
    predicate Tracks(c: Counts)
    {
      forall a | a in owner :: owner[a] in c
    }

    /** `p` is NULL or its object's count is at least one, so the object still exists. */
    predicate Alive(c: Counts, p: Ptr)
      requires Tracks(c) && Knows(p)
    {
      p.Ref? ==> c[owner[p.addr]] >= 1
    }

    /** What `QueryInterface(IID_IUnknown)` answers on interface pointer `a`, if it succeeds. */
    function Identity(a: Addr): Option<Addr>
    {
      if (a, IidUnknown) in answers then Some(answers[(a, IidUnknown)]) else None
    }

    /** The COM identity rule: every interface pointer answers the IUnknown query,
        and all interface pointers of one object give the same answer. */
    predicate FollowsIdentityRule()
    {
      && (forall a | a in owner :: (a, IidUnknown) in answers)
      && (forall a, b | a in owner && b in owner && owner[a] == owner[b] ::
            answers[(a, IidUnknown)] == answers[(b, IidUnknown)])
    }

    /** Both NULL, or two interface pointers of one object: the meaning of "the same COM object". */
    predicate SameObject(p1: Ptr, p2: Ptr)
    {
      || (p1.Null? && p2.Null?)
      || (p1.Ref? && p2.Ref? && p1.addr in owner && p2.addr in owner && owner[p1.addr] == owner[p2.addr])
    }

    /** The counts after one AddRef through `p`, which does nothing when `p` is NULL. */
    function AddRefTo(c: Counts, p: Ptr): (r: Counts)
      requires Tracks(c) && Knows(p)
      ensures r.Keys == c.Keys && Tracks(r)
      ensures forall o | o in c :: r[o] == c[o] + (if Holds(p, o) then 1 else 0)
    {
      if p.Ref? then c[owner[p.addr] := c[owner[p.addr]] + 1] else c
    }

    /** The counts after one Release through `p`, which does nothing when `p` is NULL. */
    function ReleaseOf(c: Counts, p: Ptr): (r: Counts)
      requires Tracks(c) && Knows(p) && Alive(c, p)
      ensures r.Keys == c.Keys && Tracks(r)
      ensures forall o | o in c :: r[o] + (if Holds(p, o) then 1 else 0) == c[o]
    {
      if p.Ref? then c[owner[p.addr] := c[owner[p.addr]] - 1] else c
    }
  }

  /** The objects, with the reference counts that AddRef and Release update in place. */
  class ComWorld {
    const layout: Layout
    var refs: Counts

    ghost predicate Valid()
      reads this
    {
      layout.Valid() && layout.Tracks(refs)
    }

    /** `a` is an interface pointer of an object whose count is at least one:
        only a holder of a reference may call through it. */
    predicate Live(a: Addr)
      reads this
    {
      a in layout.owner && layout.owner[a] in refs && refs[layout.owner[a]] >= 1
    }

    constructor (layout: Layout, refs: Counts)
      requires layout.Valid() && layout.Tracks(refs)
      ensures Valid() && this.layout == layout && this.refs == refs
    {
      this.layout := layout;
      this.refs := refs;
    }

    /** IUnknown::AddRef: one more reference to the object, returning the new count. */
    method AddRef(a: Addr) returns (n: nat)
      requires Valid() && Live(a)
      modifies this
      ensures Valid()
      ensures refs == layout.AddRefTo(old(refs), Ref(a))
      ensures n == refs[layout.owner[a]] && n >= 2
    {
      refs := layout.AddRefTo(refs, Ref(a));
      n := refs[layout.owner[a]];
    }

    /** IUnknown::Release: one reference less, returning the new count
        (an object whose count reaches 0 frees itself; that is not modelled). */
    method Release(a: Addr) returns (n: nat)
      requires Valid() && Live(a)
      modifies this
      ensures Valid()
      ensures refs == layout.ReleaseOf(old(refs), Ref(a))
      ensures n == refs[layout.owner[a]] && n + 1 == old(refs)[layout.owner[a]]
    {
      refs := layout.ReleaseOf(refs, Ref(a));
      n := refs[layout.owner[a]];
    }

    /** IUnknown::QueryInterface: on success a new interface pointer of the same
        object with one reference added for the caller; otherwise E_NOINTERFACE,
        a NULL result and no count changed. */
    method QueryInterface(a: Addr, iid: Iid) returns (hr: HResult, q: Ptr)
      requires Valid() && Live(a)
      modifies this
      ensures Valid()
      ensures hr.Succeeded() <==> (a, iid) in layout.answers
      ensures hr.Succeeded() ==> q == Ref(layout.answers[(a, iid)]) && layout.SameObject(q, Ref(a))
      ensures hr.Succeeded() ==> refs == layout.AddRefTo(old(refs), q) && Live(q.addr)
      ensures !hr.Succeeded() ==> q == Null && refs == old(refs)
    {
      if (a, iid) in layout.answers {
        q := Ref(layout.answers[(a, iid)]);
        refs := layout.AddRefTo(refs, q);
        hr := S_OK;
      } else {
        hr, q := E_NOINTERFACE, Null;
      }
    }
  }
}
