/** Programs that use SmartPtr the way its callers do, proved from the
    contracts of the class alone. */
module Scenarios {
  import opened Com
  import opened SmartPointer

  /** A temporary copy that goes out of scope leaves every count as it was. */
  method CopyThenDestroy(w: ComWorld, sp: SmartPtr)
    requires sp.Valid(w)
    modifies w
    ensures sp.Valid(w) && w.refs == old(w.refs)
  {
    var copy := new SmartPtr.Copy(w, sp);
    copy.Destroy(w);
    CopyThenDestroyNeutral(w.layout, old(w.refs), sp.ptr);
  }

  /** `sp = sp` changes neither the handle nor any count. */
  method SelfAssignment(w: ComWorld, sp: SmartPtr)
    requires sp.Valid(w) && w.layout.FollowsIdentityRule()
    modifies sp, w
    ensures sp.Valid(w) && sp.ptr == old(sp.ptr) && w.refs == old(w.refs)
  {
    AssignSameObjectUnchanged(w.layout, w.refs, sp.ptr, sp.ptr);
    sp.Assign(w, sp);
  }

  /** Assigning between two handles on the same object, through different
      interfaces of it, changes neither handle nor any count. */
  method AssignAlias(w: ComWorld, dst: SmartPtr, src: SmartPtr)
    requires dst.Valid(w) && src.Valid(w) && w.layout.FollowsIdentityRule()
    requires w.layout.SameObject(dst.ptr, src.ptr)
    modifies dst, w
    ensures dst.Valid(w) && dst.ptr == old(dst.ptr) && src.ptr == old(src.ptr)
    ensures w.refs == old(w.refs)
  {
    AssignSameObjectUnchanged(w.layout, w.refs, dst.ptr, src.ptr);
    dst.Assign(w, src);
  }

  /** `sp.Attach(sp.Detach())` puts back the same pointer with no count changed. */
  method DetachThenAttach(w: ComWorld, sp: SmartPtr)
    requires sp.Valid(w)
    modifies sp, w
    ensures sp.Valid(w) && sp.ptr == old(sp.ptr) && w.refs == old(w.refs)
  {
    var p := sp.Detach();
    sp.Attach(w, p);
  }

  /** A factory returns an object whose count it set to 1; the first handle
      attaches it, a copy raises the count to 2, releasing the copy gives 1 and
      destroying the first handle gives 0. No other object is touched. */
  method FactoryLifetime(w: ComWorld, a: Addr)
    requires w.Valid() && a in w.layout.owner && w.refs[w.layout.owner[a]] == 1
    modifies w
    ensures w.refs == old(w.refs)[w.layout.owner[a] := 0]
  {
    var o := w.layout.owner[a];
    var h1 := new SmartPtr();
    h1.Attach(w, Ref(a));
    assert w.refs[o] == 1;
    var h2 := new SmartPtr.Copy(w, h1);
    assert w.refs[o] == 2;
    var n := h2.Release(w);
    assert n == 1 && h2.ptr == Null;
    h1.Destroy(w);
    assert w.refs[o] == 0;
  }

  /** Asking a handle for another interface: on success the new interface is
      attached to a second handle, compares equal to the first when the objects
      follow COM's identity rule, and releasing it restores every count; on
      failure nothing changes. */
  method QueryAnotherInterface(w: ComWorld, h1: SmartPtr, iid: Iid) returns (hr: HResult, same: bool)
    requires h1.Valid(w) && h1.ptr.Ref?
    modifies w
    ensures h1.Valid(w) && w.refs == old(w.refs)
    ensures hr.Succeeded() <==> (h1.ptr.addr, iid) in w.layout.answers
    ensures hr.Succeeded() && w.layout.FollowsIdentityRule() ==> same
  {
    var q;
    hr, q := h1.QueryInterface(w, iid);
    var h2 := new SmartPtr();
    h2.Attach(w, q);
    same := h1.Equals(w, h2.ptr);
    if hr.Succeeded() && w.layout.FollowsIdentityRule() {
      EqualIffSameObject(w.layout, h1.ptr, h2.ptr);
    }
    var n := h2.Release(w);
    CopyThenDestroyNeutral(w.layout, old(w.refs), q);
  }
}
