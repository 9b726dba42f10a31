# SmartPtr: a verified model of a COM reference-counting smart pointer

This project models `multimedia/directshow/common/smartptr.h`, a small COM smart
pointer used by the DirectShow samples. It has two parts:

- `AreComObjectsEqual` decides whether two interface pointers, possibly NULL and
  possibly of different interface types, denote the same COM object. It asks each
  pointer for its `IUnknown` through `QueryInterface`, compares the two
  addresses, and releases what the queries returned.
- `SmartPtr<T>` is a handle that owns at most one reference. Copying, destroying,
  assigning, `Release`, `Detach` and `Attach` each have an exact effect on the
  handle's pointer and on the reference counts of the objects.

Files:

- `com.dfy` (module `Com`): the COM objects the handle talks to. They are outside
  the header, so only their behaviour is modelled. A `Layout` value says which
  object every interface pointer (an address) belongs to. It also says what
  `QueryInterface(a, iid)` answers, and a missing answer means `E_NOINTERFACE`.
  `Layout.Valid` says every answer is an interface of the same object.
  `FollowsIdentityRule` is COM's identity rule: every pointer answers the
  `IUnknown` query, and all pointers of one object give the same answer. The
  class `ComWorld` keeps the reference counts (`refs`, a map from object to
  count). Its `AddRef`, `Release` and `QueryInterface` methods update the counts
  in place. They require the object to be alive (count at least 1), because only
  a holder of a reference may call through a pointer.
- `smartptr.dfy` (module `SmartPointer`): the header itself.
  - `ComObjectsEqual` is the answer `AreComObjectsEqual` computes.
  - The method `AreComObjectsEqual` performs the queries and releases step by
    step against a `ComWorld`.
  - `Assigned` is the effect of `operator=`.
  - The class `SmartPtr` has one field, `ptr`, standing for `m_ptr`. Its methods
    take the `ComWorld` as a parameter and are proved against `Layout.AddRefTo`,
    `Layout.ReleaseOf` and `Assigned`.
  - The destructor is the method `Destroy`.
- `ownership.dfy` (module `Ownership`): reference balance across any number of
  handles.
  - A `Table` holds the counts, the pointers of a sequence of handles, and the
    references owned outside any handle (`raw`). Raw references come from
    `QueryInterface` results, pointers handed out by `Detach`, and references
    other code holds.
  - `Balanced` says every object's count is exactly its raw references plus the
    number of handles pointing at it.
  - Every handle operation keeps a table balanced. It is applied with the same
    effects the class methods are proved against.
  - Over any program of copies, assignments, releases and destructions, an
    object's count falls by the handles that held it at the start and rises by
    the handles that hold it at the end. Once no handle holds the object, its
    count is the references held outside the handles when the program began.
  - After any program at all, attaches, detaches and queries included, an
    object that no handle holds has exactly its references held outside the
    handles.
- `scenarios.dfy` (module `Scenarios`): caller programs proved from the class
  contracts alone:
  - copy then destroy;
  - self-assignment, and assignment between aliases of one object;
  - `Attach(Detach())`;
  - the factory lifetime (count 1 → 2 → 1 → 0);
  - querying a second interface and comparing it with the first.

Modelling decisions:

- NULL is `Ptr.Null`; an interface pointer is `Ptr.Ref(addr)`. Interface types
  are not distinguished, because the code's behaviour does not depend on them.
- `operator=` releases the old pointer before it AddRefs the source. The source
  object must therefore still be alive after that release. This condition is the
  precondition `ReacquireSafe` of `SmartPtr.Assign`.
  - `Ownership.AssignIsSafe` shows that handles which each own their reference
    always meet it when they are two different handles.
  - `Ownership.SelfAssignEnabled` shows that a handle assigned to itself meets
    it in three cases: the handle is empty, the `IUnknown` query on its own
    pointer succeeds, or some other reference to the object exists.
    `Ownership.IdentityRuleAnswersEveryHandle` shows that COM's identity rule
    gives the second case for every handle.
  - `SmartPointer.SelfAssignWithFailingIdentityQuery` covers the remaining
    case: whenever a pointer's `IUnknown` query fails and its object's count
    is 1, self-assignment would release the object to 0 and then AddRef it.
  - `SmartPointer.SafeSelfAssignUnchanged` shows that a self-assignment that
    meets the precondition changes nothing, whatever the layout.
- `Attach` has no guard for `p == m_ptr`. It is modelled as written, and
  `Ownership.AttachOwnPointerDropsReference` shows the result. Attaching the
  pointer a handle already holds, without a separate reference to hand over,
  leaves the handles holding one reference more than the count. A sole owner
  ends up holding an object whose count is 0.
- The templated `QueryInterface` is modelled as the header writes it. It
  returns an `HRESULT` and a raw pointer that already carries its reference,
  and it is only called on a non-empty handle, because it dereferences `m_ptr`.

## Model

| member | source | states |
|---|---|---|
| SmartPointer.EqualNeverFalsePositive | multimedia/directshow/common/smartptr.h:20-30 | when AreComObjectsEqual answers true, the two pointers are both NULL or interfaces of one object, whatever interfaces of themselves the objects answer to the IUnknown query, or a failure (a failed query never yields equality) |
| SmartPointer.EqualIffSameObject | multimedia/directshow/common/smartptr.h:11-33 | for objects that follow COM's identity rule, equality holds exactly when both pointers are NULL or both are interfaces of the same object; one NULL and one non-NULL is unequal |
| SmartPointer.EqualSymmetricTransitive | multimedia/directshow/common/smartptr.h:11-33 | the equality test is symmetric and transitive for any objects |
| SmartPointer.AreComObjectsEqual | multimedia/directshow/common/smartptr.h:11-33 | returns true for two NULLs, false for exactly one NULL, and for two non-NULL pointers true iff both IUnknown queries succeed with the same address; every count is as it was on entry, since each successful query is released once |
| SmartPointer.AssignSameObjectUnchanged | multimedia/directshow/common/smartptr.h:72-84 | for objects that follow COM's identity rule, assignment from a pointer to the same object (self-assignment, an alias through another interface, NULL to NULL) leaves the handle's pointer and every count unchanged |
| SmartPointer.SelfAssignWithFailingIdentityQuery | multimedia/directshow/common/smartptr.h:74-81 | for any pointer whose IUnknown query fails and whose object's count is 1, AreComObjectsEqual does not recognise the pointer as itself, so self-assignment releases the count to 0 before the AddRef: `ReacquireSafe` fails |
| SmartPointer.SafeSelfAssignUnchanged | multimedia/directshow/common/smartptr.h:72-84 | for any layout, a self-assignment whose release leaves the object alive (or that is recognised as itself) ends with the same pointer and every count unchanged |
| SmartPointer.AssignOtherObject | multimedia/directshow/common/smartptr.h:72-84 | for any objects, with or without the identity rule, assignment from a different object adopts the source pointer, takes exactly one reference from the old object if non-NULL, adds exactly one to the new one if non-NULL, and changes no other count |
| SmartPointer.CopyThenDestroyNeutral | multimedia/directshow/common/smartptr.h:61-70 | a copy's AddRef followed by its destructor's Release returns every count to its old value, and the object stays alive between them |
| SmartPointer.SmartPtr.constructor | multimedia/directshow/common/smartptr.h:60 | a default-constructed handle is empty |
| SmartPointer.SmartPtr.Copy | multimedia/directshow/common/smartptr.h:61-66 | the copy holds the source's pointer and the counts gain exactly one reference to its object iff it is non-NULL |
| SmartPointer.SmartPtr.Destroy | multimedia/directshow/common/smartptr.h:68-70 | the destructor releases exactly once iff the handle is non-NULL and changes no other count |
| SmartPointer.SmartPtr.Assign | multimedia/directshow/common/smartptr.h:72-84 | operator= leaves the handle and the counts as `Assigned` gives them: unchanged when AreComObjectsEqual holds, otherwise old pointer released, source adopted and AddRef'd |
| SmartPointer.SmartPtr.QueryInterface | multimedia/directshow/common/smartptr.h:105-113 | succeeds iff the held interface answers the requested IID; on success the returned pointer is an interface of the same object carrying one new reference, on failure it is NULL and no count changes |
| SmartPointer.SmartPtr.Release | multimedia/directshow/common/smartptr.h:115-123 | the handle is always empty afterwards; exactly one Release iff it held a pointer, returning the object's new count, and 0 without any count change when it was empty |
| SmartPointer.SmartPtr.Detach | multimedia/directshow/common/smartptr.h:125-130 | returns the held pointer and empties the handle, touching no count |
| SmartPointer.SmartPtr.Attach | multimedia/directshow/common/smartptr.h:132-138 | releases a non-NULL old pointer once and adopts the given pointer without AddRef |
| SmartPointer.SmartPtr.Equals | multimedia/directshow/common/smartptr.h:140-143 | operator== answers AreComObjectsEqual of the held pointer and the argument, with every count unchanged |
| SmartPointer.SmartPtr.NotEquals | multimedia/directshow/common/smartptr.h:145-148 | operator!= is the negation of operator==, with every count unchanged |
| Ownership.HeldIsAlive | multimedia/directshow/common/smartptr.h:68-70 | in a balanced table every non-NULL handle's object has a count of at least one, so the destructor, Release and Attach never release an object at count 0 |
| Ownership.AssignIsSafe | multimedia/directshow/common/smartptr.h:72-84 | when every handle owns its own reference, the release-before-AddRef order of operator= between two different handles never AddRefs an object whose count reached 0 |
| Ownership.SelfAssignEnabled | multimedia/directshow/common/smartptr.h:72-84 | self-assignment is always safe when the handle is empty or the IUnknown query on its own pointer succeeds, and otherwise whenever the object's count is at least 2 |
| Ownership.IdentityRuleAnswersEveryHandle | multimedia/directshow/common/smartptr.h:20-25 | when every object follows COM's identity rule, every non-empty handle's IUnknown query succeeds, so `SelfAssignEnabled` applies to every handle |
| Ownership.ApplyKeepsBalance | multimedia/directshow/common/smartptr.h:57-152 | construction, copy, destruction, assignment, Release, Detach, Attach and QueryInterface each keep every count equal to the references held outside handles plus the handles holding the object |
| Ownership.Run | multimedia/directshow/common/smartptr.h:57-152 | any program of handle operations, from a balanced table, ends in a balanced table; a program is cut short only at an operation the header cannot perform safely: a missing handle, Attach of a reference the caller does not own, QueryInterface through an empty handle, or a self-assignment that would AddRef an object released to 0 |
| Ownership.LifecycleKeepsRaw | multimedia/directshow/common/smartptr.h:60-84 | copying, assigning, releasing and destroying handles never changes the references held outside handles |
| Ownership.CountFollowsHandles | multimedia/directshow/common/smartptr.h:60-84 | over any program of copies, assignments, releases and destructions, each object's count falls by the handles holding it at the start and rises by the handles holding it at the end; once no handle holds the object, its count equals the references held outside handles at the start (no leak, no double release) |
| Ownership.NoHandleLeftOnlyRawReferences | multimedia/directshow/common/smartptr.h:57-152 | after any program of handle operations, attaches, detaches and queries included, an object no handle holds has a count equal to the references held outside handles |
| Ownership.AttachDetachRoundTrip | multimedia/directshow/common/smartptr.h:125-138 | `h.Attach(h.Detach())` restores the original table: same pointer, same counts, same references outside handles |
| Ownership.AttachOwnPointerDropsReference | multimedia/directshow/common/smartptr.h:132-138 | attaching the pointer a handle already holds, with no reference to transfer, drops a reference: the handles hold one more reference than the count, and a sole owner is left holding an object at count 0 |
| Scenarios.CopyThenDestroy | multimedia/directshow/common/smartptr.h:61-70 | copying a handle and destroying the copy leaves every count as it was |
| Scenarios.SelfAssignment | multimedia/directshow/common/smartptr.h:72-84 | for objects that follow COM's identity rule, `sp = sp` leaves the handle and every count unchanged |
| Scenarios.AssignAlias | multimedia/directshow/common/smartptr.h:72-84 | for objects that follow COM's identity rule, assigning between handles on the same object changes neither handle nor any count |
| Scenarios.DetachThenAttach | multimedia/directshow/common/smartptr.h:125-138 | `sp.Attach(sp.Detach())` gives back the same pointer with every count unchanged |
| Scenarios.FactoryLifetime | multimedia/directshow/common/smartptr.h:60-138 | attach a factory reference (count 1), copy (2), release the copy (1, returned), destroy the first handle (0); no other object is touched |
| Scenarios.QueryAnotherInterface | multimedia/directshow/common/smartptr.h:105-143 | for any objects, the query succeeds iff the held interface answers the IID, releasing the new interface restores every count, and a failed query changes nothing; for objects that follow COM's identity rule, a successful query yields an interface equal to the held one |

## Left out

- `SmartPtr::CoCreateInstance` (smartptr.h:98-103) is a call into the COM runtime's object factory, which is not part of this model.
- `operator&` (smartptr.h:86-88) and `operator T*` (smartptr.h:94-96) are not modelled. They hand out `m_ptr` itself, so callers can overwrite or alias it outside the handle's bookkeeping.
- `operator->` and `_NoAddRefOrRelease` (smartptr.h:35-46, 90-92) are not modelled. They only hide AddRef and Release from callers at compile time and have no behaviour to model.
- `operator=` returns `*this` for chaining; the returned reference is not modelled.
- An object destroying itself when its count reaches 0 is not modelled. Only the count reaching 0 is, and every AddRef, Release and QueryInterface requires a count of at least one.
- Reference counts are unbounded `nat`s; the 32-bit `ULONG` width of the counts and its wrap-around are not modelled.
- Thread safety of AddRef and Release is not modelled. It belongs to the objects, and the model is sequential.
- Interface types (`T`, `Q`) are not distinguished; a pointer is an address, and an IID is a number.
- The per-handle invariant `SmartPtr.Valid` only says a handle's object is alive. That each handle owns its own reference, across several handles, is stated and proved in the `Ownership` table rather than per handle.
- `multimedia/directshow/Dang/get_data_example/get_data.cpp` is not part of this model. It builds a DirectShow filter graph with Win32 events and timing, which is framework glue and I/O.
- `multimedia/directshow/filters/xnor_service/xnor_service/xnor_service.cpp` is not part of this model. It holds filter-registration tables and DLL entry points.
