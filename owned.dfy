/** Owned<T>: the move-only root owner of a resource. It holds the Handle
    of the resource, forwards access to it and pushes borrow frames whose
    origin is itself. Copying is deleted in the source, so the model has no
    copy operation. */
module Ownership {
  import opened Checks
  import opened BorrowStack
  import opened Handles

  class Owned<T> {
    /** The Handle of the owned resource; null once moved from. */
    var handle: Handle?<T>

    /** `Owned(const T& value)`: allocates a Handle around a copy of
        `value`, with an empty borrow stack. */
    constructor FromValue(value: T)
      ensures handle != null && fresh(handle)
      ensures handle.live && handle.Get() == Pass(value) && handle.Stack() == []
    {
      handle := new Handle(Some(value));
    }

    /** `Owned(Handle<T>*)`: adopts the given Handle as it is. */
    constructor FromHandle(h: Handle?<T>)
      ensures handle == h
    {
      handle := h;
    }

    /** The move constructor: the new Owned takes the source's Handle and
        the source is left with none, so exactly one of the two holds it. */
    constructor MoveFrom(other: Owned<T>)
      modifies other
      ensures handle == old(other.handle) && other.handle == null
    {
      handle := other.handle;
      new;
      other.handle := null;
    }

    /** `make_owned(v)`: the value-based construction path. */
    static method MakeOwned(v: T) returns (o: Owned<T>)
      ensures fresh(o) && o.handle != null && fresh(o.handle)
      ensures o.handle.live && o.handle.Stack() == []
      ensures o.Get() == Pass(v)
    {
      o := new Owned.FromValue(v);
    }

    /** The destructor deletes the Handle, and with it the resource, without
        looking at how many borrow frames are outstanding. */
    method Drop()
      requires handle != null ==> handle.live
      modifies handle
      ensures handle == old(handle)
      ensures handle != null ==> !handle.live && handle.data == old(handle.data)
      ensures handle != null ==> handle.borrowSource == old(handle.borrowSource)
    {
      if handle != null {
        handle.Drop();
      }
    }

    /** `get()`, and `->`, which calls it: a violation when this Owned holds
        no Handle, and otherwise what the Handle's `get()` gives. */
    function Get(): (r: Checked<T>)
      requires handle != null ==> handle.live
      reads this, handle
      ensures handle == null ==> r == Fail(NullHandle)
      ensures handle != null ==> r == handle.Get()
    {
      if handle == null then Fail(NullHandle) else handle.Get()
    }

    /** `borrow()`: a violation when this Owned holds no Handle; otherwise
        it pushes one frame whose origin is this Owned and returns the
        Handle. */
    method Borrow() returns (r: Checked<Handle<T>>)
      requires handle != null ==> handle.live
      modifies handle
      ensures handle == null ==> r == Fail(NullHandle)
      ensures handle != null ==> r.Pass? && r.value == handle
      ensures handle != null ==> handle.Stack() == old(handle.Stack()) + [this]
      ensures handle != null ==> handle.data == old(handle.data) && handle.live
    {
      if handle == null {
        return Fail(NullHandle);
      }
      var h := handle.BorrowFrom(this);
      r := Pass(h);
    }
  }
}
