/** Borrowed<T>: a non-owning accessor wrapping the Handle returned by a
    `borrow()`. It can push further frames whose origin is itself, and its
    destructor pops one frame: whichever is on top, not necessarily the one
    pushed for it. It never deletes the Handle or the resource. */
module Borrowing {
  import opened Checks
  import opened BorrowStack
  import opened Handles

  class Borrowed<T> {
    /** The Handle this accessor was issued from; it does not own it. */
    var handle: Handle?<T>

    /** `Borrowed(Handle<T>* h)`: stores `h` and pushes no frame. */
    constructor (h: Handle?<T>)
      ensures handle == h
      ensures h != null ==> h.borrowSource == old(h.borrowSource) && h.data == old(h.data)
    {
      handle := h;
    }

    /** The destructor: with a Handle, it calls `return_handle()` once, which
        pops the top frame at depth 2 or more and fails the check at depth
        1; with no Handle it does nothing. An empty stack would make the
        source read through a null top, so it must not be empty. A failed
        check throws out of the destructor, which is implicitly noexcept,
        so a `Violated` result stands for the end of the program. */
    method Drop() returns (s: Outcome)
      requires handle != null ==> handle.live && handle.Stack() != []
      modifies handle
      ensures handle == null ==> s == Done
      ensures handle != null ==> handle.live && handle.data == old(handle.data)
      ensures handle != null ==> (s.Violated? <==> |old(handle.Stack())| == 1)
      ensures handle != null && s.Violated? ==>
                s.violation == NullParent && handle.borrowSource == old(handle.borrowSource)
      ensures handle != null && s.Done? ==>
                handle.Stack() == old(handle.Stack())[..|old(handle.Stack())| - 1]
    {
      s := Done;
      if handle != null {
        s := handle.ReturnHandle();
      }
    }

    /** `get()`, and `->`, which calls it: a violation when this Borrowed
        holds no Handle, and otherwise what the Handle's `get()` gives. */
    function Get(): (r: Checked<T>)
      requires handle != null ==> handle.live
      reads this, handle
      ensures handle == null ==> r == Fail(NullHandle)
      ensures handle != null ==> r == handle.Get()
    {
      if handle == null then Fail(NullHandle) else handle.Get()
    }

    /** `borrow()`: a violation when this Borrowed holds no Handle; otherwise
        it pushes one frame whose origin is this Borrowed onto the same
        Handle and returns that Handle. */
    method Borrow() returns (r: Checked<Handle<T>>)
      requires handle != null ==> handle.live
      modifies handle
      ensures handle == null ==> r == Fail(NullHandle)
      ensures handle != null ==> r.Pass? && r.value == handle
      ensures handle != null ==> handle.Stack() == old(handle.Stack()) + [this]
      ensures handle != null ==> handle.data == old(handle.data) && handle.live
    {
      if handle == null {
        return Fail(NullHandle);
      }
      var h := handle.BorrowFrom(this);
      r := Pass(h);
    }
  }
}
