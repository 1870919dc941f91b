/** Client code driving Owned, Borrowed and Handle together, the way a user
    of the library would, with what each sequence of calls leads to. */
module Scenarios {
  import opened Checks
  import opened BorrowStack
  import opened Handles
  import opened Ownership
  import opened Borrowing

  /** A borrow followed by a return restores the exact previous stack, as
      long as the stack was not empty before the borrow. */
  method BorrowThenReturn<T>(h: Handle<T>, origin: Origin) returns (s: Outcome)
    requires h.live && h.Stack() != []
    modifies h
    ensures s == Done
    ensures h.borrowSource == old(h.borrowSource) && h.data == old(h.data) && h.live
  {
    var same := h.BorrowFrom(origin);
    s := h.ReturnHandle();
  }

  /** make_owned(v), b1 from the owner, b2 from b1: the stack holds the
      owner's frame and then b1's. Releasing b2 pops back to depth 1 and the
      value is still readable; then releasing b1 fails the parent check,
      because the bottom frame has no parent. That failure is thrown out of
      b1's destructor and ends the program, so nothing runs after it. */
  method NestedBorrows(v: int)
    returns (owned: Owned<int>, b1: Borrowed<int>, nested: seq<Origin>,
             releaseB2: Outcome, afterB2: seq<Origin>, access: Checked<int>, releaseB1: Outcome)
    ensures nested == [owned, b1]
    ensures releaseB2 == Done && afterB2 == [owned]
    ensures access == Pass(v)
    ensures releaseB1 == Violated(NullParent)
  {
    owned := Owned.MakeOwned(v);
    var h := owned.handle;
    var r1 := owned.Borrow();
    b1 := new Borrowed(r1.value);
    var r2 := b1.Borrow();
    var b2 := new Borrowed(r2.value);
    nested := h.Stack();
    releaseB2 := b2.Drop();
    afterB2 := h.Stack();
    access := owned.Get();
    releaseB1 := b1.Drop();
  }

  /** Three nested borrows, then the middle one is released first: it pops
      the top frame, the one pushed for the innermost borrow, and no check
      fails. The frame pushed for the middle borrow stays. */
  method OutOfOrderRelease(v: int)
    returns (owned: Owned<int>, b1: Borrowed<int>, b2: Borrowed<int>, nested: seq<Origin>,
             release: Outcome, remaining: seq<Origin>)
    ensures nested == [owned, b1, b2]
    ensures release == Done
    ensures remaining == [owned, b1]
  {
    owned := Owned.MakeOwned(v);
    var h := owned.handle;
    var r1 := owned.Borrow();
    b1 := new Borrowed(r1.value);
    var r2 := b1.Borrow();
    b2 := new Borrowed(r2.value);
    var r3 := b2.Borrow();
    var b3 := new Borrowed(r3.value);
    nested := h.Stack();
    release := b2.Drop();
    remaining := h.Stack();
  }

  /** After a move, the moved-from owner holds no Handle: both access and
      borrowing through it fail the check, while the new owner sees the
      value. */
  method MovedFromOwner(v: int)
    returns (sourceGet: Checked<int>, sourceBorrow: Checked<Handle<int>>, targetGet: Checked<int>)
    ensures sourceGet == Fail(NullHandle)
    ensures sourceBorrow == Fail(NullHandle)
    ensures targetGet == Pass(v)
  {
    var source := Owned.MakeOwned(v);
    var target := new Owned.MoveFrom(source);
    sourceGet := source.Get();
    sourceBorrow := source.Borrow();
    targetGet := target.Get();
  }

  /** Destroying the owner while a borrow is outstanding deletes the
      resource anyway; the outstanding Borrowed is left with a deleted
      Handle, which the library does not detect. */
  method OwnerDroppedWhileBorrowed(v: int)
    returns (b1: Borrowed<int>, depth: nat)
    ensures b1.handle != null && !b1.handle.live
    ensures depth == 1
  {
    var owned := Owned.MakeOwned(v);
    var r1 := owned.Borrow();
    b1 := new Borrowed(r1.value);
    owned.Drop();
    depth := |b1.handle.Stack()|;
  }
}
