/** Handle<T>: the resource pointer of one resource and the top of its
    borrow stack. Owned and Borrowed reach the resource only through it. */
module Handles {
  import opened Checks
  import opened BorrowStack

  class Handle<T> {
    /** The resource pointer; `None` is nullptr (a moved-from Handle). */
    var data: Option<T>
    /** The top frame of the borrow stack. */
    var borrowSource: Chain
    /** False once the destructor has run: the Handle and its resource
        are deleted, and any further use of them is undefined. */
    var live: bool

    /** The origins of the borrow frames, bottom first, top last. */
    function Stack(): seq<Origin>
      reads this
    {
      Origins(borrowSource)
    }

    /** `Handle(T* ptr)`: holds `ptr` and no borrow frame. The source leaves
        the stack top uninitialised; the model starts it null. */
    constructor (ptr: Option<T>)
      ensures data == ptr && Stack() == [] && live
    {
      data := ptr;
      borrowSource := Null;
      live := true;
    }

    /** The move constructor: takes over the resource pointer and nulls the
        source's, leaving the source's stack as it was. The new Handle's
        stack top is uninitialised in the source and null here. */
    constructor MoveFrom(other: Handle<T>)
      requires other.live
      modifies other
      ensures data == old(other.data) && Stack() == [] && live
      ensures other.data == None && other.borrowSource == old(other.borrowSource) && other.live
    {
      data := other.data;
      borrowSource := Null;
      live := true;
      new;
      other.data := None;
    }

    /** The destructor deletes the resource whatever the depth of the borrow
        stack; the frames still on the stack are not freed. */
    method Drop()
      requires live
      modifies this
      ensures !live
      ensures data == old(data) && borrowSource == old(borrowSource)
    {
      live := false;
    }

    /** `get()`, and `*` and `->`, which call it: the resource, or a
        violation when the resource pointer is null. */
    function Get(): (r: Checked<T>)
      requires live
      reads this
      ensures r.Pass? <==> data.Some?
      ensures r.Pass? ==> data == Some(r.value)
      ensures r.Fail? ==> r.violation == NullData
    {
      if data == None then Fail(NullData) else Pass(data.value)
    }

    /** `borrow_from(origin)`: pushes a frame whose origin is `origin` and
        whose parent is the old top, and returns this same Handle. */
    method BorrowFrom(origin: Origin) returns (h: Handle<T>)
      requires live
      modifies this
      ensures h == this
      ensures borrowSource == Push(old(borrowSource), origin)
      ensures Stack() == old(Stack()) + [origin]
      ensures data == old(data) && live
    {
      borrowSource := Node(origin, borrowSource);
      h := this;
    }

    /** `return_handle()`: pops the top frame, whoever pushed it. The top is
        read unguarded, so the stack must not be empty; the pop fails the
        check, and changes nothing, when the top frame has no parent, that
        is, at depth 1. */
    method ReturnHandle() returns (s: Outcome)
      requires live
      requires Stack() != []
      modifies this
      ensures s.Violated? <==> |old(Stack())| == 1
      ensures s.Violated? ==> s.violation == NullParent && borrowSource == old(borrowSource)
      ensures s.Done? ==> Stack() == old(Stack())[..|old(Stack())| - 1]
      ensures s.Done? ==> Pop(old(borrowSource)) == Pass(borrowSource)
      ensures data == old(data) && live
    {
      OriginsEmpty(borrowSource);
      var parentNode := borrowSource.parent;
      if parentNode == Null {
        return Violated(NullParent);
      }
      borrowSource := parentNode;
      s := Done;
    }
  }
}
