# liboath ownership core, modelled in Dafny

This project models the runtime ownership and borrow subsystem of liboath.
It also models two small value utilities from the same library.

- `Owned<T>` is the move-only root owner of a resource.
- `Handle<T>` holds the resource pointer and the top of the borrow stack.
- `Borrowed<T>` is a non-owning accessor whose destructor pops one frame.
- `BorrowStackNode` is one frame of the borrow stack. It holds an origin and a parent pointer.
- `Result<T, E>` is an ok/err sum type.
- `Value<T>` is a one-value wrapper with `get` and `map`.

The model fixes one configuration: runtime checks on (`OATH_RUNTIME_CHECK`).
A failed `OATH_CHECK` throws before the operation that ran it changes any state.
A check that fails inside a destructor instead ends the program, because the exception leaves a destructor that is implicitly `noexcept`.
The model reports it as a `Violation` outcome (`Checks.Checked`, `Checks.Outcome`).
The three violations name the pointer that was found null:

- `NullData`: the resource pointer, in `Handle::get`.
- `NullHandle`: the Handle pointer of an `Owned` or `Borrowed`.
- `NullParent`: the parent of the popped frame, in `Handle::return_handle`.

Files and modules:

- `config.dfy` (`Checks`): the violation outcome and a nullable-pointer `Option`.
- `borrow_stack_node.dfy` (`BorrowStack`): frames as an immutable linked `Chain`, their origins, push, pop and the release label.
- `handle.dfy` (`Handles`): class `Handle` with fields `data`, `borrowSource` and `live`.
- `owned.dfy` (`Ownership`): class `Owned`.
- `borrowed.dfy` (`Borrowing`): class `Borrowed`.
- `scenarios.dfy` (`Scenarios`): client sequences of calls and what they lead to.
- `result.dfy` (`Results`) and `value.dfy` (`Values`): the two pure utilities.

Modelling choices:

- A frame is never changed after construction, so the borrow stack is a `Chain` value.
- `Handle.Stack()` lists the origins bottom first.
- An origin is the address of the `Owned` or `Borrowed` that pushed the frame. It is modelled as `object`, and callers pass `this`.
- A destructor becomes an explicit `Drop` method.
- Deleting a Handle and its resource sets `live` to false.
- Using a deleted Handle is undefined behaviour in the source, so every operation requires `live`.
- `return_handle` reads the top frame without a null check, so it requires a non-empty stack.
- The operators `*` and `->` only call `get`, so they are modelled by `Get`. `Get` gives the resource's value, not a pointer through which it can be written (see "## Left out").

Where the code does not compile, the model follows the evident intent:

- `handle.h:33-34` declares two `get` overloads that differ only in return type. They become one `Get`.
- `borrowed.h:17` calls `handle.return_handle()` on a pointer. It is read as `handle->return_handle()`.
- `owned.h:14` passes `const T&` to `Handle(T*)`. It is read as allocating a Handle around a copy of the value.
- `owned.h:25` returns `{ _data }` through an explicit constructor. It is read as `Owned(_data)`.
- `handle.h:20` leaves `borrow_source` uninitialised. The model starts it null, an empty stack.
- The move constructor at `handle.h:27` leaves it uninitialised too. The model also starts it null there.
- `result.h:63` (`map`), `result.h:83` (`map_err`) and `result.h:109` (`and_then`), in the `const&` overloads, pass the `const` reference from `get_ok()` or `get_err()` to `ok(OkType&&)` or `err(ErrType&&)`. An rvalue reference cannot bind to it. They are read as building the result from a copy.

`return_handle` fails the pop when the top frame has no parent, which is depth 1.
So the bottom frame, pushed for the first borrow, can never be popped: whichever release finds one frame left fails the check, and a pop on an empty stack reads through a null pointer.
The source's own frame destructor labels a frame with a null parent "Owned" (`borrow_stack_node.h:23`).
No frame `return_handle` deletes can ever carry that label, so the bottom frame was evidently meant to be released as well.
`Handles.Handle.ReturnHandle` and `Borrowing.Borrowed.Drop` keep the code's behaviour.
`BorrowStack.PopIntended` gives the corrected pop (see "## Findings").

## Model

| member | source | states |
|---|---|---|
| BorrowStack.FromOriginsOfOrigins | include/oath20/ownership/borrow_stack_node.h:13-14 | a chain of frames is rebuilt exactly from its sequence of origins |
| BorrowStack.OriginsOfFromOrigins | include/oath20/ownership/borrow_stack_node.h:13-14 | every sequence of origins is the origin sequence of some chain |
| BorrowStack.OriginsDetermineChain | include/oath20/ownership/borrow_stack_node.h:13-14 | a frame holds only an origin and a parent, so two chains with the same origins are equal |
| BorrowStack.Push | include/oath20/ownership/handle.h:45 | the new frame stores exactly the given origin and the old top as parent, and the origins grow by that one origin at the top |
| BorrowStack.Pop | include/oath20/ownership/handle.h:49-55 | the written pop fails with NullParent exactly at depth 1; otherwise it removes the top origin and keeps the rest |
| BorrowStack.PopAfterPush | include/oath20/ownership/handle.h:43-55 | on a non-empty stack, a push followed by a pop restores the exact previous chain |
| BorrowStack.PopAfterFirstPushFails | include/oath20/ownership/handle.h:51-52 | the pop right after the first push on an empty stack fails the parent check |
| BorrowStack.PopIntended | include/oath20/ownership/handle.h:49-55 | the corrected pop fails exactly on the empty stack and otherwise removes the top origin |
| BorrowStack.PopIntendedAfterPush | include/oath20/ownership/handle.h:43-55 | with the corrected pop, a push followed by a pop restores any chain, the empty one included |
| BorrowStack.PopAgreesAboveBottom | include/oath20/ownership/handle.h:51-54 | at depth 2 or more the written pop and the corrected pop give the same result |
| BorrowStack.PushAll | include/oath20/ownership/handle.h:43-47 | a run of pushes appends the pushed origins, in order, on top of the existing ones |
| BorrowStack.ReverseReleaseRestores | include/oath20/ownership/handle.h:49-55 | on a non-empty stack, releasing any number of pushed frames in exact reverse order succeeds and restores the previous chain |
| BorrowStack.ReleaseDownToBottomFails | include/oath20/ownership/handle.h:51-52 | above a single bottom frame, releasing every frame in reverse order fails the parent check at the bottom frame |
| BorrowStack.ReverseReleaseFromEmpty | include/oath20/ownership/borrowed.h:17 | from an empty stack, n nested borrows released in reverse order leave the first borrow's frame after n-1 releases, and the n-th release fails |
| BorrowStack.ReverseReleaseIntendedRestores | include/oath20/ownership/handle.h:49-55 | with the corrected pop, releasing any number of pushed frames in exact reverse order succeeds and restores any chain, the empty one included |
| BorrowStack.ReleaseLabel | include/oath20/ownership/borrow_stack_node.h:23 | the label is "Owned" exactly when the parent is null, which is exactly for the bottom frame |
| BorrowStack.ReleaseTrace | include/oath20/ownership/borrow_stack_node.h:18-29 | a debug build writes one line with the frame's label and origin; otherwise releasing writes nothing |
| BorrowStack.PoppedFrameIsLabelledBorrowed | include/oath20/ownership/handle.h:51-53 | every frame that return_handle deletes has a parent, so its trace label is always "Borrowed" |
| Handles.Handle.constructor | include/oath20/ownership/handle.h:20 | the new Handle holds the given pointer, is live and has no frames |
| Handles.Handle.MoveFrom | include/oath20/ownership/handle.h:27 | the new Handle takes the source's resource pointer; the source's pointer becomes null and its stack is unchanged |
| Handles.Handle.Drop | include/oath20/ownership/handle.h:21 | the resource is deleted at any stack depth; the pointer and the frames stay as they were |
| Handles.Handle.Get | include/oath20/ownership/handle.h:33-40 | gives the resource when the pointer is set and a NullData violation exactly when it is null |
| Handles.Handle.BorrowFrom | include/oath20/ownership/handle.h:43-47 | pushes one frame with the given origin on the old top, returns this Handle and leaves the resource pointer unchanged |
| Handles.Handle.ReturnHandle | include/oath20/ownership/handle.h:49-55 | on a non-empty stack: a NullParent violation exactly at depth 1 with the stack unchanged; otherwise the top frame is removed; the resource pointer is untouched |
| Ownership.Owned.FromValue | include/oath20/ownership/owned.h:14 | allocates a fresh live Handle whose get gives the value and whose stack is empty |
| Ownership.Owned.FromHandle | include/oath20/ownership/owned.h:17 | adopts the given Handle pointer |
| Ownership.Owned.MoveFrom | include/oath20/ownership/owned.h:18 | the new owner holds the source's Handle and the source holds none, so exactly one of the two holds it |
| Ownership.Owned.MakeOwned | include/oath20/ownership/owned.h:25 | a fresh owner of a fresh live Handle with an empty stack, whose get gives the value |
| Ownership.Owned.Drop | include/oath20/ownership/owned.h:23 | deletes the Handle and its resource without looking at the stack depth |
| Ownership.Owned.Get | include/oath20/ownership/owned.h:28-32 | a NullHandle violation with no Handle; otherwise exactly the Handle's get |
| Ownership.Owned.Borrow | include/oath20/ownership/owned.h:34 | a NullHandle violation with no Handle; otherwise pushes one frame with this owner as origin and returns the Handle |
| Borrowing.Borrowed.constructor | include/oath20/ownership/borrowed.h:15 | stores the Handle pointer and pushes no frame |
| Borrowing.Borrowed.Drop | include/oath20/ownership/borrowed.h:17 | with no Handle it does nothing; otherwise it pops whatever frame is on top, fails at depth 1 with the stack unchanged, and never deletes the Handle or the resource |
| Borrowing.Borrowed.Get | include/oath20/ownership/borrowed.h:20-24 | a NullHandle violation with no Handle; otherwise exactly the Handle's get |
| Borrowing.Borrowed.Borrow | include/oath20/ownership/borrowed.h:26 | a NullHandle violation with no Handle; otherwise pushes one frame with this accessor as origin onto the same Handle |
| Scenarios.BorrowThenReturn | include/oath20/ownership/handle.h:43-55 | on a non-empty stack, borrow_from followed by return_handle succeeds and restores the exact previous top |
| Scenarios.NestedBorrows | include/oath20/ownership/borrowed.h:17-26 | owner then nested borrow gives origins [owner, b1]; releasing b2 returns to [owner] with the value still readable; releasing b1 then fails the parent check, which ends the program |
| Scenarios.OutOfOrderRelease | include/oath20/ownership/borrowed.h:17 | releasing the middle of three nested borrows first removes the innermost frame instead, with no violation |
| Scenarios.MovedFromOwner | include/oath20/ownership/owned.h:18-34 | after a move, get and borrow on the source fail with NullHandle while the target reads the value |
| Scenarios.OwnerDroppedWhileBorrowed | include/oath20/ownership/owned.h:23 | destroying the owner with one borrow outstanding deletes the resource, and the borrow's Handle is left deleted at depth 1 |
| Results.Result.IsOk | include/oath20/result/result.h:38 | when is_ok holds the result is ok(v) of its value v; otherwise it is err(e) of its error e |
| Results.Result.IsErr | include/oath20/result/result.h:38-39 | exactly one of is_ok and is_err holds |
| Results.Result.AsBool | include/oath20/result/result.h:51 | the boolean conversion equals is_ok |
| Results.Result.Unwrap | include/oath20/result/result.h:41-42 | on an ok result, gives the value v with the result equal to ok(v) |
| Results.Result.UnwrapErr | include/oath20/result/result.h:44-45 | on an error result, gives the error e with the result equal to err(e) |
| Results.Result.UnwrapOr | include/oath20/result/result.h:47 | the ok value for an ok result, the default for an error |
| Results.Result.UnwrapErrOr | include/oath20/result/result.h:49 | the error for an error result, the default for an ok result |
| Results.Result.Expect | include/oath20/result/result.h:53 | throws with the given message exactly when the result is an error |
| Results.Result.Map | include/oath20/result/result.h:56-74 | keeps the variant; ok(v) becomes ok(f(v)) and an error passes through unchanged |
| Results.Result.MapErr | include/oath20/result/result.h:77-95 | keeps the variant; err(e) becomes err(f(e)) and an ok value passes through unchanged |
| Results.Result.AndThen | include/oath20/result/result.h:98-124 | ok(v) gives f(v); err(e) short-circuits to err(e) |
| Results.Result.Match | include/oath20/result/result.h:127-151 | ok(v) gives fo(v) and err(e) gives fe(e) |
| Results.MapIsAndThenOk | include/oath20/result/result.h:58-64 | map is and_then with a function that always returns ok |
| Results.MapsAreMatches | include/oath20/result/result.h:79-85 | map and map_err are match rebuilding ok and err |
| Results.UnwrapOrIsMatch | include/oath20/result/result.h:47-49 | unwrap_or and unwrap_err_or are match with one constant branch |
| Results.MapFunctor | include/oath20/result/result.h:68-74 | mapping by the identity changes nothing, and two maps compose into one |
| Results.MapMapErrCommute | include/oath20/result/result.h:58-95 | mapping the ok side and the error side commute |
| Results.AndThenLaws | include/oath20/result/result.h:105-124 | ok is a left and right unit of and_then, and and_then is associative |
| Results.ChainEndsInErrTrue | test/result/result_test.cpp:33-39 | the map, map_err, and_then chain of the test ends in the error true |
| Values.Value.Get | include/oath/value/value.h:16-23 | get gives back the value the wrapper was built with |
| Values.Value.GetMut | include/oath/value/value.h:24 | get_mut reads the same stored value as get |
| Values.Value.Copy | include/oath/value/value.h:19 | a copy's get equals the original's |
| Values.Value.Map | include/oath/value/value.h:31-45 | both map overloads give a wrapper holding f of the value |
| Values.MapCompose | include/oath/value/value.h:33-37 | two maps equal one map by the composition, so a.map(f).map(g).get() is g(f(a.get())) |
| Values.MapIdentity | include/oath/value/value.h:33-37 | mapping by the identity gives an equal wrapper |
| Values.AddMapped | test/value/value_test.cpp:19-26 | for integers, mapping by adding k adds k, and mapping twice adds it twice |

## Findings

| source | as written | input that shows it | evidently intended | confidence | as-written member | corrected member |
|---|---|---|---|---|---|---|
| include/oath20/ownership/handle.h:51-52 | the pop checks that the top frame has a parent, so it fails at depth 1 and reads through null at depth 0 | `make_owned(v)`, then `Borrowed b1(owned.borrow())`, then destroy `b1`: the check fails inside the destructor and the program terminates | a pop fails only when no frame is left, so every borrow can be returned | high; not executed | BorrowStack.ReverseReleaseFromEmpty | BorrowStack.ReverseReleaseIntendedRestores |

The classes keep the code's behaviour, because they model the code as written.
`Scenarios.NestedBorrows` shows the failing release through the classes.
`BorrowStack.PopIntended` is the corrected pop, and `BorrowStack.PopIntendedAfterPush` its one-step round trip.
`BorrowStack.PopAfterFirstPushFails` is the one-borrow case of the failing input.
`BorrowStack.PopAgreesAboveBottom` shows that the two pops differ only at the bottom frame.
`BorrowStack.ReverseReleaseFromEmpty` shows the failing input for any number of nested borrows.

## Left out

- The debug trace is not printed. The `std::cout` line in the frame destructor is modelled only as the pure `BorrowStack.ReleaseTrace`.
- The text of the exception that a failed check throws is not modelled. Only which check failed is kept.
- The preprocessor switches are not modelled. The model fixes runtime checks on.
- Freed memory is not modelled. Deletion is the `live` flag, and use after deletion is excluded by preconditions.
- Frames still on the stack when a Handle is deleted are never freed in the source. That leak is not modelled.
- Copying a `Borrowed` is allowed in the source and would pop twice. Copying is not modelled.
- The deleted copy operations of `Owned` and `Handle` have no model. The model simply has no copy operation.
- Lvalue and rvalue overloads are merged into one function each. The moved-from state they leave behind is not modelled.
- Results.Result.Unwrap: the source's `assert` becomes a precondition. The behaviour with assertions compiled out is not modelled.
- Results.Result.UnwrapErr: same as `Unwrap`.
- The `T` different from `E` constraint on `Result` is a compile-time type constraint. It is not modelled.
- The private accessors `get_ok` and `get_err` are only called after the variant is checked. They are not modelled separately.
- Ownership.Owned.FromHandle: the constructor is public, and `borrow()` returns the owned Handle itself, so a second `Owned` can adopt a Handle that another `Owned` already owns. Both destructors then delete it. That double delete is not modelled: the second `Drop` is excluded by its `requires handle.live`.
- Borrowing.Borrowed.Drop: a `Violated` result is thrown out of the destructor, which is implicitly `noexcept`, so the program terminates there. The model returns the outcome and does not model termination.
- Handles.Handle.Get: the source returns a non-const `T*`, so any accessor can write the shared resource and every other accessor sees the write. The model gives the value only and does not model writes through it.
- Ownership.Owned.Get: same as `Handles.Handle.Get`; a write through the returned pointer reaches the shared resource and is not modelled.
- Borrowing.Borrowed.Get: same as `Handles.Handle.Get`; a write through the returned pointer reaches the shared resource and is not modelled.
- Values.Value.GetMut: a write through the returned reference is not modelled. Values are immutable in the model.
- The conversion operators of `Value` (include/oath/value/value.h:26-27) read the same value as `Get`. They are not modelled separately.
- The floating-point instance of the value test is not modelled. `Value` stays generic.
- Timing utilities and concept definitions have no runtime behaviour in the core. They are not part of this model.
