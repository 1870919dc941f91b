/** The frames of a Handle's borrow stack (BorrowStackNode) and the singly
    linked chain they form through their parent pointers. A frame is written
    once, when it is constructed, and never changed, so a chain is a value. */
module BorrowStack {
  import opened Checks

  /** The address of the Owned or Borrowed that pushed a frame. It is only
      ever compared and printed, never dereferenced. */
  type Origin = object

  /** A `BorrowStackNode*`: null, or a frame holding its origin and a
      pointer to its parent frame. */
  datatype Chain = Null | Node(origin: Origin, parent: Chain)

  /** The origins of the frames of a chain, bottom frame first and top frame
      last. */
  function Origins(c: Chain): seq<Origin>
  {
    match c
    case Null => []
    case Node(o, p) => Origins(p) + [o]
  }

  /** Rebuilds the chain whose origins, bottom first, are `s`. */
  function FromOrigins(s: seq<Origin>): Chain
    decreases |s|
  {
    if s == [] then Null else Node(s[|s| - 1], FromOrigins(s[..|s| - 1]))
  }

  /** Only the null chain has no frames. */
  lemma {:induction false} OriginsEmpty(c: Chain)
    ensures Origins(c) == [] <==> c == Null
  {
    match c
    case Null =>
    case Node(o, p) =>
  }

  /** A chain can be rebuilt from its origins alone. */
  lemma {:induction false} FromOriginsOfOrigins(c: Chain)
    ensures FromOrigins(Origins(c)) == c
  {
    match c
    case Null =>
    case Node(o, p) =>
      var s := Origins(p) + [o];
      assert s[..|s| - 1] == Origins(p);
      FromOriginsOfOrigins(p);
  }

  /** Every sequence of origins is the sequence of some chain. */
  lemma {:induction false} OriginsOfFromOrigins(s: seq<Origin>)
    ensures Origins(FromOrigins(s)) == s
    decreases |s|
  {
    if s != [] {
      OriginsOfFromOrigins(s[..|s| - 1]);
      assert s == s[..|s| - 1] + [s[|s| - 1]];
    }
  }

  /** A node carries nothing but its origin and its parent, so two chains
      with the same origins are the same chain. */
  lemma OriginsDetermineChain(c1: Chain, c2: Chain)
    requires Origins(c1) == Origins(c2)
    ensures c1 == c2
  {
    FromOriginsOfOrigins(c1);
    FromOriginsOfOrigins(c2);
  }

  /** `new BorrowStackNode(origin, top)`: a frame holding exactly `origin`
      and the old top as its parent, one deeper than the old top. */
  function Push(top: Chain, origin: Origin): (r: Chain)
    ensures r.Node? && r.origin == origin && r.parent == top
    ensures Origins(r) == Origins(top) + [origin]
  {
    Node(origin, top)
  }

  /** The pop that Handle::return_handle performs on a non-null top: it
      reads the top's parent and fails the check when that parent is null,
      so it refuses to pop the bottom frame. */
  function Pop(top: Chain): (r: Checked<Chain>)
    requires top.Node?
    ensures r.Fail? <==> |Origins(top)| == 1
    ensures r.Fail? ==> r.violation == NullParent
    ensures r.Pass? ==> Origins(r.value) == Origins(top)[..|Origins(top)| - 1]
  {
    OriginsEmpty(top.parent);
    if top.parent == Null then Fail(NullParent) else Pass(top.parent)
  }

  /** A push followed by a pop restores the previous chain exactly, when
      that chain has at least one frame. */
  lemma PopAfterPush(top: Chain, origin: Origin)
    requires top != Null
    ensures Pop(Push(top, origin)) == Pass(top)
  {
  }

  /** As written, a pop right after the first push fails the check, so the
      round trip does not hold from the empty chain. */
  lemma PopAfterFirstPushFails(origin: Origin)
    ensures Pop(Push(Null, origin)) == Fail(NullParent)
  {
  }

  /** The corrected pop: it fails only when there is no frame to pop, and
      otherwise removes the top frame. The frame destructor labels a frame
      with a null parent "Owned" (ReleaseLabel), a label return_handle can
      never produce as written (PoppedFrameIsLabelledBorrowed): the bottom
      frame was meant to be released too. */
  function PopIntended(top: Chain): (r: Checked<Chain>)
    ensures r.Fail? <==> Origins(top) == []
    ensures r.Fail? ==> r.violation == NullParent
    ensures r.Pass? ==> Origins(r.value) == Origins(top)[..|Origins(top)| - 1]
  {
    OriginsEmpty(top);
    if top == Null then Fail(NullParent) else Pass(top.parent)
  }

  /** With the corrected pop, every push is undone by the next pop, from any
      chain, the empty one included. */
  lemma PopIntendedAfterPush(top: Chain, origin: Origin)
    ensures PopIntended(Push(top, origin)) == Pass(top)
  {
  }

  /** Above the bottom frame the written pop and the corrected pop agree. */
  lemma PopAgreesAboveBottom(top: Chain)
    requires |Origins(top)| >= 2
    ensures top.Node? && Pop(top) == PopIntended(top)
  {
    OriginsEmpty(top);
  }

  /** Pushes the origins of `os` one after another, the last one ending on
      top, as a sequence of nested `borrow()` calls does. */
  function PushAll(top: Chain, os: seq<Origin>): (r: Chain)
    ensures Origins(r) == Origins(top) + os
    decreases |os|
  {
    if os == [] then top else Push(PushAll(top, os[..|os| - 1]), os[|os| - 1])
  }

  /** Releases `n` frames one after another with the written pop, stopping
      at the first failed check. */
  function PopTimes(top: Chain, n: nat): Checked<Chain>
    requires n <= |Origins(top)|
  {
    if n == 0 then Pass(top)
    else
      OriginsEmpty(top);
      match Pop(top)
      case Fail(v) => Fail(v)
      case Pass(p) => PopTimes(p, n - 1)
  }

  /** Borrows released in exactly the reverse order of their creation
      restore the previous chain, when that chain has at least one frame. */
  lemma {:induction false} ReverseReleaseRestores(top: Chain, os: seq<Origin>)
    requires top != Null
    ensures |os| <= |Origins(PushAll(top, os))|
    ensures PopTimes(PushAll(top, os), |os|) == Pass(top)
    decreases |os|
  {
    OriginsEmpty(top);
    if os != [] {
      var below := PushAll(top, os[..|os| - 1]);
      OriginsEmpty(below);
      assert Pop(PushAll(top, os)) == Pass(below);
      ReverseReleaseRestores(top, os[..|os| - 1]);
    }
  }

  /** Above a single bottom frame, releasing every borrow in reverse order
      succeeds until the bottom frame, whose pop fails the parent check. */
  lemma {:induction false} ReleaseDownToBottomFails(bottom: Chain, os: seq<Origin>)
    requires |Origins(bottom)| == 1
    ensures |os| + 1 <= |Origins(PushAll(bottom, os))|
    ensures PopTimes(PushAll(bottom, os), |os| + 1) == Fail(NullParent)
    decreases |os|
  {
    OriginsEmpty(bottom);
    if os != [] {
      var below := PushAll(bottom, os[..|os| - 1]);
      OriginsEmpty(below);
      assert Pop(PushAll(bottom, os)) == Pass(below);
      ReleaseDownToBottomFails(bottom, os[..|os| - 1]);
    }
  }

  /** From the empty stack, `n` nested borrows released in reverse order
      give back the first borrow's frame after `n - 1` releases, and the
      last release fails the parent check: the stack never returns to
      empty. */
  lemma ReverseReleaseFromEmpty(os: seq<Origin>)
    requires os != []
    ensures |os| <= |Origins(PushAll(Null, os))|
    ensures PopTimes(PushAll(Null, os), |os| - 1) == Pass(Push(Null, os[0]))
    ensures PopTimes(PushAll(Null, os), |os|) == Fail(NullParent)
  {
    var bottom := Push(Null, os[0]);
    OriginsDetermineChain(PushAll(Null, os), PushAll(bottom, os[1..]));
    ReverseReleaseRestores(bottom, os[1..]);
    ReleaseDownToBottomFails(bottom, os[1..]);
  }

  /** Releases `n` frames one after another with the corrected pop,
      stopping at the first failed check. */
  function PopTimesIntended(top: Chain, n: nat): Checked<Chain>
    requires n <= |Origins(top)|
  {
    if n == 0 then Pass(top)
    else
      OriginsEmpty(top);
      match PopIntended(top)
      case Fail(v) => Fail(v)
      case Pass(p) => PopTimesIntended(p, n - 1)
  }

  /** With the corrected pop, borrows released in exactly the reverse order
      of their creation restore any chain, the empty one included. */
  lemma {:induction false} ReverseReleaseIntendedRestores(top: Chain, os: seq<Origin>)
    ensures |os| <= |Origins(PushAll(top, os))|
    ensures PopTimesIntended(PushAll(top, os), |os|) == Pass(top)
    decreases |os|
  {
    if os != [] {
      var below := PushAll(top, os[..|os| - 1]);
      assert PopIntended(PushAll(top, os)) == Pass(below);
      ReverseReleaseIntendedRestores(top, os[..|os| - 1]);
    }
  }

  /** The word the debug trace prints for a released frame. */
  datatype Label = OwnedLabel | BorrowedLabel

  /** One line of the debug trace: the label and the frame's origin. */
  datatype TraceLine = TraceLine(kind: Label, origin: Origin)

  /** The label of a released frame: "Owned" exactly for the bottom frame,
      the one whose parent is null. */
  function ReleaseLabel(frame: Chain): (l: Label)
    requires frame.Node?
    ensures l == OwnedLabel <==> frame.parent == Null
    ensures l == OwnedLabel <==> |Origins(frame)| == 1
  {
    OriginsEmpty(frame.parent);
    if frame.parent == Null then OwnedLabel else BorrowedLabel
  }

  /** What releasing a frame writes to the trace: one line with its label
      and origin in a debug build, nothing otherwise. */
  function ReleaseTrace(frame: Chain, debug: bool): (t: seq<TraceLine>)
    requires frame.Node?
    ensures |t| == if debug then 1 else 0
    ensures forall line | line in t :: line.origin == frame.origin && line.kind == ReleaseLabel(frame)
  {
    if debug then [TraceLine(ReleaseLabel(frame), frame.origin)] else []
  }

  /** The only frames return_handle ever deletes have a parent, so the
      trace never reports a released frame as "Owned". */
  lemma PoppedFrameIsLabelledBorrowed(top: Chain)
    requires top.Node? && Pop(top).Pass?
    ensures ReleaseLabel(top) == BorrowedLabel
  {
  }
}
