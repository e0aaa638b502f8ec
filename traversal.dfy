/**
 * The tree walks of frontend/src/util/traversal.ts.
 *
 * A node is abstract: a text node carries its text content, and every node has its children in
 * document order. `SimpleTraversal.traverse` is stated for a visitor with any state `S`: each
 * callback takes the state and gives the new one, in the order the walk calls them.
 * `PayloadTraversal.traverse` is that walk with the callbacks that update `currentPayload`,
 * `currentTraversalFrame` and `traversalStack`; the calls it makes to its own visitor's optional
 * `enterNode` and `exitNode` are recorded. `IndexTraversal.traverse` is the payload walk whose
 * payload is the text index.
 */
module Traversal {
  import opened Wrappers
  import Strings

  /** A DOM node: `text` is the content of a text node (`None` for any other node). */
  datatype DomNode = DomNode(id: nat, text: Option<string>, children: seq<DomNode>)

  predicate IsTextNode(n: DomNode) {
    n.text.Some?
  }

  datatype VisitorResult = Visit | NoVisit | Abort

  /**
   * `SimpleTraversal.traverse(root, visitor)`: the result and the visitor's state afterwards.
   * `'no-visit'` stops below the node, `'abort'` stops the walk, and a child that aborts stops it
   * before its later siblings and before the parent's `exitNode`.
   */
  function Traverse<S>(root: DomNode, visitNode: (S, DomNode) -> (S, VisitorResult), enterNode: (S, DomNode) -> S,
                       exitNode: (S, DomNode) -> S, s: S): (bool, S)
    decreases root, 1
  {
    var visited := visitNode(s, root);
    if visited.1 == NoVisit then (false, visited.0)
    else if visited.1 == Abort then (true, visited.0)
    else
      var children := TraverseChildren(root, 0, visitNode, enterNode, exitNode, enterNode(visited.0, root));
      if children.0 then children else (false, exitNode(children.1, root))
  }

  /** The loop over `root.childNodes` from child `i` on. */
  function TraverseChildren<S>(parent: DomNode, i: nat, visitNode: (S, DomNode) -> (S, VisitorResult),
                               enterNode: (S, DomNode) -> S, exitNode: (S, DomNode) -> S, s: S): (bool, S)
    requires i <= |parent.children|
    decreases parent, 0, |parent.children| - i
  {
    if i == |parent.children| then (false, s)
    else
      var child := Traverse(parent.children[i], visitNode, enterNode, exitNode, s);
      if child.0 then child else TraverseChildren(parent, i + 1, visitNode, enterNode, exitNode, child.1)
  }

  /** `SimpleTraversal.traverse`, with its loop over the children and its early returns. */
  method SimpleTraverse<S>(root: DomNode, visitNode: (S, DomNode) -> (S, VisitorResult), enterNode: (S, DomNode) -> S,
                           exitNode: (S, DomNode) -> S, s: S) returns (aborted: bool, state: S)
    ensures (aborted, state) == Traverse(root, visitNode, enterNode, exitNode, s)
    decreases root
  {
    var visited := visitNode(s, root);
    state := visited.0;
    if visited.1 == NoVisit {
      return false, state;
    }
    if visited.1 == Abort {
      return true, state;
    }
    state := enterNode(state, root);
    ghost var entered := state;
    for i := 0 to |root.children|
      invariant TraverseChildren(root, 0, visitNode, enterNode, exitNode, entered) ==
        TraverseChildren(root, i, visitNode, enterNode, exitNode, state)
    {
      var childResult;
      childResult, state := SimpleTraverse(root.children[i], visitNode, enterNode, exitNode, state);
      if childResult {
        return true, state;
      }
    }
    state := exitNode(state, root);
    return false, state;
  }

  /** What a recording visitor writes down. */
  datatype Event = Visited(node: DomNode) | Entered(node: DomNode) | Exited(node: DomNode)

  function RecordVisit(decide: DomNode -> VisitorResult): (seq<Event>, DomNode) -> (seq<Event>, VisitorResult) {
    (t: seq<Event>, n: DomNode) => (t + [Visited(n)], decide(n))
  }

  function RecordEnter(): (seq<Event>, DomNode) -> seq<Event> {
    (t: seq<Event>, n: DomNode) => t + [Entered(n)]
  }

  function RecordExit(): (seq<Event>, DomNode) -> seq<Event> {
    (t: seq<Event>, n: DomNode) => t + [Exited(n)]
  }

  /** The calls a visitor that always answers `'visit'` receives: visit, enter, the children in order, exit. */
  function FullTrace(n: DomNode): seq<Event>
    decreases n, 1
  {
    [Visited(n), Entered(n)] + ChildrenTrace(n, 0) + [Exited(n)]
  }

  function ChildrenTrace(n: DomNode, i: nat): seq<Event>
    requires i <= |n.children|
    decreases n, 0, |n.children| - i
  {
    if i == |n.children| then [] else FullTrace(n.children[i]) + ChildrenTrace(n, i + 1)
  }

  /** A visitor that always visits sees every node, `enterNode` before the children and `exitNode` after. */
  lemma {:induction false} AllVisitTrace(root: DomNode, decide: DomNode -> VisitorResult, t: seq<Event>)
    requires forall n :: decide(n) == Visit
    ensures Traverse(root, RecordVisit(decide), RecordEnter(), RecordExit(), t) == (false, t + FullTrace(root))
    decreases root, 1
  {
    assert RecordVisit(decide)(t, root) == (t + [Visited(root)], Visit);
    var entered := t + [Visited(root), Entered(root)];
    assert RecordEnter()(t + [Visited(root)], root) == entered;
    AllVisitChildrenTrace(root, 0, decide, entered);
    var c := TraverseChildren(root, 0, RecordVisit(decide), RecordEnter(), RecordExit(), entered);
    assert RecordExit()(c.1, root) == c.1 + [Exited(root)];
    assert entered + ChildrenTrace(root, 0) + [Exited(root)] == t + FullTrace(root);
  }

  lemma {:induction false} AllVisitChildrenTrace(root: DomNode, i: nat, decide: DomNode -> VisitorResult, t: seq<Event>)
    requires i <= |root.children|
    requires forall n :: decide(n) == Visit
    ensures TraverseChildren(root, i, RecordVisit(decide), RecordEnter(), RecordExit(), t) == (false, t + ChildrenTrace(root, i))
    decreases root, 0, |root.children| - i
  {
    if i < |root.children| {
      AllVisitTrace(root.children[i], decide, t);
      AllVisitChildrenTrace(root, i + 1, decide, t + FullTrace(root.children[i]));
      assert TraverseChildren(root, i, RecordVisit(decide), RecordEnter(), RecordExit(), t) ==
        TraverseChildren(root, i + 1, RecordVisit(decide), RecordEnter(), RecordExit(), t + FullTrace(root.children[i]));
      assert ChildrenTrace(root, i) == FullTrace(root.children[i]) + ChildrenTrace(root, i + 1);
      assert t + FullTrace(root.children[i]) + ChildrenTrace(root, i + 1) == t + ChildrenTrace(root, i);
    } else {
      assert t + ChildrenTrace(root, i) == t;
    }
  }

  /** The walk only appends to the record. */
  ghost predicate Extends(t: seq<Event>, u: seq<Event>) {
    |u| > |t| && u[..|t|] == t
  }

  /**
   * The walk returns true exactly when it ends on an aborting visit: the last call is then the
   * `visitNode` that answered `'abort'`, so no `exitNode` and no later sibling follow it.
   * Otherwise the last call is the root's `exitNode`, or its `visitNode` when that answered
   * `'no-visit'`.
   */
  lemma {:induction false} TraverseEnds(root: DomNode, decide: DomNode -> VisitorResult, t: seq<Event>)
    ensures var r := Traverse(root, RecordVisit(decide), RecordEnter(), RecordExit(), t);
      && Extends(t, r.1)
      && (r.0 ==> r.1[|r.1| - 1].Visited? && decide(r.1[|r.1| - 1].node) == Abort)
      && (!r.0 ==> r.1[|r.1| - 1] == Exited(root) || (r.1[|r.1| - 1] == Visited(root) && decide(root) == NoVisit))
    decreases root, 1
  {
    var r := Traverse(root, RecordVisit(decide), RecordEnter(), RecordExit(), t);
    assert RecordVisit(decide)(t, root) == (t + [Visited(root)], decide(root));
    if decide(root) == Visit {
      var entered := t + [Visited(root), Entered(root)];
      assert RecordEnter()(t + [Visited(root)], root) == entered;
      TraverseChildrenEnds(root, 0, decide, entered);
      var c := TraverseChildren(root, 0, RecordVisit(decide), RecordEnter(), RecordExit(), entered);
      assert c.1[..|t|] == c.1[..|entered|][..|t|];
      if !c.0 {
        assert RecordExit()(c.1, root) == c.1 + [Exited(root)];
        assert r.1 == c.1 + [Exited(root)];
        assert r.1[..|t|] == c.1[..|t|];
      }
    }
  }

  lemma {:induction false} TraverseChildrenEnds(root: DomNode, i: nat, decide: DomNode -> VisitorResult, t: seq<Event>)
    requires i <= |root.children|
    ensures var r := TraverseChildren(root, i, RecordVisit(decide), RecordEnter(), RecordExit(), t);
      && |r.1| >= |t| && r.1[..|t|] == t
      && (r.0 ==> |r.1| > 0 && r.1[|r.1| - 1].Visited? && decide(r.1[|r.1| - 1].node) == Abort)
    decreases root, 0, |root.children| - i
  {
    if i < |root.children| {
      var child := Traverse(root.children[i], RecordVisit(decide), RecordEnter(), RecordExit(), t);
      TraverseEnds(root.children[i], decide, t);
      if !child.0 {
        TraverseChildrenEnds(root, i + 1, decide, child.1);
        var r := TraverseChildren(root, i + 1, RecordVisit(decide), RecordEnter(), RecordExit(), child.1);
        assert r.1[..|t|] == r.1[..|child.1|][..|t|];
      }
    }
  }

  // PayloadTraversal

  datatype PayloadPolicy = KeepPayload | DiscardPayload
  datatype ChildrenPolicy = VisitChildren | EvaluateChildren | IgnoreChildren | AbortChildren

  /** `{ payload, children }`, the answer of a payload visitor. */
  datatype Policy = Policy(payload: PayloadPolicy, children: ChildrenPolicy)

  /** `{ payloadOnEnter, policy }`; the policy is `'visit-children'` or `'evaluate-children'`. */
  datatype Frame<T> = Frame(payloadOnEnter: T, policy: ChildrenPolicy)

  /** A call the walk makes to its visitor's `visitNode`, `enterNode` or `exitNode`. */
  datatype PayloadCall<T> = VisitCall(node: DomNode, previous: T, own: T) | EnterCall(node: DomNode, payloadOnEnter: T)
                          | ExitCall(node: DomNode, payloadOnEnter: T, payloadOnExit: T)

  /** The variables the callbacks update, and the visitor calls made so far. */
  datatype PayloadState<T> = PayloadState(payload: T, frame: Frame<T>, stack: seq<Frame<T>>, calls: seq<PayloadCall<T>>)

  /**
   * The `visitNode` callback: the visitor is asked only under a `'visit-children'` frame, and
   * otherwise the node keeps its payload and its children are evaluated.
   */
  function VisitStep<T>(mapper: (DomNode, T) -> T, visitor: (DomNode, T, T) -> Policy, s: PayloadState<T>, node: DomNode)
    : (r: (PayloadState<T>, VisitorResult))
    ensures r.0.frame == s.frame
  {
    var nodePayload := mapper(node, s.payload);
    var asked := s.frame.policy == VisitChildren;
    var policy := if asked then visitor(node, s.payload, nodePayload) else Policy(KeepPayload, EvaluateChildren);
    var calls := if asked then s.calls + [VisitCall(node, s.payload, nodePayload)] else s.calls;
    var payload := if policy.payload == KeepPayload then nodePayload else s.payload;
    if policy.children == AbortChildren then (s.(payload := payload, calls := calls), Abort)
    else if policy.children == IgnoreChildren then (s.(payload := payload, calls := calls), NoVisit)
    else (PayloadState(payload, s.frame, s.stack + [Frame(nodePayload, policy.children)], calls), Visit)
  }

  /** The `enterNode` callback: the node's own frame becomes current. */
  function EnterStep<T>(s: PayloadState<T>, node: DomNode): (r: PayloadState<T>)
    ensures r.payload == s.payload && r.stack == s.stack
  {
    if s.stack == [] then s
    else
      var frame := s.stack[|s.stack| - 1];
      s.(frame := frame, calls := if frame.policy == VisitChildren then s.calls + [EnterCall(node, s.payload)] else s.calls)
  }

  /**
   * Which frame `exitNode` leaves current: as written, the frame it popped; as intended, the
   * parent's frame, now on top of the stack.
   */
  datatype Variant = AsWritten | Intended

  /** The `exitNode` callback: the top frame is popped, and its policy decides whether the visitor is called. */
  function ExitStep<T>(s: PayloadState<T>, node: DomNode, variant: Variant): (r: PayloadState<T>)
    ensures r.payload == s.payload
    ensures s.stack != [] ==> r.stack == s.stack[..|s.stack| - 1]
    ensures s.stack != [] && variant == AsWritten ==> r.frame == s.stack[|s.stack| - 1]
    ensures |s.stack| > 1 && variant == Intended ==> r.frame == s.stack[|s.stack| - 2]
  {
    if s.stack == [] then s
    else
      var popped := s.stack[|s.stack| - 1];
      var rest := s.stack[..|s.stack| - 1];
      var current := if variant == Intended && rest != [] then rest[|rest| - 1] else popped;
      PayloadState(s.payload, current, rest,
                   if popped.policy == VisitChildren then s.calls + [ExitCall(node, popped.payloadOnEnter, s.payload)] else s.calls)
  }

  function PVisit<T>(mapper: (DomNode, T) -> T, visitor: (DomNode, T, T) -> Policy): (PayloadState<T>, DomNode) -> (PayloadState<T>, VisitorResult) {
    (s: PayloadState<T>, n: DomNode) => VisitStep(mapper, visitor, s, n)
  }

  function PEnter<T>(): (PayloadState<T>, DomNode) -> PayloadState<T> {
    (s: PayloadState<T>, n: DomNode) => EnterStep(s, n)
  }

  function PExit<T>(variant: Variant): (PayloadState<T>, DomNode) -> PayloadState<T> {
    (s: PayloadState<T>, n: DomNode) => ExitStep(s, n, variant)
  }

  /** The state before the walk: the initial payload and one `'visit-children'` frame. */
  function InitialState<T>(initialPayload: T): PayloadState<T> {
    PayloadState(initialPayload, Frame(initialPayload, VisitChildren), [Frame(initialPayload, VisitChildren)], [])
  }

  /** The walk of `PayloadTraversal.traverse`: whether it aborted, and the final state. */
  function PayloadRun<T>(root: DomNode, mapper: (DomNode, T) -> T, visitor: (DomNode, T, T) -> Policy, initialPayload: T,
                         variant: Variant): (bool, PayloadState<T>)
  {
    Traverse(root, PVisit(mapper, visitor), PEnter(), PExit(variant), InitialState(initialPayload))
  }

  /** `PayloadTraversal.traverse(root, payloadMapper, visitor, initialPayload)`: the final payload. */
  function PayloadTraverse<T>(root: DomNode, mapper: (DomNode, T) -> T, visitor: (DomNode, T, T) -> Policy, initialPayload: T,
                              variant: Variant): T {
    PayloadRun(root, mapper, visitor, initialPayload, variant).1.payload
  }

  /**
   * Each node pushes at most one frame and its `exitNode` pops it again: a walk that does not
   * abort leaves the stack as it found it, and an aborted one only added frames. So `exitNode`
   * never meets an empty stack.
   */
  lemma {:induction false} StackBalanced<T>(root: DomNode, mapper: (DomNode, T) -> T, visitor: (DomNode, T, T) -> Policy,
                                             s: PayloadState<T>, variant: Variant)
    ensures var r := Traverse(root, PVisit(mapper, visitor), PEnter(), PExit(variant), s);
      |r.1.stack| >= |s.stack| && r.1.stack[..|s.stack|] == s.stack && (!r.0 ==> r.1.stack == s.stack)
    decreases root, 1
  {
    var visited := VisitStep(mapper, visitor, s, root);
    if visited.1 == Visit {
      var entered := EnterStep(visited.0, root);
      StackBalancedChildren(root, 0, mapper, visitor, entered, variant);
      var c := TraverseChildren(root, 0, PVisit(mapper, visitor), PEnter(), PExit(variant), entered);
      assert c.1.stack[..|s.stack|] == c.1.stack[..|entered.stack|][..|s.stack|];
    }
  }

  lemma {:induction false} StackBalancedChildren<T>(root: DomNode, i: nat, mapper: (DomNode, T) -> T, visitor: (DomNode, T, T) -> Policy,
                                                    s: PayloadState<T>, variant: Variant)
    requires i <= |root.children|
    ensures var r := TraverseChildren(root, i, PVisit(mapper, visitor), PEnter(), PExit(variant), s);
      |r.1.stack| >= |s.stack| && r.1.stack[..|s.stack|] == s.stack && (!r.0 ==> r.1.stack == s.stack)
    decreases root, 0, |root.children| - i
  {
    if i < |root.children| {
      StackBalanced(root.children[i], mapper, visitor, s, variant);
      var child := Traverse(root.children[i], PVisit(mapper, visitor), PEnter(), PExit(variant), s);
      if !child.0 {
        StackBalancedChildren(root, i + 1, mapper, visitor, child.1, variant);
      }
    }
  }

  // IndexTraversal

  /** The length a node contributes to the index: `textContent.length` (UTF-16 code units) for a text node, else 0. */
  function TextLength(n: DomNode): nat {
    if IsTextNode(n) then Strings.Utf16Length(n.text.value) else 0
  }

  /** The text length of the whole subtree. */
  function TotalText(n: DomNode): nat
    decreases n, 1
  {
    TextLength(n) + ChildrenText(n, 0)
  }

  function ChildrenText(n: DomNode, i: nat): nat
    requires i <= |n.children|
    decreases n, 0, |n.children| - i
  {
    if i == |n.children| then 0 else TotalText(n.children[i]) + ChildrenText(n, i + 1)
  }

  /** The payload mapper: the index after the node. */
  function IndexMapper(): (DomNode, int) -> int {
    (n: DomNode, previous: int) => previous + TextLength(n)
  }

  /** The payload visitor built around an index visitor `(node, index, lengthSelf) -> result`. */
  function IndexPolicy(visitor: (DomNode, int, int) -> VisitorResult): (DomNode, int, int) -> Policy {
    (n: DomNode, currentIndex: int, indexWithSelf: int) =>
      var policy := visitor(n, currentIndex, indexWithSelf - currentIndex);
      if policy == Abort then Policy(DiscardPayload, AbortChildren)
      else if policy == Visit then Policy(KeepPayload, VisitChildren)
      else Policy(KeepPayload, EvaluateChildren)
  }

  /** The walk of `IndexTraversal.traverse(root, visitor, rootIndex)`. */
  function IndexRun(root: DomNode, visitor: (DomNode, int, int) -> VisitorResult, rootIndex: int, variant: Variant)
    : (bool, PayloadState<int>) {
    PayloadRun(root, IndexMapper(), IndexPolicy(visitor), rootIndex, variant)
  }

  /** `IndexTraversal.traverse(root, visitor, rootIndex)`: the final index. */
  function IndexTraverse(root: DomNode, visitor: (DomNode, int, int) -> VisitorResult, rootIndex: int, variant: Variant): int {
    IndexRun(root, visitor, rootIndex, variant).1.payload
  }

  /**
   * A walk that does not abort moves the index past the whole subtree's text, whatever the
   * visitor answers; a visitor that never aborts therefore always gets there.
   */
  lemma {:induction false} IndexAdvance(root: DomNode, visitor: (DomNode, int, int) -> VisitorResult, s: PayloadState<int>,
                                            variant: Variant)
    ensures var r := Traverse(root, PVisit(IndexMapper(), IndexPolicy(visitor)), PEnter(), PExit(variant), s);
      && (!r.0 ==> r.1.payload == s.payload + TotalText(root))
      && ((forall n, i, l :: visitor(n, i, l) != Abort) ==> !r.0)
    decreases root, 1
  {
    var visited := VisitStep(IndexMapper(), IndexPolicy(visitor), s, root);
    if visited.1 == Visit {
      var entered := EnterStep(visited.0, root);
      IndexAdvanceChildren(root, 0, visitor, entered, variant);
    }
  }

  lemma {:induction false} IndexAdvanceChildren(root: DomNode, i: nat, visitor: (DomNode, int, int) -> VisitorResult,
                                                    s: PayloadState<int>, variant: Variant)
    requires i <= |root.children|
    ensures var r := TraverseChildren(root, i, PVisit(IndexMapper(), IndexPolicy(visitor)), PEnter(), PExit(variant), s);
      && (!r.0 ==> r.1.payload == s.payload + ChildrenText(root, i))
      && ((forall n, i, l :: visitor(n, i, l) != Abort) ==> !r.0)
    decreases root, 0, |root.children| - i
  {
    if i < |root.children| {
      IndexAdvance(root.children[i], visitor, s, variant);
      var child := Traverse(root.children[i], PVisit(IndexMapper(), IndexPolicy(visitor)), PEnter(), PExit(variant), s);
      if !child.0 {
        IndexAdvanceChildren(root, i + 1, visitor, child.1, variant);
      }
    }
  }

  /** A visitor that always answers `'no-visit'` gets back `rootIndex` plus the text length of the tree. */
  lemma NoVisitIndex(root: DomNode, rootIndex: int, variant: Variant)
    ensures IndexTraverse(root, (n: DomNode, i: int, l: int) => NoVisit, rootIndex, variant) == rootIndex + TotalText(root)
  {
    IndexAdvance(root, (n: DomNode, i: int, l: int) => NoVisit, InitialState(rootIndex), variant);
  }

  /**
   * An aborted walk's last recorded call is the visit that answered `'abort'`, and the walk's
   * payload is the index that call was given.
   */
  ghost predicate EndsOnAbort(visitor: (DomNode, int, int) -> VisitorResult, r: (bool, PayloadState<int>)) {
    r.0 ==> && |r.1.calls| > 0
            && var last := r.1.calls[|r.1.calls| - 1];
               && last.VisitCall?
               && visitor(last.node, last.previous, last.own - last.previous) == Abort
               && r.1.payload == last.previous
  }

  /**
   * An aborted walk ends on the visitor call that answered `'abort'`, and returns the index that
   * call was given: the index where the aborting node starts, without its own length.
   */
  lemma {:induction false} AbortIndex(root: DomNode, visitor: (DomNode, int, int) -> VisitorResult, s: PayloadState<int>,
                                          variant: Variant)
    ensures EndsOnAbort(visitor, Traverse(root, PVisit(IndexMapper(), IndexPolicy(visitor)), PEnter(), PExit(variant), s))
    decreases root, 1
  {
    var visited := VisitStep(IndexMapper(), IndexPolicy(visitor), s, root);
    if visited.1 == Visit {
      AbortIndexChildren(root, 0, visitor, EnterStep(visited.0, root), variant);
    }
  }

  lemma {:induction false} AbortIndexChildren(root: DomNode, i: nat, visitor: (DomNode, int, int) -> VisitorResult,
                                                  s: PayloadState<int>, variant: Variant)
    requires i <= |root.children|
    ensures EndsOnAbort(visitor, TraverseChildren(root, i, PVisit(IndexMapper(), IndexPolicy(visitor)), PEnter(), PExit(variant), s))
    decreases root, 0, |root.children| - i
  {
    if i < |root.children| {
      var visit, enter, exit := PVisit(IndexMapper(), IndexPolicy(visitor)), PEnter(), PExit(variant);
      AbortIndex(root.children[i], visitor, s, variant);
      var child := Traverse(root.children[i], visit, enter, exit, s);
      if !child.0 {
        AbortIndexChildren(root, i + 1, visitor, child.1, variant);
        assert TraverseChildren(root, i, visit, enter, exit, s) == TraverseChildren(root, i + 1, visit, enter, exit, child.1);
      } else {
        assert TraverseChildren(root, i, visit, enter, exit, s) == child;
      }
    }
  }

  /** The index visitor of the two examples below: `'no-visit'` for node 1, `'visit'` for every other node. */
  function SkipFirstChild(n: DomNode, currentIndex: int, lengthSelf: int): VisitorResult {
    if n.id == 1 then NoVisit else Visit
  }

  /**
   * `exitNode` makes the popped frame current, not the parent's: after a child answered with
   * `'no-visit'`, its `'evaluate-children'` frame stays current, so its following sibling is never
   * offered to the visitor, although the parent answered `'visit'`.
   */
  lemma NoVisitLeaksToSiblings(root: DomNode, rootIndex: int)
    requires |root.children| == 2 && root.id != 1 && root.children[0].id == 1 && root.children[1].id != 1
    requires root.children[0].children == [] && root.children[1].children == []
    requires !IsTextNode(root) && !IsTextNode(root.children[0]) && !IsTextNode(root.children[1])
    ensures var a, b := root.children[0], root.children[1];
      IndexRun(root, SkipFirstChild, rootIndex, AsWritten).1.calls ==
        [VisitCall(root, rootIndex, rootIndex), EnterCall(root, rootIndex), VisitCall(a, rootIndex, rootIndex),
         ExitCall(root, rootIndex, rootIndex)]
  {
    var a, b := root.children[0], root.children[1];
    var visitor := SkipFirstChild;
    var visitFrame, evaluateFrame := Frame(rootIndex, VisitChildren), Frame(rootIndex, EvaluateChildren);
    var s1 := PayloadState(rootIndex, visitFrame, [visitFrame, visitFrame], [VisitCall(root, rootIndex, rootIndex)]);
    IndexRootVisited(root, visitor, InitialState(rootIndex));
    var s2 := s1.(calls := s1.calls + [EnterCall(root, rootIndex)]);
    // the first child answers 'no-visit' and leaves its 'evaluate-children' frame current
    IndexLeafEvaluated(a, visitor, s2, AsWritten);
    var s5 := s2.(frame := evaluateFrame, calls := s2.calls + [VisitCall(a, rootIndex, rootIndex)]);
    // so the second child is not offered to the visitor
    IndexLeafEvaluated(b, visitor, s5, AsWritten);
    assert s5.(frame := evaluateFrame, calls := s5.calls + []) == s5;
    TwoChildWalk(root, PVisit(IndexMapper(), IndexPolicy(visitor)), PEnter(), PExit(AsWritten), InitialState(rootIndex), s1, s5, s5);
    assert IndexRun(root, visitor, rootIndex, AsWritten) == (false, ExitStep(s5, root, AsWritten));
    assert ExitStep(s5, root, AsWritten).calls == s5.calls + [ExitCall(root, rootIndex, rootIndex)];
  }


  /** The current frame is the one on top of the stack. */
  ghost predicate FrameOnTop<T>(s: PayloadState<T>) {
    s.stack != [] && s.frame == s.stack[|s.stack| - 1]
  }

  /**
   * With the parent's frame made current on exit, a walk that does not abort gives back the
   * frame and the stack it started with: every child of a node is visited under that node's own
   * frame.
   */
  lemma {:induction false} ParentFrameRestored<T>(root: DomNode, mapper: (DomNode, T) -> T, visitor: (DomNode, T, T) -> Policy,
                                                  s: PayloadState<T>)
    requires FrameOnTop(s)
    ensures var r := Traverse(root, PVisit(mapper, visitor), PEnter(), PExit(Intended), s);
      !r.0 ==> r.1.frame == s.frame && r.1.stack == s.stack
    decreases root, 1
  {
    var visited := VisitStep(mapper, visitor, s, root);
    if visited.1 == Visit {
      var entered := EnterStep(visited.0, root);
      ParentFrameRestoredChildren(root, 0, mapper, visitor, entered);
    }
  }

  lemma {:induction false} ParentFrameRestoredChildren<T>(root: DomNode, i: nat, mapper: (DomNode, T) -> T,
                                                          visitor: (DomNode, T, T) -> Policy, s: PayloadState<T>)
    requires i <= |root.children| && FrameOnTop(s)
    ensures var r := TraverseChildren(root, i, PVisit(mapper, visitor), PEnter(), PExit(Intended), s);
      !r.0 ==> r.1.frame == s.frame && r.1.stack == s.stack
    decreases root, 0, |root.children| - i
  {
    if i < |root.children| {
      ParentFrameRestored(root.children[i], mapper, visitor, s);
      var child := Traverse(root.children[i], PVisit(mapper, visitor), PEnter(), PExit(Intended), s);
      if !child.0 {
        ParentFrameRestoredChildren(root, i + 1, mapper, visitor, child.1);
      }
    }
  }

  /** The walk of a node without children: its visit, then its entry and exit unless it stopped there. */
  lemma LeafWalk<S>(leaf: DomNode, visitNode: (S, DomNode) -> (S, VisitorResult), enterNode: (S, DomNode) -> S,
                    exitNode: (S, DomNode) -> S, s: S)
    requires leaf.children == []
    ensures Traverse(leaf, visitNode, enterNode, exitNode, s) ==
      var visited := visitNode(s, leaf);
      if visited.1 == NoVisit then (false, visited.0)
      else if visited.1 == Abort then (true, visited.0)
      else (false, exitNode(enterNode(visited.0, leaf), leaf))
  {
  }

  /** The frame `exitNode` leaves current after popping `popped` off the rest of the stack. */
  function ExitFrame<T>(rest: seq<Frame<T>>, popped: Frame<T>, variant: Variant): Frame<T> {
    if variant == Intended && rest != [] then rest[|rest| - 1] else popped
  }

  /** The first visit of the walk from the initial state, to a non-text node whose visitor answers `'visit'`. */
  lemma IndexRootVisited(root: DomNode, visitor: (DomNode, int, int) -> VisitorResult, s: PayloadState<int>)
    requires !IsTextNode(root) && s == InitialState(s.payload) && visitor(root, s.payload, 0) == Visit
    ensures var visitFrame := Frame(s.payload, VisitChildren);
      var visited := PayloadState(s.payload, visitFrame, [visitFrame, visitFrame], [VisitCall(root, s.payload, s.payload)]);
      && PVisit(IndexMapper(), IndexPolicy(visitor))(s, root) == (visited, Visit)
      && PEnter()(visited, root) == visited.(calls := visited.calls + [EnterCall(root, s.payload)])
  {
    assert IndexMapper()(root, s.payload) == s.payload;
    assert IndexPolicy(visitor)(root, s.payload, s.payload) == Policy(KeepPayload, VisitChildren);
    var visitFrame := Frame(s.payload, VisitChildren);
    assert [visitFrame] + [visitFrame] == [visitFrame, visitFrame];
    assert s.calls + [VisitCall(root, s.payload, s.payload)] == [VisitCall(root, s.payload, s.payload)];
    assert VisitStep(IndexMapper(), IndexPolicy(visitor), s, root) ==
      (PayloadState(s.payload, visitFrame, [visitFrame, visitFrame], [VisitCall(root, s.payload, s.payload)]), Visit);
  }

  /**
   * A non-text leaf whose visitor answers `'no-visit'`, or that is met under a frame that does not
   * ask the visitor: only its visit is recorded, and its `'evaluate-children'` frame is popped again.
   */
  lemma IndexLeafEvaluated(leaf: DomNode, visitor: (DomNode, int, int) -> VisitorResult, s: PayloadState<int>, variant: Variant)
    requires leaf.children == [] && !IsTextNode(leaf)
    requires s.frame.policy == VisitChildren ==> visitor(leaf, s.payload, 0) == NoVisit
    ensures Traverse(leaf, PVisit(IndexMapper(), IndexPolicy(visitor)), PEnter(), PExit(variant), s) ==
      (false, s.(frame := ExitFrame(s.stack, Frame(s.payload, EvaluateChildren), variant),
                 calls := s.calls + if s.frame.policy == VisitChildren then [VisitCall(leaf, s.payload, s.payload)] else []))
  {
    var m, p := IndexMapper(), IndexPolicy(visitor);
    assert m(leaf, s.payload) == s.payload;
    var frame := Frame(s.payload, EvaluateChildren);
    var calls := s.calls + if s.frame.policy == VisitChildren then [VisitCall(leaf, s.payload, s.payload)] else [];
    if s.frame.policy == VisitChildren {
      assert p(leaf, s.payload, s.payload) == Policy(KeepPayload, EvaluateChildren);
    } else {
      assert calls == s.calls;
    }
    assert VisitStep(m, p, s, leaf) == (PayloadState(s.payload, s.frame, s.stack + [frame], calls), Visit);
    EvaluatedLeafWalk(leaf, m, p, s, frame, calls, variant);
  }

  /** A leaf whose visit pushes an `'evaluate-children'` frame without recording an entry: the exit pops it. */
  lemma EvaluatedLeafWalk<T>(leaf: DomNode, m: (DomNode, T) -> T, p: (DomNode, T, T) -> Policy, s: PayloadState<T>,
                             frame: Frame<T>, calls: seq<PayloadCall<T>>, variant: Variant)
    requires leaf.children == [] && frame.policy == EvaluateChildren
    requires VisitStep(m, p, s, leaf) == (PayloadState(s.payload, s.frame, s.stack + [frame], calls), Visit)
    ensures Traverse(leaf, PVisit(m, p), PEnter(), PExit(variant), s) ==
      (false, s.(frame := ExitFrame(s.stack, frame, variant), calls := calls))
  {
    var visited := PayloadState(s.payload, s.frame, s.stack + [frame], calls);
    var entered := visited.(frame := frame);
    assert EnterStep(visited, leaf) == entered;
    assert entered.stack[..|entered.stack| - 1] == s.stack;
    assert ExitStep(entered, leaf, variant) == s.(frame := ExitFrame(s.stack, frame, variant), calls := calls);
    LeafWalk(leaf, PVisit(m, p), PEnter(), PExit(variant), s);
  }

  /** A non-text leaf whose visitor answers `'visit'`: its visit, entry and exit are recorded. */
  lemma IndexLeafVisited(leaf: DomNode, visitor: (DomNode, int, int) -> VisitorResult, s: PayloadState<int>, variant: Variant)
    requires leaf.children == [] && !IsTextNode(leaf)
    requires s.frame.policy == VisitChildren && visitor(leaf, s.payload, 0) == Visit
    ensures Traverse(leaf, PVisit(IndexMapper(), IndexPolicy(visitor)), PEnter(), PExit(variant), s) ==
      (false, s.(frame := ExitFrame(s.stack, Frame(s.payload, VisitChildren), variant),
                 calls := s.calls + [VisitCall(leaf, s.payload, s.payload), EnterCall(leaf, s.payload), ExitCall(leaf, s.payload, s.payload)]))
  {
    var m, p := IndexMapper(), IndexPolicy(visitor);
    assert m(leaf, s.payload) == s.payload;
    assert p(leaf, s.payload, s.payload) == Policy(KeepPayload, VisitChildren);
    var frame := Frame(s.payload, VisitChildren);
    var visited := PayloadState(s.payload, s.frame, s.stack + [frame], s.calls + [VisitCall(leaf, s.payload, s.payload)]);
    assert VisitStep(m, p, s, leaf) == (visited, Visit);
    var entered := visited.(frame := frame, calls := visited.calls + [EnterCall(leaf, s.payload)]);
    assert EnterStep(visited, leaf) == entered;
    assert entered.stack[..|entered.stack| - 1] == s.stack;
    assert entered.calls + [ExitCall(leaf, s.payload, s.payload)] ==
      s.calls + [VisitCall(leaf, s.payload, s.payload), EnterCall(leaf, s.payload), ExitCall(leaf, s.payload, s.payload)];
    assert ExitStep(entered, leaf, variant) ==
      s.(frame := ExitFrame(s.stack, frame, variant), calls := entered.calls + [ExitCall(leaf, s.payload, s.payload)]);
    LeafWalk(leaf, PVisit(m, p), PEnter(), PExit(variant), s);
  }

  /** The walk of a node with two children that both finish: visit, enter, both children, exit. */
  lemma TwoChildWalk<S>(root: DomNode, visitNode: (S, DomNode) -> (S, VisitorResult), enterNode: (S, DomNode) -> S,
                        exitNode: (S, DomNode) -> S, s: S, visited: S, first: S, second: S)
    requires |root.children| == 2 && visitNode(s, root) == (visited, Visit)
    requires Traverse(root.children[0], visitNode, enterNode, exitNode, enterNode(visited, root)) == (false, first)
    requires Traverse(root.children[1], visitNode, enterNode, exitNode, first) == (false, second)
    ensures Traverse(root, visitNode, enterNode, exitNode, s) == (false, exitNode(second, root))
  {
    assert TraverseChildren(root, 2, visitNode, enterNode, exitNode, second) == (false, second);
    assert TraverseChildren(root, 1, visitNode, enterNode, exitNode, first) == (false, second);
  }

  /**
   * The tree of `NoVisitLeaksToSiblings` with the parent's frame made current on exit: the second
   * child is offered to the visitor, entered and exited, as a `'visit'` answer for the parent means.
   */
  lemma SiblingVisitedWhenRestored(root: DomNode, rootIndex: int)
    requires |root.children| == 2 && root.id != 1 && root.children[0].id == 1 && root.children[1].id != 1
    requires root.children[0].children == [] && root.children[1].children == []
    requires !IsTextNode(root) && !IsTextNode(root.children[0]) && !IsTextNode(root.children[1])
    ensures var a, b := root.children[0], root.children[1];
      IndexRun(root, SkipFirstChild, rootIndex, Intended).1.calls ==
        [VisitCall(root, rootIndex, rootIndex), EnterCall(root, rootIndex), VisitCall(a, rootIndex, rootIndex),
         VisitCall(b, rootIndex, rootIndex), EnterCall(b, rootIndex), ExitCall(b, rootIndex, rootIndex),
         ExitCall(root, rootIndex, rootIndex)]
  {
    var a, b := root.children[0], root.children[1];
    var visitor := SkipFirstChild;
    var visitFrame := Frame(rootIndex, VisitChildren);
    var s1 := PayloadState(rootIndex, visitFrame, [visitFrame, visitFrame], [VisitCall(root, rootIndex, rootIndex)]);
    IndexRootVisited(root, visitor, InitialState(rootIndex));
    var s2 := s1.(calls := s1.calls + [EnterCall(root, rootIndex)]);
    // the first child answers 'no-visit'; on its exit the parent's frame is current again
    IndexLeafEvaluated(a, visitor, s2, Intended);
    var s5 := s2.(calls := s2.calls + [VisitCall(a, rootIndex, rootIndex)]);
    // the second child is offered to the visitor under the parent's frame
    IndexLeafVisited(b, visitor, s5, Intended);
    var s8 := s5.(calls := s5.calls + [VisitCall(b, rootIndex, rootIndex), EnterCall(b, rootIndex), ExitCall(b, rootIndex, rootIndex)]);
    TwoChildWalk(root, PVisit(IndexMapper(), IndexPolicy(visitor)), PEnter(), PExit(Intended), InitialState(rootIndex), s1, s5, s8);
    assert IndexRun(root, visitor, rootIndex, Intended) == (false, ExitStep(s8, root, Intended));
    assert ExitStep(s8, root, Intended).calls == s8.calls + [ExitCall(root, rootIndex, rootIndex)];
  }

}
