/**
 * The schedule tree: composite `Schedule` nodes over `Instruction` leaves,
 * its stop time and duration, and its depth-first flattening into blocks
 * placed at absolute times.
 */
module Schedules {

  import opened Wrappers
  import opened Commands
  import opened Instructions

  /** A node of the schedule tree. */
  datatype Component = Sched(schedule: Schedule) | Leaf(instruction: Instruction)

  /**
   * A composite node. `occupancy` and `children` are what `append`/`insert`
   * (not part of this model) build; the constructor leaves both empty.
   */
  datatype Schedule = Schedule(
    name: Option<string>, startTime: int, occupancy: seq<Timeslot>, children: seq<Component>)

  /** A flattened node at the absolute time it begins (`node.shifted(time)`). */
  datatype Block = Block(beginTime: int, node: Component)

  /** `Schedule(*schedules, name=None, start_time=0)`: the positional schedules are ignored. */
  function NewSchedule(schedules: seq<Component>, name: Option<string>, startTime: int): (r: Schedule)
    ensures r.children == [] && r.occupancy == []
    ensures r.name == name && r.startTime == startTime
  {
    Schedule(name, startTime, [], [])
  }

  function Children(node: Component): seq<Component> {
    match node
    case Sched(s) => s.children
    case Leaf(_) => []
  }

  /** The largest interval end among `ts`, which must not be empty. */
  function MaxEnd(ts: seq<Timeslot>): (m: int)
    requires |ts| > 0
    ensures forall i :: 0 <= i < |ts| ==> ts[i].interval.end <= m
    ensures exists i :: 0 <= i < |ts| && ts[i].interval.end == m
  {
    if |ts| == 1 then ts[0].interval.end
    else
      var rest := MaxEnd(ts[1..]);
      if ts[0].interval.end >= rest then ts[0].interval.end else rest
  }

  /** `max(end of each occupied slot, default=start_time)`. */
  function StopTime(s: Schedule): (t: int)
    ensures s.occupancy == [] ==> t == s.startTime
    ensures forall i :: 0 <= i < |s.occupancy| ==> s.occupancy[i].interval.end <= t
    ensures s.occupancy != [] ==> exists i :: 0 <= i < |s.occupancy| && s.occupancy[i].interval.end == t
  {
    if s.occupancy == [] then s.startTime else MaxEnd(s.occupancy)
  }

  /** `stop_time - start_time`. */
  function Duration(s: Schedule): (d: int)
    ensures d == StopTime(s) - s.startTime
    ensures s.occupancy == [] ==> d == 0
    ensures forall i :: 0 <= i < |s.occupancy| ==> s.startTime + d >= s.occupancy[i].interval.end
  {
    StopTime(s) - s.startTime
  }

  /** `_flatten_generator(node, time)`: a childless node is yielded as it is. */
  function FlattenNode(node: Component, time: int): (r: seq<Block>)
    ensures Children(node) == [] ==> r == [Block(time, node)]
    ensures |r| >= 1
    decreases node, 0
  {
    match node
    case Leaf(_) => [Block(time, node)]
    case Sched(s) =>
      if |s.children| == 0 then [Block(time, node)]
      else FlattenChildren(s, 0, time + s.startTime)
  }

  /** The flattening of `s.children[i..]`, in child order. */
  function FlattenChildren(s: Schedule, i: nat, time: int): (r: seq<Block>)
    requires i <= |s.children|
    ensures |r| >= |s.children| - i
    decreases s, |s.children| - i
  {
    if i == |s.children| then []
    else FlattenNode(s.children[i], time) + FlattenChildren(s, i + 1, time)
  }

  /**
   * `flat_instruction_sequence`: empty for a childless schedule; otherwise the
   * flattening seeded with the schedule's own start time, so the k-th leaf
   * begins at that start time plus its offset (which counts the root's start
   * time once more).
   */
  function FlatInstructionSequence(s: Schedule): (r: seq<Block>)
    ensures s.children == [] ==> r == []
    ensures s.children != [] ==> |r| == |Leaves(Sched(s))| == |Offsets(Sched(s))|
    ensures s.children != [] ==> forall k :: 0 <= k < |r| ==>
      r[k] == Block(s.startTime + Offsets(Sched(s))[k], Leaves(Sched(s))[k])
  {
    if |s.children| == 0 then []
    else
      FlattenPlacesLeaves(Sched(s), s.startTime);
      FlattenNode(Sched(s), s.startTime)
  }

  /** Every block moved later by `d`. */
  function Shift(blocks: seq<Block>, d: int): (r: seq<Block>)
    ensures |r| == |blocks|
    ensures forall i :: 0 <= i < |blocks| ==> r[i] == Block(blocks[i].beginTime + d, blocks[i].node)
  {
    seq(|blocks|, i requires 0 <= i < |blocks| => Block(blocks[i].beginTime + d, blocks[i].node))
  }

  /** The nodes of a block sequence, without their times. */
  function Nodes(blocks: seq<Block>): (r: seq<Component>)
    ensures |r| == |blocks|
    ensures forall i :: 0 <= i < |blocks| ==> r[i] == blocks[i].node
  {
    seq(|blocks|, i requires 0 <= i < |blocks| => blocks[i].node)
  }

  /** The childless nodes of a tree, left to right. */
  function Leaves(node: Component): seq<Component>
    decreases node, 0
  {
    if Children(node) == [] then [node] else LeavesFrom(node.schedule, 0)
  }

  function LeavesFrom(s: Schedule, i: nat): seq<Component>
    requires i <= |s.children|
    decreases s, |s.children| - i
  {
    if i == |s.children| then [] else Leaves(s.children[i]) + LeavesFrom(s, i + 1)
  }

  /**
   * For each leaf of `node`, in `Leaves` order, the sum of the start times of
   * the schedules with children on the way down to it, `node` included.
   */
  function Offsets(node: Component): seq<int>
    decreases node, 0
  {
    if Children(node) == [] then [0] else AddToAll(OffsetsFrom(node.schedule, 0), node.schedule.startTime)
  }

  function OffsetsFrom(s: Schedule, i: nat): seq<int>
    requires i <= |s.children|
    decreases s, |s.children| - i
  {
    if i == |s.children| then [] else Offsets(s.children[i]) + OffsetsFrom(s, i + 1)
  }

  function AddToAll(xs: seq<int>, d: int): (r: seq<int>)
    ensures |r| == |xs|
    ensures forall k :: 0 <= k < |xs| ==> r[k] == xs[k] + d
  {
    seq(|xs|, k requires 0 <= k < |xs| => xs[k] + d)
  }

  /** Each node placed at the seed plus its offset. */
  function Place(offsets: seq<int>, nodes: seq<Component>, time: int): (r: seq<Block>)
    requires |offsets| == |nodes|
    ensures |r| == |nodes|
    ensures forall k :: 0 <= k < |nodes| ==> r[k] == Block(time + offsets[k], nodes[k])
  {
    seq(|nodes|, k requires 0 <= k < |nodes| => Block(time + offsets[k], nodes[k]))
  }

  /**
   * Flattening places every leaf, in depth-first order, at the seed plus the
   * start times of the schedules with children above it.
   */
  lemma {:induction false} FlattenPlacesLeaves(node: Component, time: int)
    ensures |Offsets(node)| == |Leaves(node)|
    ensures FlattenNode(node, time) == Place(Offsets(node), Leaves(node), time)
    decreases node, 0
  {
    if Children(node) != [] {
      var s := node.schedule;
      FlattenChildrenPlaceLeaves(s, 0, time + s.startTime);
      var a := FlattenNode(node, time);
      var b := Place(Offsets(node), Leaves(node), time);
      assert |a| == |b|;
      forall k | 0 <= k < |a|
        ensures a[k] == b[k]
      {
        assert a[k] == Block(time + s.startTime + OffsetsFrom(s, 0)[k], LeavesFrom(s, 0)[k]);
      }
    }
  }

  lemma {:induction false} FlattenChildrenPlaceLeaves(s: Schedule, i: nat, time: int)
    requires i <= |s.children|
    ensures |OffsetsFrom(s, i)| == |LeavesFrom(s, i)|
    ensures FlattenChildren(s, i, time) == Place(OffsetsFrom(s, i), LeavesFrom(s, i), time)
    decreases s, |s.children| - i
  {
    if i < |s.children| {
      FlattenPlacesLeaves(s.children[i], time);
      FlattenChildrenPlaceLeaves(s, i + 1, time);
      var head := Place(Offsets(s.children[i]), Leaves(s.children[i]), time);
      var tail := Place(OffsetsFrom(s, i + 1), LeavesFrom(s, i + 1), time);
      var whole := Place(OffsetsFrom(s, i), LeavesFrom(s, i), time);
      assert |head + tail| == |whole|;
      forall k | 0 <= k < |whole|
        ensures (head + tail)[k] == whole[k]
      {
        if k >= |head| {
          assert (head + tail)[k] == tail[k - |head|];
        }
      }
    }
  }

  /**
   * A leaf under a schedule starting at 5, itself under a root starting at
   * 0, begins at 5: a nested schedule's start time is added.
   */
  lemma NestedLeafAtInnerStart(instr: Instruction)
    ensures FlatInstructionSequence(Schedule(None, 0, [], [Sched(Schedule(None, 5, [], [Leaf(instr)]))]))
         == [Block(5, Leaf(instr))]
  {
    var inner := Schedule(None, 5, [], [Leaf(instr)]);
    var root := Schedule(None, 0, [], [Sched(inner)]);
    assert FlattenChildren(inner, 0, 5) == [Block(5, Leaf(instr))] by {
      assert FlattenChildren(inner, 1, 5) == [];
    }
    assert FlattenNode(Sched(inner), 0) == [Block(5, Leaf(instr))];
    assert FlattenChildren(root, 1, 0) == [];
    assert FlattenChildren(root, 0, 0) == [Block(5, Leaf(instr))];
  }

  lemma ShiftAppend(a: seq<Block>, b: seq<Block>, d: int)
    ensures Shift(a + b, d) == Shift(a, d) + Shift(b, d)
  {
  }

  lemma NodesAppend(a: seq<Block>, b: seq<Block>)
    ensures Nodes(a + b) == Nodes(a) + Nodes(b)
  {
  }

  /** Flattening at a later time moves every block by the same amount. */
  lemma {:induction false} FlattenShift(node: Component, time: int, d: int)
    ensures FlattenNode(node, time + d) == Shift(FlattenNode(node, time), d)
    decreases node, 0
  {
    match node
    case Leaf(_) =>
    case Sched(s) =>
      if |s.children| > 0 {
        FlattenChildrenShift(s, 0, time + s.startTime, d);
      }
  }

  lemma {:induction false} FlattenChildrenShift(s: Schedule, i: nat, time: int, d: int)
    requires i <= |s.children|
    ensures FlattenChildren(s, i, time + d) == Shift(FlattenChildren(s, i, time), d)
    decreases s, |s.children| - i
  {
    if i < |s.children| {
      FlattenShift(s.children[i], time, d);
      FlattenChildrenShift(s, i + 1, time, d);
      ShiftAppend(FlattenNode(s.children[i], time), FlattenChildren(s, i + 1, time), d);
    }
  }

  /** Flattening yields exactly the leaves of the tree, once each, in depth-first order. */
  lemma {:induction false} FlattenYieldsLeaves(node: Component, time: int)
    ensures Nodes(FlattenNode(node, time)) == Leaves(node)
    decreases node, 0
  {
    match node
    case Leaf(_) =>
    case Sched(s) =>
      if |s.children| > 0 {
        FlattenChildrenYieldLeaves(s, 0, time + s.startTime);
      }
  }

  lemma {:induction false} FlattenChildrenYieldLeaves(s: Schedule, i: nat, time: int)
    requires i <= |s.children|
    ensures Nodes(FlattenChildren(s, i, time)) == LeavesFrom(s, i)
    decreases s, |s.children| - i
  {
    if i < |s.children| {
      FlattenYieldsLeaves(s.children[i], time);
      FlattenChildrenYieldLeaves(s, i + 1, time);
      NodesAppend(FlattenNode(s.children[i], time), FlattenChildren(s, i + 1, time));
    }
  }

  /** Every node the flattening yields is childless. */
  lemma {:induction false} LeavesAreChildless(node: Component)
    ensures forall i :: 0 <= i < |Leaves(node)| ==> Children(Leaves(node)[i]) == []
    decreases node, 0
  {
    if Children(node) != [] {
      LeavesFromChildless(node.schedule, 0);
    }
  }

  lemma {:induction false} LeavesFromChildless(s: Schedule, i: nat)
    requires i <= |s.children|
    ensures forall k :: 0 <= k < |LeavesFrom(s, i)| ==> Children(LeavesFrom(s, i)[k]) == []
    decreases s, |s.children| - i
  {
    if i < |s.children| {
      LeavesAreChildless(s.children[i]);
      LeavesFromChildless(s, i + 1);
    }
  }

  /**
   * The root's start time is counted twice: once as the seed and once when
   * descending into its children, so its subtree's blocks are its
   * start-time-0 flattening moved by twice its start time.
   */
  lemma RootStartCountedTwice(s: Schedule)
    requires s.children != []
    ensures FlatInstructionSequence(s)
         == Shift(FlatInstructionSequence(s.(startTime := 0)), 2 * s.startTime)
  {
    var s0 := s.(startTime := 0);
    FlattenChildrenShift(s, 0, 0, 2 * s.startTime);
    assert FlattenChildren(s, 0, 0) == FlattenChildren(s0, 0, 0) by {
      FlattenChildrenSameChildren(s, s0, 0, 0);
    }
  }

  lemma {:induction false} FlattenChildrenSameChildren(s: Schedule, t: Schedule, i: nat, time: int)
    requires s.children == t.children && i <= |s.children|
    ensures FlattenChildren(s, i, time) == FlattenChildren(t, i, time)
    decreases |s.children| - i
  {
    if i < |s.children| {
      FlattenChildrenSameChildren(s, t, i + 1, time);
    }
  }

  /** A leaf directly under a root that starts at `start` is placed at `2 * start`. */
  lemma DirectLeafAtTwiceStart(name: Option<string>, start: int, occupancy: seq<Timeslot>, instr: Instruction)
    ensures FlatInstructionSequence(Schedule(name, start, occupancy, [Leaf(instr)]))
         == [Block(2 * start, Leaf(instr))]
  {
    var s := Schedule(name, start, occupancy, [Leaf(instr)]);
    assert FlattenChildren(s, 1, start + start) == [];
    assert FlattenChildren(s, 0, start + start) == [Block(2 * start, Leaf(instr))];
  }

  /** A leaf flattens to the single pair `Instruction.flatten` yields. */
  lemma LeafFlattensAsInstruction(instr: Instruction, time: int)
    ensures |FlattenNode(Leaf(instr), time)| == |Instructions.Flatten(instr, time)| == 1
    ensures FlattenNode(Leaf(instr), time)[0].beginTime == Instructions.Flatten(instr, time)[0].0
    ensures FlattenNode(Leaf(instr), time)[0].node == Leaf(Instructions.Flatten(instr, time)[0].1)
  {
  }
}
