/** The doubly linked list that holds the instructions, and the edits of it that the optimizer makes.
    Elsewhere the list is the sequence `Code()`; here each edit of the links is shown to be the edit of
    that sequence. */
module LinkedCode {
  import opened Instructions
  import opened CodeLists

  class Node {
    var ins: Ins
    var next: Node?
    var prev: Node?

    constructor (ins: Ins)
      ensures this.ins == ins && next == null && prev == null
    {
      this.ins, next, prev := ins, null, null;
    }
  }

  ghost function NodeAt(nodes: seq<Node>, i: int): Node? {
    if 0 <= i < |nodes| then nodes[i] else null
  }

  ghost predicate Distinct(nodes: seq<Node>) {
    forall i, j :: 0 <= i < j < |nodes| ==> nodes[i] != nodes[j]
  }

  ghost predicate LinkedAt(nodes: seq<Node>, i: nat)
    requires i < |nodes|
    reads nodes[i]
  {
    nodes[i].next == NodeAt(nodes, i + 1) && nodes[i].prev == NodeAt(nodes, i - 1)
  }

  class InstructionList {
    var first: Node?
    var last: Node?
    ghost var nodes: seq<Node>

    ghost predicate Valid()
      reads this, nodes
    {
      && Distinct(nodes)
      && first == NodeAt(nodes, 0) && last == NodeAt(nodes, |nodes| - 1)
      && forall i :: 0 <= i < |nodes| ==> LinkedAt(nodes, i)
    }

    // The instructions in order.
    ghost function Code(): (r: seq<Ins>)
      reads this, nodes
      ensures |r| == |nodes| && forall i :: 0 <= i < |nodes| ==> r[i] == nodes[i].ins
    {
      seq(|nodes|, i requires 0 <= i < |nodes| reads this, nodes => nodes[i].ins)
    }

    constructor ()
      ensures Valid() && Code() == []
    {
      first, last, nodes := null, null, [];
    }

    /** Add an instruction at the end. */
    method AddInstruction(ins: Ins)
      requires Valid()
      modifies this, nodes
      ensures Valid() && Code() == old(Code()) + [ins]
    {
      var instr := new Node(ins);
      if first == null {
        first, last := instr, instr;
      } else {
        last.next := instr;
        instr.prev := last;
        last := instr;
      }
      ghost var was := nodes;
      nodes := nodes + [instr];
      forall j | 0 <= j < |nodes|
        ensures LinkedAt(nodes, j)
      {
        assert j < |was| ==> nodes[j] == was[j] && old(LinkedAt(was, j));
      }
    }

    // Take a node out of the links of its neighbours.
    method Unlink(instr: Node, ghost i: nat)
      requires Valid() && i < |nodes| && nodes[i] == instr
      modifies this`first, this`last, nodes
      ensures first == (if i == 0 then NodeAt(nodes, 1) else old(first))
      ensures last == (if i == |nodes| - 1 then NodeAt(nodes, i - 1) else old(last))
      ensures forall k :: 0 <= k < |nodes| ==> nodes[k].ins == old(nodes[k].ins)
      ensures forall k :: 0 <= k < |nodes| && k != i ==>
        nodes[k].next == if k == i - 1 then NodeAt(nodes, i + 1) else old(nodes[k].next)
      ensures forall k :: 0 <= k < |nodes| && k != i ==>
        nodes[k].prev == if k == i + 1 then NodeAt(nodes, i - 1) else old(nodes[k].prev)
      ensures instr.next == null && instr.prev == null
    {
      assert LinkedAt(nodes, i);
      if instr == first {
        first := first.next;
      }
      if instr == last {
        last := last.prev;
      }
      if instr.prev != null {
        instr.prev.next := instr.next;
      }
      if instr.next != null {
        instr.next.prev := instr.prev;
      }
      instr.next := null;
      instr.prev := null;
    }

    /** Unlink an instruction. */
    method RemoveInstruction(instr: Node, ghost i: nat)
      requires Valid() && i < |nodes| && nodes[i] == instr
      modifies this, nodes
      ensures Valid() && nodes == old(nodes)[..i] + old(nodes)[i + 1..]
      ensures Code() == old(Code())[..i] + old(Code())[i + 1..]
      ensures instr.next == null && instr.prev == null && instr.ins == old(instr.ins)
    {
      ghost var was := nodes;
      Unlink(instr, i);
      nodes := nodes[..i] + nodes[i + 1..];
      forall j | 0 <= j < |nodes|
        ensures LinkedAt(nodes, j)
      {
        var k := if j < i then j else j + 1;
        assert nodes[j] == was[k] && old(LinkedAt(was, k));
      }
    }

    /** Delete an instruction; the result is its predecessor or else its successor. */
    method DeleteInstruction(instr: Node, ghost i: nat) returns (ret: Node?)
      requires Valid() && i < |nodes| && nodes[i] == instr
      modifies this, nodes
      ensures Valid() && Code() == old(Code())[..i] + old(Code())[i + 1..]
      ensures ret == NodeAt(nodes, if i > 0 then i - 1 else 0)
    {
      assert LinkedAt(nodes, i);
      ret := if instr.prev != null then instr.prev else instr.next;
      RemoveInstruction(instr, i);
    }

    /** Two instructions back, or as far as the list goes. */
    method GoBack(instr: Node, ghost i: nat) returns (r: Node)
      requires Valid() && i < |nodes| && nodes[i] == instr
      ensures r == nodes[if i >= 2 then i - 2 else 0]
    {
      assert LinkedAt(nodes, i) && (i > 0 ==> LinkedAt(nodes, i - 1));
      r := instr;
      if r.prev != null {
        r := r.prev;
      }
      if r.prev != null {
        r := r.prev;
      }
    }

    /** Two instructions forward, or as far as the list goes. */
    method GoForward(instr: Node, ghost i: nat) returns (r: Node)
      requires Valid() && i < |nodes| && nodes[i] == instr
      ensures r == nodes[if i + 2 < |nodes| then i + 2 else |nodes| - 1]
    {
      assert LinkedAt(nodes, i) && (i + 1 < |nodes| ==> LinkedAt(nodes, i + 1));
      r := instr;
      if r.next != null {
        r := r.next;
      }
      if r.next != null {
        r := r.next;
      }
    }

    /** Link an instruction in front of another. */
    method InsertBefore(before: Node, instr: Node, ghost i: nat)
      requires Valid() && i < |nodes| && nodes[i] == before && instr !in nodes
      requires instr.next == null && instr.prev == null
      modifies this, nodes, instr
      ensures Valid() && nodes == old(nodes)[..i] + [instr] + old(nodes)[i..]
      ensures Code() == old(Code())[..i] + [old(instr.ins)] + old(Code())[i..]
    {
      assert LinkedAt(nodes, i);
      ghost var was := nodes;
      if before.prev != null {
        before.prev.next := instr;
      }
      instr.prev := before.prev;
      before.prev := instr;
      instr.next := before;
      if first == before {
        first := instr;
      }
      nodes := nodes[..i] + [instr] + nodes[i..];
      forall j | 0 <= j < |nodes|
        ensures LinkedAt(nodes, j)
      {
        var k := if j < i then j else j - 1;
        assert j != i ==> nodes[j] == was[k] && old(LinkedAt(was, k));
      }
    }

    /** Follow the links to the label a jump leads to, forward first and then back. */
    method FindLabel(lab: int, from: Node, ghost i: nat) returns (dest: Node?, ghost at: int)
      requires Valid() && i < |nodes| && nodes[i] == from
      ensures at == Target(Code(), i, lab) && dest == NodeAt(nodes, at)
    {
      ghost var code := Code();
      ghost var k := i;
      dest, at := from, -1;
      while dest != null
        invariant i <= k <= |nodes| && dest == NodeAt(nodes, k)
        invariant forall j :: i < j <= k && j < |nodes| ==> !IsLabel(code[j], lab)
        decreases |nodes| - k
      {
        assert LinkedAt(nodes, k);
        dest, k := dest.next, k + 1;
        if dest != null && IsLabel(dest.ins, lab) {
          at := k;
          return;
        }
      }
      ghost var b: int := i;
      dest := from;
      while dest != null
        invariant -1 <= b <= i && dest == NodeAt(nodes, b)
        invariant forall j :: b <= j < i && 0 <= j ==> !IsLabel(code[j], lab)
        decreases b + 1
      {
        assert LinkedAt(nodes, b);
        dest, b := dest.prev, b - 1;
        if dest != null && IsLabel(dest.ins, lab) {
          at := b;
          return;
        }
      }
    }
  }
}
