/**
  Document nodes as Sizzle sees them: links that its passes only follow, and the
  scratch properties it writes on nodes as it goes.  A node is made after its parent
  and its earlier siblings; the links that lead forward are set later.
*/
module Dom {
  datatype Dir = ParentNode | PreviousSibling

  const ELEMENT := 1
  const DOCUMENT := 9

  class Node {
    const parentNode: Node?
    const previousSibling: Node?
    var nextSibling: Node?
    var firstChild: Node?
    const nodeType: nat
    const nodeName: string   // in lower case
    const sourceIndex: nat   // document position where the browser has it, else 0
    var sizcache: nat        // the pass that last marked the node, 0 for none
    var sizset: nat          // the entry whose walk marked it
    var nodeIndex: nat       // 1, 2, ... among element siblings, 0 if unset

    constructor (parent: Node?, previous: Node?, nodeType: nat, nodeName: string, sourceIndex: nat)
      ensures parentNode == parent && previousSibling == previous && nextSibling == null && firstChild == null
      ensures this.nodeType == nodeType && this.nodeName == nodeName && this.sourceIndex == sourceIndex
      ensures sizcache == 0 && sizset == 0 && nodeIndex == 0
    {
      parentNode, previousSibling, nextSibling, firstChild := parent, previous, null, null;
      this.nodeType, this.nodeName, this.sourceIndex := nodeType, nodeName, sourceIndex;
      sizcache, sizset, nodeIndex := 0, 0, 0;
    }

    predicate IsElement() { nodeType == ELEMENT }

    function Along(dir: Dir): Node? {
      match dir case ParentNode => parentNode case PreviousSibling => previousSibling
    }
  }

  // How far a walk from x can still go.
  ghost function Left(rank: map<Node, nat>, x: Node?): nat {
    if x != null && x in rank then rank[x] + 1 else 0
  }

  // Some nodes, closed under a direction in which no walk goes on for ever.
  ghost predicate Walkable(nodes: set<Node>, rank: map<Node, nat>, dir: Dir) {
    forall x :: x in nodes ==>
      (x.Along(dir) == null || x.Along(dir) in nodes) && Left(rank, x.Along(dir)) < Left(rank, x)
  }
}
