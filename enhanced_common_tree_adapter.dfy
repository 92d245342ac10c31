/** The node factory the parser uses: every node it makes is an enriched node. */
module EnhancedCommonTreeAdapters {
  import opened Tokens
  import opened EnhancedCommonTrees

  /** A fresh plain node carrying `payload`, with nothing attached. */
  method Create(payload: Token) returns (n: EnhancedCommonTree)
    ensures fresh(n)
    ensures n.token == payload && n.kind == Plain && n.line == payload.line
    ensures n.GetPrecedingComments() == [] && n.GetFollowingComments() == [] && n.lastLine == -1
    ensures n.children == NoChildren && n.startIndex == -1 && n.stopIndex == -1
  {
    n := new EnhancedCommonTree(payload);
  }

  /** A fresh node of the error variant for the region `start`..`stop`; the
      token stream and the recognition error are only held by the error
      representation, which is not part of this model. */
  method ErrorNode(start: Token, stop: Token, errorLine: int) returns (n: EnhancedCommonTree)
    ensures fresh(n)
    ensures n.kind == Error(start, stop) && n.token == start && n.line == errorLine
    ensures n.GetPrecedingComments() == [] && n.GetFollowingComments() == [] && n.lastLine == -1
    ensures n.children == NoChildren && n.startIndex == -1 && n.stopIndex == -1
  {
    n := new EnhancedCommonTree.ErrorTree(start, stop, errorLine);
  }

  /** Null for null; otherwise a fresh plain node with the same token. Comments,
      children and the cached last line of `t` are not copied. */
  method DupNode(t: EnhancedCommonTree?) returns (r: EnhancedCommonTree?)
    ensures t == null <==> r == null
    ensures t != null ==> fresh(r) && r.token == t.token && r.kind == Plain
    ensures t != null ==> r.GetPrecedingComments() == [] && r.GetFollowingComments() == []
    ensures t != null ==> r.lastLine == -1 && r.children == NoChildren
    ensures t != null ==> r.startIndex == -1 && r.stopIndex == -1 && r.line == t.token.line
  {
    if t == null {
      return null;
    }
    r := Create(t.token);
  }
}
