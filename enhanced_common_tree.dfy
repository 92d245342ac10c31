/** Syntax tree nodes enriched with attached comment tokens and a memoised
    last line. */
module EnhancedCommonTrees {
  import opened Tokens

  /** A plain node, or the error-tolerant variant built for a syntactically
      invalid region from `start` to `stop`. */
  datatype NodeKind = Plain | Error(start: Token, stop: Token)

  /** The parser library's child list: absent (null) until a first child is
      added, which is not the same as present and empty. */
  datatype Children = NoChildren | ChildList(kids: seq<EnhancedCommonTree>)

  class EnhancedCommonTree {
    const token: Token
    const kind: NodeKind
    /** The node's `getLine()`, which the parser library computes. */
    const line: int
    /** The parser library's own fields, set while the tree is built. */
    var children: Children
    var startIndex: int
    var stopIndex: int

    var preceding: seq<Token>
    var following: seq<Token>
    var lastLine: int

    /** A plain node carrying `t`: no children, unset token indices, no
        comments, last line not yet known. */
    constructor (t: Token)
      ensures token == t && kind == Plain && line == t.line
      ensures children == NoChildren && startIndex == -1 && stopIndex == -1
      ensures preceding == [] && following == [] && lastLine == -1
    {
      token := t;
      kind := Plain;
      line := t.line;
      children := NoChildren;
      startIndex, stopIndex := -1, -1;
      preceding, following := [], [];
      lastLine := -1;
    }

    /** The error variant: it carries `start` as its own token, and its
        `getLine()` is whatever the wrapped error representation reports. */
    constructor ErrorTree(start: Token, stop: Token, errorLine: int)
      ensures token == start && kind == Error(start, stop) && line == errorLine
      ensures children == NoChildren && startIndex == -1 && stopIndex == -1
      ensures preceding == [] && following == [] && lastLine == -1
    {
      token := start;
      kind := Error(start, stop);
      line := errorLine;
      children := NoChildren;
      startIndex, stopIndex := -1, -1;
      preceding, following := [], [];
      lastLine := -1;
    }

    /** The value `GetLastLine` answers in the current state. */
    ghost function LastLineAnswer(): int
      reads this
    {
      if lastLine >= 0 then lastLine
      else match children
        case NoChildren => if startIndex < 0 || stopIndex < 0 then token.line else lastLine
        case ChildList(kids) => if |kids| > 0 then kids[|kids| - 1].line else lastLine
    }

    /** The memoised last line. A cached value is returned as is. A leaf with
        an unset token index caches its token's line; a leaf with both indices
        set answers the unset value. With children, the last child's
        `getLine()` is cached (the child's own last line is not consulted);
        with an empty child list nothing is cached. */
    method GetLastLine() returns (r: int)
      modifies this`lastLine
      ensures old(lastLine) >= 0 ==> r == old(lastLine) && lastLine == old(lastLine)
      ensures old(lastLine) < 0 && children == NoChildren && (startIndex < 0 || stopIndex < 0) ==>
                r == token.line && lastLine == token.line
      ensures old(lastLine) < 0 && children == NoChildren && startIndex >= 0 && stopIndex >= 0 ==>
                r == old(lastLine) && lastLine == old(lastLine)
      ensures old(lastLine) < 0 && children.ChildList? && |children.kids| > 0 ==>
                r == children.kids[|children.kids| - 1].line && lastLine == r
      ensures old(lastLine) < 0 && children == ChildList([]) ==> r == old(lastLine) && lastLine == old(lastLine)
      ensures LastLineAnswer() == r
    {
      if lastLine >= 0 {
        return lastLine;
      }
      match children {
        case NoChildren =>
          if startIndex < 0 || stopIndex < 0 {
            lastLine := token.line;
          }
          return lastLine;
        case ChildList(kids) =>
          if |kids| > 0 {
            var lastChild := kids[|kids| - 1];
            lastLine := lastChild.line;
          }
          return lastLine;
      }
    }

    /** Appends `tokens`, in order, to the preceding comments. */
    method AddPreceding(tokens: seq<Token>)
      modifies this`preceding
      ensures GetPrecedingComments() == old(GetPrecedingComments()) + tokens
      ensures GetFollowingComments() == old(GetFollowingComments())
    {
      preceding := preceding + tokens;
    }

    /** The attached list itself, everything added so far. */
    function GetPrecedingComments(): (r: seq<Token>)
      reads this
      ensures r == preceding
    {
      preceding
    }

    /** Appends `tokens`, in order, to the following comments. */
    method AddFollowing(tokens: seq<Token>)
      modifies this`following
      ensures GetFollowingComments() == old(GetFollowingComments()) + tokens
      ensures GetPrecedingComments() == old(GetPrecedingComments())
    {
      following := following + tokens;
    }

    /** The attached list itself, everything added so far. */
    function GetFollowingComments(): (r: seq<Token>)
      reads this
      ensures r == following
    {
      following
    }
  }

  /** Asking twice gives the same answer, whether or not the first call cached. */
  method LastLineIsIdempotent(node: EnhancedCommonTree) returns (first: int, second: int)
    modifies node`lastLine
    ensures first == second
  {
    first := node.GetLastLine();
    second := node.GetLastLine();
  }
}
