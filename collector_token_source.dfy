/** A transparent filter over a token stream that logs every token whose type
    is in a fixed set (the hidden-channel comment types). */
module CollectorTokenSources {
  import opened Tokens

  /** The in-order filter, by type membership, of `tokens`. */
  function Collected(tokens: seq<Token>, types: set<int>): seq<Token>
  {
    if tokens == [] then []
    else
      var last := tokens[|tokens| - 1];
      Collected(tokens[..|tokens| - 1], types) + (if last.tokenType in types then [last] else [])
  }

  /** A token is logged exactly when it was pulled and its type is collected. */
  lemma {:induction false} CollectedMembership(tokens: seq<Token>, types: set<int>, t: Token)
    ensures t in Collected(tokens, types) <==> t in tokens && t.tokenType in types
  {
    if tokens != [] {
      var init := tokens[..|tokens| - 1];
      assert tokens == init + [tokens[|tokens| - 1]];
      CollectedMembership(init, types, t);
    }
  }

  /** Filtering distributes over concatenation: later pulls only ever add at
      the end of the log. */
  lemma {:induction false} CollectedAppend(a: seq<Token>, b: seq<Token>, types: set<int>)
    ensures Collected(a + b, types) == Collected(a, types) + Collected(b, types)
  {
    if b == [] {
      assert a + b == a;
    } else {
      var init := b[..|b| - 1];
      assert (a + b)[..|a + b| - 1] == a + init;
      CollectedAppend(a, init, types);
    }
  }

  /** The log of a prefix of the pulls is a prefix of the log. */
  lemma CollectedMonotone(a: seq<Token>, b: seq<Token>, types: set<int>)
    requires a <= b
    ensures Collected(a, types) <= Collected(b, types)
  {
    assert b == a + b[|a|..];
    CollectedAppend(a, b[|a|..], types);
  }

  class CollectorTokenSource {
    const source: TokenSource
    const collectTokenTypes: set<int>
    var collectedTokens: seq<Token>
    /** Every token pulled from `source` through this collector, in order. */
    ghost var pulled: seq<Token>

    ghost predicate Valid()
      reads this
    {
      collectedTokens == Collected(pulled, collectTokenTypes)
    }

    /** Copies the given token types; the log starts empty. */
    constructor (source: TokenSource, collectTokenTypes: seq<int>)
      ensures Valid()
      ensures this.source == source && collectedTokens == [] && pulled == []
      ensures forall ty :: ty in this.collectTokenTypes <==> ty in collectTokenTypes
    {
      this.source := source;
      this.collectTokenTypes := set ty | ty in collectTokenTypes;
      collectedTokens := [];
      pulled := [];
    }

    /** Pulls one token from upstream and returns it unchanged, logging it
        when its type is collected. */
    method NextToken() returns (t: Token)
      requires Valid()
      modifies this`collectedTokens, this`pulled, source`position
      ensures Valid()
      ensures t == source.lexed(old(source.position)) && source.position == old(source.position) + 1
      ensures pulled == old(pulled) + [t]
      ensures collectedTokens == old(collectedTokens) + (if ShouldCollect(t) then [t] else [])
    {
      t := source.NextToken();
      if ShouldCollect(t) {
        collectedTokens := collectedTokens + [t];
      }
      pulled := pulled + [t];
    }

    /** Whether the log takes `t`: exactly when filtering `t` alone keeps it. */
    predicate ShouldCollect(t: Token)
      ensures ShouldCollect(t) ==> Collected([t], collectTokenTypes) == [t]
      ensures !ShouldCollect(t) ==> Collected([t], collectTokenTypes) == []
    {
      t.tokenType in collectTokenTypes
    }

    function GetCollectedTokens(): (r: seq<Token>)
      reads this
      requires Valid()
      ensures r == Collected(pulled, collectTokenTypes)
    {
      collectedTokens
    }

    function GetSourceName(): (r: string)
      ensures r == "Collect hidden channel " + source.sourceName
    {
      "Collect hidden channel " + source.sourceName
    }
  }
}
