/** Answers the OpenFGA server splits into pages. How it splits them is left open. */
module Paging {
  datatype Response<E> = Response(entries: seq<E>, continuationToken: string)

  /** A complete answer split into pages, page i being addressed by token i. The empty token asks
      for the first page and marks the last. */
  datatype Listing<E> = Listing(pages: seq<seq<E>>, tokens: seq<string>) {
    ghost predicate Valid() {
      && |pages| == |tokens| >= 1
      && tokens[0] == ""
      && (forall i, j :: 0 <= i < j < |tokens| ==> tokens[i] != tokens[j])
    }

    function Reply(i: nat): Response<E>
      requires i < |pages|
    {
      Response(pages[i], if i + 1 < |tokens| then tokens[i + 1] else "")
    }

    /** The page a token addresses, if any. */
    method Find(token: string) returns (i: nat)
      requires Valid()
      ensures i < |pages| ==> tokens[i] == token
      ensures i >= |pages| ==> token !in tokens
    {
      i := 0;
      while i < |pages| && tokens[i] != token
        invariant 0 <= i <= |pages|
        invariant token !in tokens[..i]
      {
        i := i + 1;
      }
      assert tokens[..|pages|] == tokens;
    }
  }

  /** All entries, in page order. */
  function Flatten<E>(pages: seq<seq<E>>): seq<E> {
    if pages == [] then [] else Flatten(pages[..|pages| - 1]) + pages[|pages| - 1]
  }

  lemma FlattenSnoc<E>(pages: seq<seq<E>>, i: nat)
    requires i < |pages|
    ensures Flatten(pages[..i + 1]) == Flatten(pages[..i]) + pages[i]
  {
    assert pages[..i + 1][..i] == pages[..i];
  }
}
