/** The walk along issuer signatures from a leaf certificate to a trust anchor, in its two
    implementations. A certificate is a value whose equality is equality of its DER bytes;
    `issued(c, d)` says that `c.verify_directly_issued_by(d)` does not raise. */
module ChainWalk {
  import opened Prelude

  ghost predicate Hits<C(!new)>(c: C, trusted: seq<C>, issued: (C, C) -> bool) {
    c in trusted || exists k :: 0 <= k < |trusted| && issued(c, trusted[k])
  }

  /** The first supplied certificate that issued `c`. */
  function FirstIssuer<C(==)>(c: C, supplied: seq<C>, issued: (C, C) -> bool): (r: Option<C>)
    ensures r.Some? ==> r.value in supplied && issued(c, r.value)
    ensures r.None? ==> forall k :: 0 <= k < |supplied| ==> !issued(c, supplied[k])
  {
    if supplied == [] then None
    else if issued(c, supplied[0]) then Some(supplied[0])
    else FirstIssuer(c, supplied[1..], issued)
  }

  /** `list.remove` */
  function RemoveFirst<C(==)>(s: seq<C>, x: C): (r: seq<C>)
    requires x in s
    ensures |r| == |s| - 1
    ensures multiset(s) == multiset(r) + multiset{x}
  {
    assert s == [s[0]] + s[1..];
    if s[0] == x then s[1..] else [s[0]] + RemoveFirst(s[1..], x)
  }

  /** The greedy walk: stop at an anchor, else go on to the first issuer not used yet. */
  ghost predicate Walk<C(!new)>(c: C, remaining: seq<C>, trusted: seq<C>, issued: (C, C) -> bool)
    decreases |remaining|
  {
    Hits(c, trusted, issued)
    || (var next := FirstIssuer(c, remaining, issued);
        next.Some? && Walk(next.value, RemoveFirst(remaining, next.value), trusted, issued))
  }

  // ---------------------------------------------------------------- what the answer means

  /** Issuance links lead from `path[0]` through supplied certificates to, or onto, an anchor. */
  ghost predicate LeadsToAnchor<C(!new)>(path: seq<C>, supplied: seq<C>, trusted: seq<C>, issued: (C, C) -> bool) {
    && path != []
    && (forall j :: 0 < j < |path| ==> path[j] in supplied)
    && (forall j :: 0 <= j && j + 1 < |path| ==> issued(path[j], path[j + 1]))
    && (path[|path| - 1] in trusted || exists k :: 0 <= k < |trusted| && issued(path[|path| - 1], trusted[k]))
  }

  lemma {:induction false} WalkIsSound<C(!new)>(c: C, remaining: seq<C>, trusted: seq<C>, issued: (C, C) -> bool)
    returns (path: seq<C>)
    requires Walk(c, remaining, trusted, issued)
    ensures LeadsToAnchor(path, remaining, trusted, issued) && path[0] == c
    decreases |remaining|
  {
    if Hits(c, trusted, issued) {
      path := [c];
    } else {
      var next := FirstIssuer(c, remaining, issued).value;
      var rest := RemoveFirst(remaining, next);
      var tail := WalkIsSound(next, rest, trusted, issued);
      path := [c] + tail;
      forall j | 0 < j < |path| ensures path[j] in remaining {
        if j > 1 {
          assert tail[j - 1] in multiset(rest);
          assert tail[j - 1] in multiset(remaining);
        }
      }
      forall j | 0 <= j && j + 1 < |path| ensures issued(path[j], path[j + 1]) {
        if j > 0 {
          assert issued(tail[j - 1], tail[j]);
        }
      }
    }
  }

  /** Each of `certs` has at most one distinct issuer among those supplied. */
  ghost predicate OneIssuer<C(!new)>(certs: seq<C>, supplied: seq<C>, issued: (C, C) -> bool) {
    forall c, a, b :: c in certs && a in supplied && b in supplied && issued(c, a) && issued(c, b)
      ==> a == b
  }

  /** Cutting a path at a repeated certificate. */
  lemma {:induction false} WithoutRepeats<C(!new)>(path: seq<C>, supplied: seq<C>, trusted: seq<C>, issued: (C, C) -> bool)
    returns (p: seq<C>)
    requires LeadsToAnchor(path, supplied, trusted, issued)
    ensures LeadsToAnchor(p, supplied, trusted, issued) && p[0] == path[0] && NoDup(p)
    decreases |path|
  {
    if NoDup(path) {
      p := path;
    } else {
      var i, j :| 0 <= i < j < |path| && path[i] == path[j];
      var shorter := path[..i] + path[j..];
      forall k | 0 < k < |shorter| ensures shorter[k] in supplied {
        if k >= i {
          assert shorter[k] == path[j + (k - i)];
        }
      }
      forall k | 0 <= k && k + 1 < |shorter| ensures issued(shorter[k], shorter[k + 1]) {
        if k + 1 < i {
          assert shorter[k] == path[k] && shorter[k + 1] == path[k + 1];
        } else if k + 1 == i {
          assert shorter[k] == path[k] && shorter[k + 1] == path[j] == path[k + 1];
        } else {
          assert shorter[k] == path[j + (k - i)] && shorter[k + 1] == path[j + (k - i) + 1];
        }
      }
      p := WithoutRepeats(shorter, supplied, trusted, issued);
    }
  }

  // ---------------------------------------------------------------- when the answer is complete

  ghost predicate Linked<C(!new)>(path: seq<C>, issued: (C, C) -> bool) {
    path != [] && forall j :: 0 <= j && j + 1 < |path| ==> issued(path[j], path[j + 1])
  }

  /** Issuance links from `path[0]` through different places of the supplied list, none of them
      at an anchor, to a certificate that nothing left in the list has issued. */
  ghost predicate DeadEnd<C(!new)>(path: seq<C>, supplied: seq<C>, trusted: seq<C>, issued: (C, C) -> bool) {
    && Linked(path, issued)
    && multiset(path[1..]) <= multiset(supplied)
    && (forall c :: c in path ==> c !in trusted && forall k :: 0 <= k < |trusted| ==> !issued(c, trusted[k]))
    && (forall x :: x in multiset(supplied) - multiset(path[1..]) ==> !issued(path[|path| - 1], x))
  }

  /** A walk that answers False has walked into a dead end. */
  lemma {:induction false} StuckWalk<C(!new)>(c: C, remaining: seq<C>, trusted: seq<C>, issued: (C, C) -> bool)
    returns (path: seq<C>)
    requires !Walk(c, remaining, trusted, issued)
    ensures DeadEnd(path, remaining, trusted, issued) && path[0] == c
    decreases |remaining|
  {
    var next := FirstIssuer(c, remaining, issued);
    if next.None? {
      path := [c];
      assert multiset(path[1..]) == multiset{};
    } else {
      var rest := RemoveFirst(remaining, next.value);
      var tail := StuckWalk(next.value, rest, trusted, issued);
      path := [c] + tail;
      hide DeadEnd, Walk;
      OneLinkMore(c, tail, rest, remaining, trusted, issued);
    }
  }

  lemma OneLinkMore<C(!new)>(c: C, tail: seq<C>, rest: seq<C>, remaining: seq<C>, trusted: seq<C>, issued: (C, C) -> bool)
    requires DeadEnd(tail, rest, trusted, issued) && issued(c, tail[0]) && !Hits(c, trusted, issued)
    requires multiset(remaining) == multiset(rest) + multiset{tail[0]}
    ensures DeadEnd([c] + tail, remaining, trusted, issued)
  {
    var path := [c] + tail;
    assert path[1..] == tail == [tail[0]] + tail[1..];
    assert multiset(tail) == multiset{tail[0]} + multiset(tail[1..]);
    assert multiset(remaining) - multiset(tail) == multiset(rest) - multiset(tail[1..]);
    forall x | x in path ensures x !in trusted && forall k :: 0 <= k < |trusted| ==> !issued(x, trusted[k]) {
      assert x == c || x in tail;
    }
  }

  /** The walk takes the certificates listed first, if each issued the one before it. */
  lemma NextOnPath<C(!new)>(path: seq<C>, rest: seq<C>, issued: (C, C) -> bool)
    requires Linked(path, issued) && |path| > 1
    ensures Linked(path[1..], issued)
    ensures FirstIssuer(path[0], path[1..] + rest, issued) == Some(path[1])
    ensures path[1] in path[1..] + rest && RemoveFirst(path[1..] + rest, path[1]) == path[1..][1..] + rest
  {
    var list := path[1..] + rest;
    assert list[0] == path[1] && list[1..] == path[1..][1..] + rest;
  }

  lemma {:induction false} DeadEndFirst<C(!new)>(path: seq<C>, rest: seq<C>, trusted: seq<C>, issued: (C, C) -> bool)
    requires Linked(path, issued) && forall c :: c in path ==> !Hits(c, trusted, issued)
    requires forall x :: x in rest ==> !issued(path[|path| - 1], x)
    ensures !Walk(path[0], path[1..] + rest, trusted, issued)
    decreases |path|
  {
    if |path| == 1 {
      assert path[1..] + rest == rest;
    } else {
      NextOnPath(path, rest, issued);
      DeadEndFirst(path[1..], rest, trusted, issued);
    }
  }

  lemma {:induction false} PathFirst<C(!new)>(path: seq<C>, rest: seq<C>, trusted: seq<C>, issued: (C, C) -> bool)
    requires Linked(path, issued) && Hits(path[|path| - 1], trusted, issued)
    ensures Walk(path[0], path[1..] + rest, trusted, issued)
    decreases |path|
  {
    if |path| > 1 {
      NextOnPath(path, rest, issued);
      PathFirst(path[1..], rest, trusted, issued);
    }
  }

  lemma {:induction false} Leftover<C(!new)>(part: seq<C>, whole: seq<C>) returns (rest: seq<C>)
    requires multiset(part) <= multiset(whole)
    ensures multiset(part) + multiset(rest) == multiset(whole)
    decreases |part|
  {
    if part == [] {
      rest := whole;
    } else {
      SplitBag(part);
      assert part[0] in multiset(part) && part[0] in multiset(whole);
      var others := RemoveFirst(whole, part[0]);
      TakeOne(multiset(part), multiset(whole), multiset(part[1..]), multiset(others), part[0]);
      rest := Leftover(part[1..], others);
    }
  }

  lemma SplitBag<C(!new)>(s: seq<C>)
    requires s != []
    ensures multiset(s) == multiset(s[1..]) + multiset{s[0]}
  {
    assert s == [s[0]] + s[1..];
  }

  lemma TakeOne<C(!new)>(p: multiset<C>, w: multiset<C>, q: multiset<C>, v: multiset<C>, x: C)
    requires p <= w && p == q + multiset{x} && w == v + multiset{x}
    ensures q <= v
  {
    forall y ensures q[y] <= v[y] {
      assert p[y] <= w[y];
    }
  }

  ghost predicate Order<C(!new)>(order: seq<C>, supplied: seq<C>) {
    multiset(order) == multiset(supplied)
  }

  ghost predicate HasDeadEnd<C(!new)>(leaf: C, supplied: seq<C>, trusted: seq<C>, issued: (C, C) -> bool) {
    exists path :: DeadEnd(path, supplied, trusted, issued) && path[0] == leaf
  }

  ghost predicate HasPath<C(!new)>(leaf: C, supplied: seq<C>, trusted: seq<C>, issued: (C, C) -> bool) {
    exists path :: LeadsToAnchor(path, supplied, trusted, issued) && path[0] == leaf
  }

  /** The exact condition: the walk answers True in whatever order the certificates are
      supplied, if and only if there is no dead end. */
  lemma EveryOrderIffNoDeadEnd<C(!new)>(leaf: C, supplied: seq<C>, trusted: seq<C>, issued: (C, C) -> bool)
    ensures (forall order :: Order(order, supplied) ==> Walk(leaf, order, trusted, issued))
      <==> !HasDeadEnd(leaf, supplied, trusted, issued)
  {
    forall order | Order(order, supplied) && !Walk(leaf, order, trusted, issued)
      ensures HasDeadEnd(leaf, supplied, trusted, issued)
    {
      var path := StuckWalk(leaf, order, trusted, issued);
      assert DeadEnd(path, supplied, trusted, issued);
    }
    if HasDeadEnd(leaf, supplied, trusted, issued) {
      var path :| DeadEnd(path, supplied, trusted, issued) && path[0] == leaf;
      var order := MisleadingOrder(path, supplied, trusted, issued);
      assert Order(order, supplied) && !Walk(leaf, order, trusted, issued);
    }
  }

  /** The order that lists the dead end first. */
  lemma MisleadingOrder<C(!new)>(path: seq<C>, supplied: seq<C>, trusted: seq<C>, issued: (C, C) -> bool)
    returns (order: seq<C>)
    requires DeadEnd(path, supplied, trusted, issued)
    ensures Order(order, supplied) && !Walk(path[0], order, trusted, issued)
  {
    var rest := Leftover(path[1..], supplied);
    order := path[1..] + rest;
    assert multiset(rest) == multiset(supplied) - multiset(path[1..]);
    forall x | x in rest ensures !issued(path[|path| - 1], x) {
      assert x in multiset(rest);
    }
    DeadEndFirst(path, rest, trusted, issued);
    hide Walk;
  }

  lemma {:induction false} NoDupIsPart<C(!new)>(part: seq<C>, whole: seq<C>)
    requires NoDup(part) && forall x :: x in part ==> x in whole
    ensures multiset(part) <= multiset(whole)
    decreases |part|
  {
    if part != [] {
      var rest := part[1..];
      assert part == [part[0]] + rest;
      forall j | 0 <= j < |rest| ensures rest[j] == part[j + 1] != part[0] {
      }
      assert NoDup(rest) && part[0] !in rest && part[0] in whole;
      NoDupIsPart(rest, whole);
    }
  }

  /** And for some order it answers True if and only if there is a path at all. */
  lemma SomeOrderIffPath<C(!new)>(leaf: C, supplied: seq<C>, trusted: seq<C>, issued: (C, C) -> bool)
    ensures (exists order :: Order(order, supplied) && Walk(leaf, order, trusted, issued))
      <==> HasPath(leaf, supplied, trusted, issued)
  {
    forall order | Order(order, supplied) && Walk(leaf, order, trusted, issued)
      ensures HasPath(leaf, supplied, trusted, issued)
    {
      var path := WalkIsSound(leaf, order, trusted, issued);
      forall j | 0 < j < |path| ensures path[j] in supplied {
        assert path[j] in multiset(order) && path[j] in multiset(supplied);
      }
      assert LeadsToAnchor(path, supplied, trusted, issued);
    }
    if HasPath(leaf, supplied, trusted, issued) {
      var path :| LeadsToAnchor(path, supplied, trusted, issued) && path[0] == leaf;
      var p := WithoutRepeats(path, supplied, trusted, issued);
      assert forall j :: 0 <= j < |p[1..]| ==> p[1..][j] == p[j + 1];
      NoDupIsPart(p[1..], supplied);
      var rest := Leftover(p[1..], supplied);
      PathFirst(p, rest, trusted, issued);
      assert Order(p[1..] + rest, supplied) && Walk(leaf, p[1..] + rest, trusted, issued);
    }
  }

  /** With unique issuers a dead end and a path to an anchor go the same way. */
  lemma {:induction false} SameWay<C(!new)>(dead: seq<C>, path: seq<C>, certs: seq<C>, supplied: seq<C>, trusted: seq<C>, issued: (C, C) -> bool, j: nat)
    requires DeadEnd(dead, supplied, trusted, issued) && LeadsToAnchor(path, supplied, trusted, issued)
    requires OneIssuer(certs, supplied, issued) && dead[0] == path[0] && path[0] in certs
    requires (forall x :: x in supplied ==> x in certs) && j < |dead|
    ensures j < |path| - 1 && dead[j] == path[j]
    decreases j
  {
    if j > 0 {
      SameWay(dead, path, certs, supplied, trusted, issued, j - 1);
      assert dead[1..][j - 1] == dead[j] && dead[j] in multiset(dead[1..]) && dead[j] in multiset(supplied);
      assert issued(dead[j - 1], dead[j]) && issued(path[j - 1], path[j]);
    }
    assert dead[j] in dead;
  }

  lemma BeyondTheDeadEnd<C(!new)>(dead: seq<C>, path: seq<C>, supplied: seq<C>, trusted: seq<C>, issued: (C, C) -> bool)
    requires DeadEnd(dead, supplied, trusted, issued) && LeadsToAnchor(path, supplied, trusted, issued)
    requires OneIssuer([path[0]] + supplied, supplied, issued) && dead[0] == path[0]
    ensures !NoDup(path)
  {
    var n := |dead|;
    forall j | 0 <= j < n ensures j < |path| - 1 && dead[j] == path[j] {
      SameWay(dead, path, [path[0]] + supplied, supplied, trusted, issued, j);
    }
    var x := path[n];
    assert issued(dead[n - 1], x) && x in multiset(supplied);
    assert x !in multiset(supplied) - multiset(dead[1..]);
    assert x in multiset(dead[1..]);
    var k :| 0 <= k < |dead[1..]| && dead[1..][k] == x;
    assert path[k + 1] == x;
  }

  /** The walk answers True only when a path exists, and always when one exists and issuers
      are unique among the supplied certificates: there is no dead end then. */
  lemma WalkMeansPath<C(!new)>(leaf: C, supplied: seq<C>, trusted: seq<C>, issued: (C, C) -> bool)
    ensures Walk(leaf, supplied, trusted, issued) ==> HasPath(leaf, supplied, trusted, issued)
    ensures OneIssuer([leaf] + supplied, supplied, issued) ==>
      (HasPath(leaf, supplied, trusted, issued) <==> Walk(leaf, supplied, trusted, issued))
  {
    if Walk(leaf, supplied, trusted, issued) {
      var path := WalkIsSound(leaf, supplied, trusted, issued);
    }
    if OneIssuer([leaf] + supplied, supplied, issued) {
      forall path | LeadsToAnchor(path, supplied, trusted, issued) && path[0] == leaf
        ensures Walk(leaf, supplied, trusted, issued)
      {
        var p := WithoutRepeats(path, supplied, trusted, issued);
        if HasDeadEnd(leaf, supplied, trusted, issued) {
          var dead :| DeadEnd(dead, supplied, trusted, issued) && dead[0] == leaf;
          BeyondTheDeadEnd(dead, p, supplied, trusted, issued);
        }
        EveryOrderIffNoDeadEnd(leaf, supplied, trusted, issued);
        assert Order(supplied, supplied);
      }
    }
  }

  /** A leaf that is itself trusted needs no issuer: the path onto it has no link. */
  lemma PinnedLeafIsAnchored<C(!new)>(leaf: C, supplied: seq<C>, trusted: seq<C>, issued: (C, C) -> bool)
    requires leaf in trusted
    ensures Walk(leaf, supplied, trusted, issued)
    ensures LeadsToAnchor([leaf], supplied, trusted, issued)
    ensures !HasDeadEnd(leaf, supplied, trusted, issued)
  {
    forall path | DeadEnd(path, supplied, trusted, issued) ensures path[0] !in trusted {
      assert path[0] in path;
    }
  }

  /** What the loops' answer is worth. */
  lemma AnchoredMeans<C(!new)>(leaf: C, supplied: seq<C>, trusted: seq<C>, issued: (C, C) -> bool)
    ensures leaf in trusted ==> Walk(leaf, supplied, trusted, issued)
    ensures Walk(leaf, supplied, trusted, issued) ==> HasPath(leaf, supplied, trusted, issued)
    ensures OneIssuer([leaf] + supplied, supplied, issued) && HasPath(leaf, supplied, trusted, issued)
      ==> Walk(leaf, supplied, trusted, issued)
  {
    WalkMeansPath(leaf, supplied, trusted, issued);
    if leaf in trusted {
      PinnedLeafIsAnchored(leaf, supplied, trusted, issued);
    }
  }

  /** Without unique issuers the greedy walk can miss a path: certificate 0 is issued by both
      1, a dead end listed first, and 2, which the anchor 3 issued. */
  lemma GreedyMissesCrossCertificate()
    ensures var issued := (c: int, d: int) => (c, d) in {(0, 1), (0, 2), (2, 3)};
      && LeadsToAnchor([0, 2], [1, 2], [3], issued) && DeadEnd([0, 1], [1, 2], [3], issued)
      && !Walk(0, [1, 2], [3], issued)
  {
    var issued := (c: int, d: int) => (c, d) in {(0, 1), (0, 2), (2, 3)};
    assert issued(2, [3][0]);
    assert [1, 2][1] == 2;
    assert FirstIssuer(0, [1, 2], issued) == Some(1);
    assert RemoveFirst([1, 2], 1) == [2];
    assert [2][1..] == [];
    assert FirstIssuer(1, [2], issued) == None;
  }

  // ---------------------------------------------------------------- the two loops

  /** The anchor test common to both loops. */
  method TestAnchors<C(==, !new)>(c: C, trusted: seq<C>, issued: (C, C) -> bool) returns (hit: bool)
    ensures hit <==> c in trusted || exists k :: 0 <= k < |trusted| && issued(c, trusted[k])
    ensures hit == Hits(c, trusted, issued)
  {
    if c in trusted {
      return true;
    }
    for k := 0 to |trusted|
      invariant forall j :: 0 <= j < k ==> !issued(c, trusted[j])
    {
      if issued(c, trusted[k]) {
        return true;
      }
    }
    return false;
  }

  /** `jws_signer._chain_is_anchored`: at most one round more than there are certificates. */
  method ChainIsAnchored<C(==, !new)>(chain: seq<C>, trusted: seq<C>, issued: (C, C) -> bool) returns (r: bool)
    requires chain != []
    ensures r == Walk(chain[0], chain[1..], trusted, issued)
    ensures chain[0] in trusted ==> r
    ensures r ==> HasPath(chain[0], chain[1..], trusted, issued)
    ensures OneIssuer(chain, chain[1..], issued) && HasPath(chain[0], chain[1..], trusted, issued) ==> r
  {
    AnchoredMeans(chain[0], chain[1..], trusted, issued);
    assert [chain[0]] + chain[1..] == chain;
    var current := chain[0];
    var remaining := chain[1..];
    for i := 0 to |chain| + 1
      invariant |remaining| + i == |chain| - 1
      invariant Walk(chain[0], chain[1..], trusted, issued) == Walk(current, remaining, trusted, issued)
    {
      var hit := TestAnchors(current, trusted, issued);
      if hit {
        return true;
      }
      var issuer := FirstIssuer(current, remaining, issued);
      if issuer.None? {
        return false;
      }
      remaining := RemoveFirst(remaining, issuer.value);
      current := issuer.value;
    }
    return false;
  }

  /** `peer_auth.PeerCertVerifier._is_anchored`: one round more than there are intermediates. */
  method IsAnchored<C(==, !new)>(leaf: C, intermediates: seq<C>, anchors: seq<C>, issued: (C, C) -> bool) returns (r: bool)
    ensures r == Walk(leaf, intermediates, anchors, issued)
    ensures leaf in anchors ==> r
    ensures r ==> HasPath(leaf, intermediates, anchors, issued)
    ensures OneIssuer([leaf] + intermediates, intermediates, issued) && HasPath(leaf, intermediates, anchors, issued) ==> r
  {
    AnchoredMeans(leaf, intermediates, anchors, issued);
    var current := leaf;
    var remaining := intermediates;
    for i := 0 to |intermediates| + 1
      invariant |remaining| + i == |intermediates|
      invariant Walk(leaf, intermediates, anchors, issued) == Walk(current, remaining, anchors, issued)
    {
      var hit := TestAnchors(current, anchors, issued);
      if hit {
        return true;
      }
      var issuer := FirstIssuer(current, remaining, issued);
      if issuer.None? {
        return false;
      }
      remaining := RemoveFirst(remaining, issuer.value);
      current := issuer.value;
    }
    return false;
  }

  /** Both implementations give the same answer on all inputs: the number of rounds never cuts
      the walk short, because each round uses up a certificate. */
  method SameAnswer<C(==, !new)>(leaf: C, intermediates: seq<C>, anchors: seq<C>, issued: (C, C) -> bool) returns (a: bool, b: bool)
    ensures a == b == Walk(leaf, intermediates, anchors, issued)
  {
    a := ChainIsAnchored([leaf] + intermediates, anchors, issued);
    b := IsAnchored(leaf, intermediates, anchors, issued);
    assert ([leaf] + intermediates)[1..] == intermediates;
  }
}
