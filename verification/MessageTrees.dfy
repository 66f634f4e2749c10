/**
 The message catalogues and the deep merge that assembles them.

 A leaf is any value that is not a plain object (a string, an array, `null`).
 */
module MessageTrees {
  import opened Options

  datatype Tree = Leaf(text: string) | Node(children: map<string, Tree>)

  /** Deep merge of two objects: the overlay wins, except that two subtrees are merged. */
  function Merge(base: Tree, overlay: Tree): (merged: Tree)
    requires base.Node? && overlay.Node?
    ensures merged.Node? && merged.children.Keys == base.children.Keys + overlay.children.Keys
    decreases overlay
  {
    Node(map key | key in base.children.Keys + overlay.children.Keys ::
      if key !in overlay.children then base.children[key]
      else if key in base.children && base.children[key].Node? && overlay.children[key].Node? then
        Merge(base.children[key], overlay.children[key])
      else overlay.children[key])
  }

  /** The loop over the overlay's entries, in whatever order they come. */
  method MergeMessageTrees(base: Tree, overlay: Tree) returns (result: Tree)
    requires base.Node? && overlay.Node?
    ensures result == Merge(base, overlay)
    decreases overlay
  {
    var merged := base.children;
    var remaining := overlay.children.Keys;
    while remaining != {}
      invariant remaining <= overlay.children.Keys
      invariant merged.Keys == base.children.Keys + (overlay.children.Keys - remaining)
      invariant forall key :: key in merged ==>
        merged[key] == if key in remaining then base.children[key] else Merge(base, overlay).children[key]
    {
      var key :| key in remaining;
      var value := overlay.children[key];
      if value.Node? && key in merged && merged[key].Node? {
        var inner := MergeMessageTrees(merged[key], value);
        merged := merged[key := inner];
      } else {
        merged := merged[key := value];
      }
      remaining := remaining - {key};
    }
    result := Node(merged);
    assert merged == Merge(base, overlay).children;
  }

  // ---------- When the grouping of merges does not matter ----------

  /** Merging `c` over `a` leaves nothing of `a`. */
  predicate Absorbed(a: Tree, c: Tree)
    requires a.Node? && c.Node?
    decreases a
  {
    forall key | key in a.children ::
      && key in c.children
      && (a.children[key].Node? && c.children[key].Node? ==> Absorbed(a.children[key], c.children[key]))
  }

  lemma AbsorbedMeansMergeIsOverlay(a: Tree, c: Tree)
    requires a.Node? && c.Node?
    ensures Absorbed(a, c) <==> Merge(a, c) == c
    decreases a
  {
    forall key | key in a.children && key in c.children && a.children[key].Node? && c.children[key].Node?
      ensures Absorbed(a.children[key], c.children[key]) <==>
        Merge(a.children[key], c.children[key]) == c.children[key]
    {
      AbsorbedMeansMergeIsOverlay(a.children[key], c.children[key]);
    }
    var merged := Merge(a, c).children;
    if Absorbed(a, c) {
      assert merged == c.children;
    } else {
      var key :| key in a.children &&
        !(key in c.children &&
          (a.children[key].Node? && c.children[key].Node? ==> Absorbed(a.children[key], c.children[key])));
      assert key in merged;
      assert key in c.children ==> merged[key] != c.children[key];
    }
  }

  /**
   Nowhere does `b` put a leaf between subtrees of `a` and `c`, unless the subtree of `c`
   covers all of the subtree of `a` anyway.
   */
  predicate GroupsFreely(a: Tree, b: Tree, c: Tree)
    requires a.Node? && b.Node? && c.Node?
    decreases a
  {
    forall key | key in a.children && key in b.children && key in c.children ::
      a.children[key].Node? && c.children[key].Node? ==>
        if b.children[key].Node? then
          GroupsFreely(a.children[key], b.children[key], c.children[key])
        else
          Absorbed(a.children[key], c.children[key])
  }

  lemma MergeIsAssociativeAtKey(a: Tree, b: Tree, c: Tree, key: string)
    requires a.Node? && b.Node? && c.Node?
    requires key in a.children.Keys + b.children.Keys + c.children.Keys
    ensures var left := Merge(Merge(a, b), c).children[key];
      var right := Merge(a, Merge(b, c)).children[key];
      if key in a.children && key in b.children && key in c.children
        && a.children[key].Node? && c.children[key].Node? then
        if b.children[key].Node? then
          && left == Merge(Merge(a.children[key], b.children[key]), c.children[key])
          && right == Merge(a.children[key], Merge(b.children[key], c.children[key]))
        else
          left == c.children[key] && right == Merge(a.children[key], c.children[key])
      else
        left == right
  {}

  /** Merging three catalogues is associative exactly when they group freely. */
  lemma {:induction false} MergeIsAssociativeExactly(a: Tree, b: Tree, c: Tree)
    requires a.Node? && b.Node? && c.Node?
    ensures Merge(Merge(a, b), c) == Merge(a, Merge(b, c)) <==> GroupsFreely(a, b, c)
    decreases a
  {
    var left, right := Merge(Merge(a, b), c).children, Merge(a, Merge(b, c)).children;
    forall key | key in left
      ensures left[key] == right[key] <==>
        (key in a.children && key in b.children && key in c.children
           && a.children[key].Node? && c.children[key].Node? ==>
           if b.children[key].Node? then GroupsFreely(a.children[key], b.children[key], c.children[key])
           else Absorbed(a.children[key], c.children[key]))
    {
      MergeIsAssociativeAtKey(a, b, c, key);
      if key in a.children && key in b.children && key in c.children && a.children[key].Node? && c.children[key].Node? {
        if b.children[key].Node? {
          MergeIsAssociativeExactly(a.children[key], b.children[key], c.children[key]);
        } else {
          AbsorbedMeansMergeIsOverlay(a.children[key], c.children[key]);
        }
      }
    }
    assert left.Keys == right.Keys;
    if GroupsFreely(a, b, c) {
      assert left == right;
    }
  }

  /** A leaf between two subtrees makes the grouping matter. */
  lemma GroupingCanMatter()
    ensures var a := Node(map["k" := Node(map["x" := Leaf("1")])]);
      var b := Node(map["k" := Leaf("leaf")]);
      var c := Node(map["k" := Node(map["y" := Leaf("2")])]);
      Merge(Merge(a, b), c) != Merge(a, Merge(b, c))
  {
    var a := Node(map["k" := Node(map["x" := Leaf("1")])]);
    var b := Node(map["k" := Leaf("leaf")]);
    var c := Node(map["k" := Node(map["y" := Leaf("2")])]);
    assert "x" in a.children["k"].children && "x" !in c.children["k"].children;
    assert !Absorbed(a.children["k"], c.children["k"]);
    assert !GroupsFreely(a, b, c);
    MergeIsAssociativeExactly(a, b, c);
  }

  // ---------- The grouping in loadMessages ----------

  /** Neither tree puts a leaf where the other puts a subtree. */
  predicate SameShape(a: Tree, b: Tree)
    requires a.Node? && b.Node?
    decreases a
  {
    forall key | key in a.children && key in b.children ::
      && (a.children[key].Node? <==> b.children[key].Node?)
      && (a.children[key].Node? && b.children[key].Node? ==> SameShape(a.children[key], b.children[key]))
  }

  lemma {:induction false} SameShapeGroupsFreely(a: Tree, b: Tree, c: Tree)
    requires a.Node? && b.Node? && c.Node?
    requires SameShape(a, b)
    ensures GroupsFreely(a, b, c)
    decreases a
  {
    forall key | key in a.children && key in b.children && key in c.children
      && a.children[key].Node? && c.children[key].Node?
      ensures b.children[key].Node? && GroupsFreely(a.children[key], b.children[key], c.children[key])
    {
      SameShapeGroupsFreely(a.children[key], b.children[key], c.children[key]);
    }
  }

  lemma {:induction false} SameShapeSurvivesMerge(x: Tree, a: Tree, b: Tree)
    requires x.Node? && a.Node? && b.Node?
    requires SameShape(x, a) && SameShape(x, b)
    ensures SameShape(x, Merge(a, b))
    decreases x
  {
    var merged := Merge(a, b);
    forall key | key in x.children && key in merged.children
      ensures (x.children[key].Node? <==> merged.children[key].Node?)
      ensures x.children[key].Node? && merged.children[key].Node? ==>
        SameShape(x.children[key], merged.children[key])
    {
      if key in a.children && key in b.children && a.children[key].Node? && b.children[key].Node? {
        SameShapeSurvivesMerge(x.children[key], a.children[key], b.children[key]);
      }
    }
  }

  predicate AllNodes(trees: seq<Tree>) {
    forall tree | tree in trees :: tree.Node?
  }

  predicate AllSameShape(trees: seq<Tree>) {
    && AllNodes(trees)
    && forall a, b | a in trees && b in trees :: SameShape(a, b)
  }

  /** One left-to-right fold. */
  function Fold(first: Tree, rest: seq<Tree>): (merged: Tree)
    requires first.Node? && AllNodes(rest)
    ensures merged.Node?
    decreases |rest|
  {
    if rest == [] then first else Merge(Fold(first, rest[..|rest| - 1]), rest[|rest| - 1])
  }

  lemma {:induction false} SameShapeSurvivesFold(x: Tree, first: Tree, rest: seq<Tree>)
    requires x.Node? && first.Node? && AllNodes(rest)
    requires SameShape(x, first) && forall tree | tree in rest :: SameShape(x, tree)
    ensures SameShape(x, Fold(first, rest))
    decreases |rest|
  {
    if rest != [] {
      var n := |rest| - 1;
      SameShapeSurvivesFold(x, first, rest[..n]);
      SameShapeSurvivesMerge(x, Fold(first, rest[..n]), rest[n]);
    }
  }

  /** Folding a group first and merging it afterwards is folding straight through. */
  lemma {:induction false} FoldOfGroup(x: Tree, first: Tree, rest: seq<Tree>)
    requires x.Node? && first.Node? && AllNodes(rest)
    requires SameShape(x, first) && forall tree | tree in rest :: SameShape(x, tree)
    ensures Merge(x, Fold(first, rest)) == Fold(x, [first] + rest)
    decreases |rest|
  {
    var whole := [first] + rest;
    if rest == [] {
      assert whole[..0] == [];
      assert Fold(x, []) == x;
    } else {
      var n := |rest| - 1;
      assert whole[..|whole| - 1] == [first] + rest[..n];
      FoldOfGroup(x, first, rest[..n]);
      SameShapeSurvivesFold(x, first, rest[..n]);
      SameShapeGroupsFreely(x, Fold(first, rest[..n]), rest[n]);
      MergeIsAssociativeExactly(x, Fold(first, rest[..n]), rest[n]);
    }
  }

  lemma {:induction false} FoldAppends(first: Tree, left: seq<Tree>, right: seq<Tree>)
    requires first.Node? && AllNodes(left) && AllNodes(right)
    ensures Fold(first, left + right) == Fold(Fold(first, left), right)
    decreases |right|
  {
    if right == [] {
      assert left + right == left;
    } else {
      var n := |right| - 1;
      assert (left + right)[..|left + right| - 1] == left + right[..n];
      FoldAppends(first, left, right[..n]);
    }
  }

  /**
   The catalogue of a locale: the common file, the topics folded over it, `middle` merged in
   one after the other, and the group headed by `late` merged in last, as one overlay. A file
   that is not an object is refused.
   */
  function LoadMessages(common: Tree, topics: seq<Tree>, middle: seq<Tree>, late: Tree, later: seq<Tree>)
    : Result<Tree, string>
    requires common.Node?
  {
    if AllNodes(topics) && AllNodes(middle) && late.Node? && AllNodes(later) then
      Ok(Merge(Fold(Fold(common, topics), middle), Fold(late, later)))
    else
      Err("Locale messages are not objects")
  }

  /**
   When no file puts a leaf where another puts a subtree, the nested grouping is one
   left-to-right fold over all the files.
   */
  lemma LoadMessagesIsOneFold(common: Tree, topics: seq<Tree>, middle: seq<Tree>, late: Tree, later: seq<Tree>)
    requires AllSameShape([common] + topics + middle + [late] + later)
    ensures common.Node? && AllNodes(topics + middle + [late] + later)
    ensures LoadMessages(common, topics, middle, late, later) ==
      Ok(Fold(common, topics + middle + [late] + later))
  {
    var files := [common] + topics + middle + [late] + later;
    assert forall tree :: tree in files <==>
      tree == common || tree in topics || tree in middle || tree == late || tree in later;
    var base := Fold(common, topics + middle);
    FoldAppends(common, topics, middle);
    forall tree | tree == late || tree in later ensures SameShape(base, tree) {
      FoldHasShape(common, topics + middle, tree);
    }
    FoldOfGroup(base, late, later);
    FoldAppends(common, topics + middle, [late] + later);
    assert topics + middle + ([late] + later) == topics + middle + [late] + later;
  }

  lemma FoldHasShape(first: Tree, rest: seq<Tree>, tree: Tree)
    requires first.Node? && AllNodes(rest) && tree.Node?
    requires SameShape(tree, first) && forall other | other in rest :: SameShape(tree, other)
    ensures SameShape(Fold(first, rest), tree)
  {
    SameShapeSurvivesFold(tree, first, rest);
    SameShapeSymmetric(tree, Fold(first, rest));
  }

  lemma {:induction false} SameShapeSymmetric(a: Tree, b: Tree)
    requires a.Node? && b.Node? && SameShape(a, b)
    ensures SameShape(b, a)
    decreases a
  {
    forall key | key in a.children && key in b.children && a.children[key].Node?
      ensures SameShape(b.children[key], a.children[key])
    {
      SameShapeSymmetric(a.children[key], b.children[key]);
    }
  }

  // ---------- Looking a message up ----------

  function At(tree: Tree, path: seq<string>): Option<Tree>
    decreases |path|
  {
    if path == [] then Some(tree)
    else if tree.Leaf? || path[0] !in tree.children then None
    else At(tree.children[path[0]], path[1..])
  }

  function TextAt(tree: Tree, path: seq<string>): Option<string> {
    match At(tree, path)
    case Some(Leaf(text)) => Some(text)
    case _ => None
  }

  /** The tree says what is at the path: it has something there, or a leaf on the way. */
  ghost predicate Decides(tree: Tree, path: seq<string>) {
    || At(tree, path).Some?
    || exists n :: 0 < n < |path| && At(tree, path[..n]).Some? && At(tree, path[..n]).value.Leaf?
  }

  lemma AtPrefix(tree: Tree, path: seq<string>, n: nat)
    requires tree.Node? && 0 < n <= |path|
    ensures At(tree, path[..n]) ==
      if path[0] in tree.children then At(tree.children[path[0]], path[1..][..n - 1]) else None
  {
    assert path[..n][1..] == path[1..][..n - 1];
  }

  lemma DecidesBelow(tree: Tree, path: seq<string>)
    requires tree.Node? && |path| > 1 && path[0] in tree.children && tree.children[path[0]].Node?
    ensures Decides(tree, path) <==> Decides(tree.children[path[0]], path[1..])
  {
    var child := tree.children[path[0]];
    if n :| 0 < n < |path| && At(tree, path[..n]).Some? && At(tree, path[..n]).value.Leaf? {
      AtPrefix(tree, path, n);
      assert At(child, path[1..][..n - 1]).value.Leaf?;
    }
    if n :| 0 < n < |path[1..]| && At(child, path[1..][..n]).Some? && At(child, path[1..][..n]).value.Leaf? {
      AtPrefix(tree, path, n + 1);
      assert At(tree, path[..n + 1]).value.Leaf?;
    }
  }

  /** A merged catalogue answers as the overlay where the overlay decides, and as the base elsewhere. */
  lemma {:induction false} OverlayWinsByPath(base: Tree, overlay: Tree, path: seq<string>)
    requires base.Node? && overlay.Node? && path != []
    ensures TextAt(Merge(base, overlay), path) ==
      if Decides(overlay, path) then TextAt(overlay, path) else TextAt(base, path)
    decreases |path|
  {
    var key := path[0];
    if key !in overlay.children {
      forall n | 0 < n <= |path| ensures At(overlay, path[..n]).None? {
        AtPrefix(overlay, path, n);
      }
      assert path[..|path|] == path && !Decides(overlay, path);
      assert key in base.children ==> Merge(base, overlay).children[key] == base.children[key];
      assert At(Merge(base, overlay), path) == At(base, path);
    } else if |path| == 1 {
      assert At(overlay, path) == Some(overlay.children[key]);
      assert At(Merge(base, overlay), path) == Some(Merge(base, overlay).children[key]);
    } else if overlay.children[key].Leaf? {
      AtPrefix(overlay, path, 1);
      assert At(overlay, path[..1]).value.Leaf?;
    } else {
      DecidesBelow(overlay, path);
      var merged := Merge(base, overlay).children[key];
      assert TextAt(Merge(base, overlay), path) == TextAt(merged, path[1..]);
      assert TextAt(overlay, path) == TextAt(overlay.children[key], path[1..]);
      if key in base.children && base.children[key].Node? {
        OverlayWinsByPath(base.children[key], overlay.children[key], path[1..]);
        assert TextAt(base, path) == TextAt(base.children[key], path[1..]);
      } else {
        assert merged == overlay.children[key];
        assert key in base.children ==> At(base, path) == At(base.children[key], path[1..]);
        assert key in base.children ==> At(base.children[key], path[1..]).None?;
      }
    }
  }
}
