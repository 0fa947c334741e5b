/**
 * Expansion of a (possibly nested and grouped) `use` tree into the list of
 * paths it imports, left to right and depth first.
 */
module UseExpansion {
  import opened Syntax
  import opened Text

  /** One imported path, its segments in order. */
  type UsePath = seq<string>

  /**
   * The paths `u` imports below `prefix`, or `None` when `u` contains a glob,
   * a rename or another shape with no rule.
   */
  function Expansion(u: UseTree, prefix: UsePath): (r: Option<seq<UsePath>>)
    ensures r.Some? ==> forall i :: 0 <= i < |r.value| ==> |r.value[i]| > |prefix| && r.value[i][..|prefix|] == prefix
    decreases u, 1
  {
    match u
    case UsePath(ident, tree) =>
      var r := Expansion(tree, prefix + [ident]);
      if r.Some? then
        assert forall i :: 0 <= i < |r.value| ==> r.value[i][..|prefix|] == r.value[i][..|prefix| + 1][..|prefix|];
        r
      else r
    case UseName(ident) => Some([prefix + [ident]])
    case UseGroup(items) => GroupExpansion(items, prefix)
    case _ => None
  }

  /** The paths of the trees of a group, one tree after the other. */
  function GroupExpansion(items: seq<UseTree>, prefix: UsePath): (r: Option<seq<UsePath>>)
    ensures r.Some? ==> forall i :: 0 <= i < |r.value| ==> |r.value[i]| > |prefix| && r.value[i][..|prefix|] == prefix
    decreases items, 0
  {
    if items == [] then Some([])
    else
      match GroupExpansion(items[..|items| - 1], prefix)
      case None => None
      case Some(front) =>
        match Expansion(items[|items| - 1], prefix)
        case None => None
        case Some(back) => Some(front + back)
  }

  /** Once a tree of a group fails, the whole group fails. */
  lemma {:induction false} GroupExpansionFails(items: seq<UseTree>, prefix: UsePath, k: nat)
    requires k <= |items| && GroupExpansion(items[..k], prefix).None?
    ensures GroupExpansion(items, prefix).None?
    decreases |items| - k
  {
    if k < |items| {
      assert items[..k + 1][..k] == items[..k];
      GroupExpansionFails(items, prefix, k + 1);
    } else {
      assert items[..k] == items;
    }
  }

  /**
   * `expand_rec`: appends the paths of `u` below `prefix` to `b`. It returns
   * `Nyi` when the tree has a shape with no rule; the caller then drops `b`.
   */
  method ExpandRec(u: UseTree, prefix: UsePath, b: seq<UsePath>) returns (r: Status, b': seq<UsePath>)
    ensures Expansion(u, prefix).Some? ==> r == Ok(()) && b' == b + Expansion(u, prefix).value
    ensures Expansion(u, prefix).None? ==> r == Err(Nyi)
    decreases u
  {
    match u {
      case UsePath(ident, tree) =>
        r, b' := ExpandRec(tree, prefix + [ident], b);
      case UseName(ident) =>
        b' := b + [prefix + [ident]];
        r := Ok(());
      case UseGroup(items) =>
        b' := b;
        for i := 0 to |items|
          invariant GroupExpansion(items[..i], prefix).Some?
          invariant b' == b + GroupExpansion(items[..i], prefix).value
        {
          assert items[..i + 1][..i] == items[..i];
          var sub;
          sub, b' := ExpandRec(items[i], prefix, b');
          if sub.Err? {
            GroupExpansionFails(items, prefix, i + 1);
            return Err(Nyi), b';
          }
        }
        assert items[..|items|] == items;
        r := Ok(());
      case _ =>
        r, b' := Err(Nyi), b;
    }
  }

  /** `expand_use_tree`: all paths of a `use` tree, or `Nyi` with no partial result. */
  method ExpandUseTree(u: UseTree) returns (r: Result<seq<UsePath>>)
    ensures Expansion(u, []).Some? ==> r == Ok(Expansion(u, []).value)
    ensures Expansion(u, []).None? ==> r == Err(Nyi)
  {
    var status, b := ExpandRec(u, [], []);
    if status.Err? {
      return Err(status.error);
    }
    assert [] + Expansion(u, []).value == Expansion(u, []).value;
    return Ok(b);
  }

  /** The tree has no glob, rename or other unsupported shape. */
  predicate Supported(u: UseTree)
    decreases u, 1
  {
    match u
    case UsePath(_, tree) => Supported(tree)
    case UseName(_) => true
    case UseGroup(items) => SupportedAll(items)
    case _ => false
  }

  predicate SupportedAll(items: seq<UseTree>)
    decreases items, 0
  {
    forall i :: 0 <= i < |items| ==> Supported(items[i])
  }

  /** The number of `Name` leaves of a tree. */
  function LeafCount(u: UseTree): nat
    decreases u, 1
  {
    match u
    case UsePath(_, tree) => LeafCount(tree)
    case UseName(_) => 1
    case UseGroup(items) => GroupLeafCount(items)
    case _ => 0
  }

  function GroupLeafCount(items: seq<UseTree>): nat
    decreases items, 0
  {
    if items == [] then 0 else GroupLeafCount(items[..|items| - 1]) + LeafCount(items[|items| - 1])
  }

  /** The tree contains no group. */
  predicate Ungrouped(u: UseTree) {
    match u
    case UsePath(_, tree) => Ungrouped(tree)
    case UseGroup(_) => false
    case _ => true
  }

  /** The segments named along an ungrouped tree, from the root down to its leaf. */
  function Chain(u: UseTree): UsePath {
    match u
    case UsePath(ident, tree) => [ident] + Chain(tree)
    case UseName(ident) => [ident]
    case _ => []
  }

  /** Expansion succeeds exactly on supported trees, and then yields one path per leaf. */
  lemma {:induction false} ExpansionSucceedsIff(u: UseTree, prefix: UsePath)
    ensures Expansion(u, prefix).Some? <==> Supported(u)
    ensures Supported(u) ==> |Expansion(u, prefix).value| == LeafCount(u)
    decreases u, 1
  {
    match u
    case UsePath(ident, tree) => ExpansionSucceedsIff(tree, prefix + [ident]);
    case UseName(_) =>
    case UseGroup(items) => GroupExpansionSucceedsIff(items, prefix);
    case UseRename(_, _) =>
    case UseGlob =>
  }

  lemma {:induction false} GroupExpansionSucceedsIff(items: seq<UseTree>, prefix: UsePath)
    ensures GroupExpansion(items, prefix).Some? <==> SupportedAll(items)
    ensures SupportedAll(items) ==> |GroupExpansion(items, prefix).value| == GroupLeafCount(items)
    decreases items, 0
  {
    if items != [] {
      var front := items[..|items| - 1];
      GroupExpansionSucceedsIff(front, prefix);
      ExpansionSucceedsIff(items[|items| - 1], prefix);
      assert SupportedAll(items) <==> SupportedAll(front) && Supported(items[|items| - 1]) by {
        assert forall i :: 0 <= i < |front| ==> front[i] == items[i];
      }
    }
  }

  /** A tree without groups and without unsupported shapes imports exactly one path: its chain. */
  lemma {:induction false} UngroupedExpansion(u: UseTree, prefix: UsePath)
    requires Ungrouped(u) && Supported(u)
    ensures Expansion(u, prefix) == Some([prefix + Chain(u)])
  {
    match u
    case UsePath(ident, tree) =>
      UngroupedExpansion(tree, prefix + [ident]);
      assert prefix + [ident] + Chain(tree) == prefix + Chain(u);
    case UseName(ident) =>
  }

  /** A path node adds its segment in front of every path of its subtree. */
  lemma PathNodeExpansion(ident: string, tree: UseTree, prefix: UsePath)
    ensures Expansion(UsePath(ident, tree), prefix) == Expansion(tree, prefix + [ident])
  {
  }

  /** A group adds no segment: its paths are those of its trees below the same prefix, in order. */
  lemma GroupNodeExpansion(items: seq<UseTree>, t: UseTree, prefix: UsePath)
    requires GroupExpansion(items, prefix).Some? && Expansion(t, prefix).Some?
    ensures Expansion(UseGroup(items + [t]), prefix)
         == Some(GroupExpansion(items, prefix).value + Expansion(t, prefix).value)
  {
    var all := items + [t];
    assert all[..|all| - 1] == items && all[|all| - 1] == t;
    var front := GroupExpansion(items, prefix).value;
    var back := Expansion(t, prefix).value;
    assert GroupExpansion(all, prefix) == Some(front + back);
  }

  /** Every path a tree of identifiers imports is made of identifiers. */
  lemma {:induction false} ExpansionIdents(u: UseTree, prefix: UsePath)
    requires forall i :: 0 <= i < |prefix| ==> IsIdent(prefix[i])
    requires IdentTree(u) && Expansion(u, prefix).Some?
    ensures forall p | p in Expansion(u, prefix).value :: forall i :: 0 <= i < |p| ==> IsIdent(p[i])
    decreases u, 1
  {
    match u
    case UsePath(ident, tree) => ExpansionIdents(tree, prefix + [ident]);
    case UseName(ident) =>
    case UseGroup(items) => GroupExpansionIdents(items, prefix);
  }

  lemma {:induction false} GroupExpansionIdents(items: seq<UseTree>, prefix: UsePath)
    requires forall i :: 0 <= i < |prefix| ==> IsIdent(prefix[i])
    requires IdentTrees(items) && GroupExpansion(items, prefix).Some?
    ensures forall p | p in GroupExpansion(items, prefix).value :: forall i :: 0 <= i < |p| ==> IsIdent(p[i])
    decreases items, 0
  {
    if items != [] {
      var front := items[..|items| - 1];
      assert IdentTrees(front) by {
        assert forall i :: 0 <= i < |front| ==> front[i] == items[i];
      }
      GroupExpansionIdents(front, prefix);
      ExpansionIdents(items[|items| - 1], prefix);
    }
  }

  /** Every identifier in the tree is a Rust identifier, as the parser guarantees. */
  predicate IdentTree(u: UseTree)
    decreases u, 1
  {
    match u
    case UsePath(ident, tree) => IsIdent(ident) && IdentTree(tree)
    case UseName(ident) => IsIdent(ident)
    case UseGroup(items) => IdentTrees(items)
    case UseRename(ident, rename) => IsIdent(ident) && IsIdent(rename)
    case UseGlob => true
  }

  predicate IdentTrees(items: seq<UseTree>)
    decreases items, 0
  {
    forall i :: 0 <= i < |items| ==> IdentTree(items[i])
  }

  lemma SingleLeafGroup(prefix: UsePath, leaf: string)
    ensures GroupExpansion([UseName(leaf)], prefix) == Some([prefix + [leaf]])
  {
    var one := [UseName(leaf)];
    assert one[..0] == [];
    assert [] + [prefix + [leaf]] == [prefix + [leaf]];
  }

  /** The same leaf twice in a group gives the same path twice: expansion does not remove duplicates. */
  lemma DuplicateLeaves()
    ensures Expansion(UsePath("a", UseGroup([UseName("b"), UseName("b")])), []) == Some([["a", "b"], ["a", "b"]])
  {
    var b := UseName("b");
    var ab: UsePath := ["a", "b"];
    assert [] + ["a"] == ["a"];
    assert ["a"] + ["b"] == ab;
    SingleLeafGroup(["a"], "b");
    GroupNodeExpansion([b], b, ["a"]);
    assert [b] + [b] == [b, b];
    assert [ab] + [ab] == [ab, ab];
    PathNodeExpansion("a", UseGroup([b, b]), []);
  }
}
