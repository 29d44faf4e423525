/**
 * Folder permissions: a principal and the actions granted to it, and the
 * check that the actions form exactly one of the three folder bundles.
 */
module Permissions {
  import opened Wrappers
  import opened Exceptions
  import opened Json
  import opened StringOrder

  const FolderViewerActions: seq<string> := ["quicksight:DescribeFolder"]

  const FolderAuthorActions: seq<string> := [
    "quicksight:CreateFolder",
    "quicksight:DescribeFolder",
    "quicksight:CreateFolderMembership",
    "quicksight:DeleteFolderMembership",
    "quicksight:DescribeFolderPermissions"
  ]

  const FolderOwnerActions: seq<string> := [
    "quicksight:CreateFolder",
    "quicksight:DescribeFolder",
    "quicksight:UpdateFolder",
    "quicksight:DeleteFolder",
    "quicksight:CreateFolderMembership",
    "quicksight:DeleteFolderMembership",
    "quicksight:DescribeFolderPermissions",
    "quicksight:UpdateFolderPermissions"
  ]

  /** The bundles in the order the validator tries them. */
  const FolderBundles: seq<seq<string>> := [FolderViewerActions, FolderAuthorActions, FolderOwnerActions]

  /**
   * The reference meaning of a valid folder permission set: the actions are
   * one of the bundles up to order, each action as often as in the bundle.
   */
  ghost predicate IsFolderBundle(actions: seq<string>)
  {
    exists i :: 0 <= i < |FolderBundles| && multiset(actions) == multiset(FolderBundles[i])
  }

  /**
   * A permission dictionary from a request: its "Principal" and "Actions"
   * entries when present, and whether it holds any other key (which makes a
   * dictionary non-empty, hence truthy, without supplying either field).
   */
  datatype PermissionDict = PermissionDict(principal: Option<string>, actions: Option<seq<string>>, otherKeys: bool)
  {
    /** Python truthiness of the dictionary: it is non-empty. */
    predicate NonEmpty()
    {
      principal.Some? || actions.Some? || otherKeys
    }
  }

  /** A list of strings as Python's `str()` renders it, e.g. `['a', 'b']`. */
  function ListRepr(xs: seq<string>): string
  {
    "[" + JoinQuoted(xs) + "]"
  }

  function JoinQuoted(xs: seq<string>): string
  {
    if xs == [] then ""
    else if |xs| == 1 then "'" + xs[0] + "'"
    else "'" + xs[0] + "', " + JoinQuoted(xs[1..])
  }

  /** The message of a rejected folder permission set. */
  function UnsupportedSetMessage(actions: seq<string>): string
  {
    "ResourcePermission list contains unsupported permission sets " + ListRepr(actions)
    + " for this resource. Valid sets : " + ListRepr(FolderViewerActions)
    + " or " + ListRepr(FolderAuthorActions) + " or " + ListRepr(FolderOwnerActions)
  }

  /** The message for a resource type without known permission sets. */
  function UnknownResourceMessage(resource: string): string
  {
    "MOTO: Unknown Permission Set for " + resource
  }

  datatype Permission = Permission(principal: string, actions: seq<string>)
  {
    /** `to_json`: the principal and the actions, in the order given. */
    function ToJson(): (j: Json)
      ensures Field(j, "Principal") == Some(JStr(principal))
      ensures Field(j, "Actions") == Some(Strings(actions))
    {
      JObj(map["Principal" := JStr(principal), "Actions" := Strings(actions)])
    }

    /**
     * `validate_permission_set`: for "FOLDER", succeeds exactly when the
     * sorted actions equal one of the sorted bundles; any other resource
     * type is rejected.
     */
    method ValidatePermissionSet(resource: string) returns (r: Result<bool>)
      ensures resource == "FOLDER" && IsFolderBundle(actions) ==> r == Ok(true)
      ensures resource == "FOLDER" && !IsFolderBundle(actions) ==>
                r == Err(InvalidParameterValue(UnsupportedSetMessage(actions)))
      ensures resource != "FOLDER" ==> r == Err(InvalidParameterValue(UnknownResourceMessage(resource)))
    {
      if resource == "FOLDER" {
        var valid := MatchesSomeBundle(actions, FolderBundles);
        if !valid {
          return Err(InvalidParameterValue(UnsupportedSetMessage(actions)));
        }
        return Ok(true);
      }
      return Err(InvalidParameterValue(UnknownResourceMessage(resource)));
    }
  }

  /** `sorted(a) == sorted(b)`: true exactly when `a` and `b` hold the same actions, counted with repetition. */
  function SortedEqual(a: seq<string>, b: seq<string>): (r: bool)
    ensures r <==> multiset(a) == multiset(b)
  {
    SortEqualIffSameMultiset(a, b);
    Sort(a) == Sort(b)
  }

  /**
   * The loop of `validate_permission_set`: tries each bundle in turn,
   * comparing sorted copies, and stops at the first match.
   */
  method MatchesSomeBundle(actions: seq<string>, bundles: seq<seq<string>>) returns (valid: bool)
    ensures valid <==> exists i :: 0 <= i < |bundles| && multiset(actions) == multiset(bundles[i])
  {
    valid := false;
    var i := 0;
    while i < |bundles|
      invariant 0 <= i <= |bundles|
      invariant forall j :: 0 <= j < i ==> multiset(actions) != multiset(bundles[j])
    {
      if SortedEqual(bundles[i], actions) {
        valid := true;
        break;
      }
      i := i + 1;
    }
  }

  /**
   * The constructor: a non-empty permission dictionary takes precedence
   * over the separate arguments; a missing principal becomes "" and missing
   * actions the empty list.
   */
  function NewPermission(principal: Option<string>, actions: Option<seq<string>>, permission: Option<PermissionDict>): (p: Permission)
    ensures permission.Some? && permission.value.NonEmpty() ==>
              p.principal == permission.value.principal.GetOr("") && p.actions == permission.value.actions.GetOr([])
    ensures (permission.None? || !permission.value.NonEmpty()) ==>
              p.principal == principal.GetOr("") && p.actions == actions.GetOr([])
  {
    if permission.None? || !permission.value.NonEmpty() then
      Permission(principal.GetOr(""), actions.GetOr([]))
    else
      Permission(permission.value.principal.GetOr(""), permission.value.actions.GetOr([]))
  }

  lemma BundleSizes()
    ensures |FolderViewerActions| == 1 && |FolderAuthorActions| == 5 && |FolderOwnerActions| == 8
  {
  }

  /** As sets, viewer is strictly inside author, and author strictly inside owner. */
  lemma BundlesNested()
    ensures forall a :: a in FolderViewerActions ==> a in FolderAuthorActions
    ensures forall a :: a in FolderAuthorActions ==> a in FolderOwnerActions
    ensures exists a :: a in FolderAuthorActions && a !in FolderViewerActions
    ensures exists a :: a in FolderOwnerActions && a !in FolderAuthorActions
  {
    assert "quicksight:CreateFolder" in FolderAuthorActions && "quicksight:CreateFolder" !in FolderViewerActions;
    assert "quicksight:UpdateFolder" in FolderOwnerActions && "quicksight:UpdateFolder" !in FolderAuthorActions;
  }

  /** The empty action list matches no bundle, so it is always rejected. */
  lemma EmptyActionsRejected()
    ensures !IsFolderBundle([])
  {
    forall i | 0 <= i < |FolderBundles| ensures multiset(FolderBundles[i]) != multiset([]) {
      assert FolderBundles[i][0] in multiset(FolderBundles[i]);
    }
  }

  /** The check compares with multiplicity: a repeated action spoils a bundle. */
  lemma DuplicateActionRejected()
    ensures !IsFolderBundle(FolderViewerActions + FolderViewerActions)
  {
    var d := FolderViewerActions + FolderViewerActions;
    assert |multiset(d)| == 2;
    assert |FolderBundles[0]| == 1 && |FolderBundles[1]| == 5 && |FolderBundles[2]| == 8;
    forall i | 0 <= i < |FolderBundles| ensures multiset(FolderBundles[i]) != multiset(d) {
      assert |multiset(FolderBundles[i])| == |FolderBundles[i]|;
    }
  }

  /** The check ignores order: reordering the actions does not change the verdict. */
  lemma BundleOrderInsensitive(a: seq<string>, b: seq<string>)
    requires multiset(a) == multiset(b)
    ensures IsFolderBundle(a) <==> IsFolderBundle(b)
  {
  }

  /** The three bundles are pairwise different, so at most one can match. */
  lemma AtMostOneBundle(actions: seq<string>, i: nat, j: nat)
    requires i < j < |FolderBundles|
    ensures !(multiset(actions) == multiset(FolderBundles[i]) && multiset(actions) == multiset(FolderBundles[j]))
  {
    assert |FolderBundles[0]| == 1 && |FolderBundles[1]| == 5 && |FolderBundles[2]| == 8;
    assert |FolderBundles[i]| != |FolderBundles[j]|;
    assert |multiset(FolderBundles[i])| == |FolderBundles[i]| && |multiset(FolderBundles[j])| == |FolderBundles[j]|;
  }
}
