/** Notification scopes: the id Terraform prints (locals.tf) and the parser in
    slurm_oci_notification_cleanup.py that recovers the deployment identity from it. */
module ScopeIdentity {
  import opened Wrappers

  /** `{"cluster_name": ..., "cluster_scope_id": ...}` */
  datatype Scope = Scope(clusterName: string, scopeId: string)

  /** What all scopes of one deployment share: the random pet name and the compartment hash. */
  datatype Identity = Identity(randomName: string, compartmentHash: string)

  function First128(s: string): string {
    if |s| <= 128 then s else s[..128]
  }

  /** `"${substr(cluster_name, 0, 128)}:${random_pet}:${substr(md5(compartment), 0, 12)}"` */
  function PrintScopeId(clusterName: string, identity: Identity): string {
    First128(clusterName) + ":" + identity.randomName + ":" + identity.compartmentHash
  }

  function LastColon(s: string): (at: Option<nat>)
    ensures at.Some? ==> at.value < |s| && s[at.value] == ':' && ':' !in s[at.value + 1..]
    ensures at.None? ==> ':' !in s
  {
    if s == [] then None
    else if s[|s| - 1] == ':' then Some(|s| - 1)
    else
      var at := LastColon(s[..|s| - 1]);
      assert s == s[..|s| - 1] + [s[|s| - 1]];
      assert at.Some? ==> s[at.value + 1..] == s[..|s| - 1][at.value + 1..] + [s[|s| - 1]];
      at
  }

  /** `s.rsplit(":", 2)` when it yields three parts; fewer parts fail the unpacking. */
  function SplitScopeId(s: string): Option<(string, string, string)> {
    match LastColon(s)
    case None => None
    case Some(j) =>
      match LastColon(s[..j])
      case None => None
      case Some(i) => Some((s[..i], s[..j][i + 1..], s[j + 1..]))
  }

  predicate IsHex(s: string) {
    forall i :: 0 <= i < |s| ==> '0' <= s[i] <= '9' || 'a' <= s[i] <= 'f'
  }

  /** `_scope_deployment_identity` */
  function DeploymentIdentity(scope: Scope): Result<Identity> {
    match SplitScopeId(scope.scopeId)
    case None => Err("invalid cluster_scope_id")
    case Some((scopeName, randomName, compartmentHash)) =>
      if scopeName != First128(scope.clusterName) || randomName == [] then
        Err("does not match its cluster_name")
      else if |compartmentHash| != 12 || !IsHex(compartmentHash) then Err("invalid compartment hash")
      else Ok(Identity(randomName, compartmentHash))
  }

  /** Identities a scope id can carry. */
  predicate Printable(identity: Identity) {
    && identity.randomName != [] && ':' !in identity.randomName
    && |identity.compartmentHash| == 12 && IsHex(identity.compartmentHash)
  }

  lemma LastColonOf(front: string, back: string)
    requires ':' !in back
    ensures LastColon(front + ":" + back) == Some(|front|)
  {
    var s := front + ":" + back;
    assert s[|front|] == ':';
    assert s[|front| + 1..] == back;
    assert forall k :: |front| < k < |s| ==> s[k] == back[k - |front| - 1];
    forall k | 0 <= k <= |front|
      ensures ':' in s[k..]
    {
      assert s[k..][|front| - k] == ':';
    }
    assert ':' in s[0..] && s[0..] == s;
  }

  lemma SplitOfPrint(name: string, middle: string, last: string)
    requires ':' !in middle && ':' !in last
    ensures SplitScopeId(name + ":" + middle + ":" + last) == Some((name, middle, last))
  {
    var front := name + ":" + middle;
    var s := front + ":" + last;
    LastColonOf(front, last);
    LastColonOf(name, middle);
    assert s[..|front|] == front && s[|front| + 1..] == last;
    assert front[..|name|] == name && front[|name| + 1..] == middle;
    assert s[..|name|] == name;
  }

  lemma PrintOfSplit(s: string)
    requires SplitScopeId(s).Some?
    ensures var (name, middle, last) := SplitScopeId(s).value;
            && s == name + ":" + middle + ":" + last && ':' !in middle && ':' !in last
  {
    var j := LastColon(s).value;
    var i := LastColon(s[..j]).value;
    assert s == s[..j] + ":" + s[j + 1..];
    assert s[..j] == s[..i] + ":" + s[..j][i + 1..];
  }

  /** A printed id parses back to its identity, whatever the cluster name, ':' and length included,
      exactly when the identity is printable. */
  lemma ParseOfPrint(clusterName: string, identity: Identity)
    ensures DeploymentIdentity(Scope(clusterName, PrintScopeId(clusterName, identity))) == Ok(identity)
       <==> Printable(identity)
  {
    if Printable(identity) {
      var hash := identity.compartmentHash;
      assert forall i :: 0 <= i < |hash| ==> hash[i] != ':';
      SplitOfPrint(First128(clusterName), identity.randomName, hash);
    } else if SplitScopeId(PrintScopeId(clusterName, identity)).Some? {
      PrintOfSplit(PrintScopeId(clusterName, identity));
    }
  }

  /** Whatever the parser accepts is a printed id: nothing else passes as part of a deployment. */
  lemma PrintOfParse(scope: Scope, identity: Identity)
    requires DeploymentIdentity(scope) == Ok(identity)
    ensures Printable(identity) && scope.scopeId == PrintScopeId(scope.clusterName, identity)
  {
    PrintOfSplit(scope.scopeId);
  }
}
