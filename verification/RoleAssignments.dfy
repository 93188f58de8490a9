/** Assigning a role to a user and taking it away again, through bindings known by their names. */
module RoleAssignments {
  import opened Common
  import opened JitProtocol
  import BindingWalk

  datatype Place = Everywhere | Within(namespace: string)

  datatype RoleBinding = RoleBinding(roleKind: RoleKind, roleName: string, subjects: set<Subject>)

  /** Where `assign_role` puts the binding. */
  function AssignedTo(roleKind: RoleKind, namespace: Option<string>): Place {
    if namespace.None? && roleKind.ClusterRole? then Everywhere
    else if namespace.GetOr("") == "" then Within("default")
    else Within(namespace.value)
  }

  /** Where `revoke_role` looks for it. */
  function RevokedFrom(namespace: Option<string>): Place {
    if namespace.None? then Everywhere else Within(namespace.value)
  }

  predicate Grants(b: RoleBinding, subject: Subject, roleKind: RoleKind, roleName: string) {
    b.roleKind == roleKind && b.roleName == roleName && subject in b.subjects
  }

  class RbacBindings {
    var bindings: map<(Place, string), RoleBinding>

    constructor ()
      ensures bindings == map[]
    {
      bindings := map[];
    }

    /** Patches the binding of that name, or creates it. `patched` is what the API server makes of
        the subjects; the patch names only the new one and never touches the role. So the subject
        gets the role asked for exactly if no binding of that name is there for another role. */
    method AssignRole(username: string, userKind: string, roleName: string, roleKind: RoleKind,
                      namespace: Option<string>,
                      saNamespace: string, patched: set<Subject>)
      requires Subject(userKind, username, saNamespace) in patched
      modifies this
      ensures AssignedTo(roleKind, namespace)
              == if namespace.None? && roleKind.ClusterRole? then Everywhere
                 else Within(if namespace.None? || namespace.value == "" then "default" else namespace.value)
      ensures var site := (AssignedTo(roleKind, namespace), "clustervision-" + username + "-" + roleName);
              var subject := Subject(userKind, username, saNamespace);
              && site in bindings && bindings - {site} == old(bindings) - {site} && subject in bindings[site].subjects
              && (site !in old(bindings) ==>
                    bindings[site] == RoleBinding(if site.0.Everywhere? then ClusterRole else roleKind, roleName,
                                                  {subject}))
              && (site in old(bindings) ==> bindings[site] == old(bindings)[site].(subjects := patched))
              && (Grants(bindings[site], subject, roleKind, roleName) <==>
                    site in old(bindings) ==>
                      old(bindings)[site].roleKind == roleKind && old(bindings)[site].roleName == roleName)
    {
      var subject := Subject(userKind, username, saNamespace);
      var name := BindingWalk.PermanentName(username, roleName);
      if namespace.None? && roleKind.ClusterRole? {
        if (Everywhere, name) in bindings {
          bindings := bindings[(Everywhere, name) := bindings[(Everywhere, name)].(subjects := patched)];
        } else {
          bindings := bindings[(Everywhere, name) := RoleBinding(ClusterRole, roleName, {subject})];
        }
      } else {
        var site := (Within(if namespace.GetOr("") == "" then "default" else namespace.value), name);
        if site in bindings {
          bindings := bindings[site := bindings[site].(subjects := patched)];
        } else {
          bindings := bindings[site := RoleBinding(roleKind, roleName, {subject})];
        }
      }
    }

    /** A missing binding is no error. */
    method RevokeRole(username: string, roleName: string, namespace: Option<string>)
      modifies this
      ensures RevokedFrom(namespace) == if namespace.None? then Everywhere else Within(namespace.value)
      ensures bindings == old(bindings) - {(RevokedFrom(namespace), "clustervision-" + username + "-" + roleName)}
    {
      var name := BindingWalk.PermanentName(username, roleName);
      if namespace.None? {
        bindings := bindings - {(Everywhere, name)};
      } else {
        bindings := bindings - {(Within(namespace.value), name)};
      }
    }
  }

  /** Revoking with the namespace of the assignment removes its binding, except for a Role assigned
      without a namespace, which went to `default`, and for an empty namespace. */
  lemma RevokeFindsAssignmentIff(roleKind: RoleKind, namespace: Option<string>)
    ensures RevokedFrom(namespace) == AssignedTo(roleKind, namespace)
            <==> (namespace.None? && roleKind.ClusterRole?) || (namespace.Some? && namespace.value != "")
  {
  }

  /** A user and a role lost in the other pair's name: `v` goes on where `u` ends, with a dash
      between, and `r` begins with what `v` has more. */
  predicate Shifted(u: string, r: string, v: string, s: string) {
    && BindingWalk.StartsWith(v, u + "-")
    && r == v[|u| + 1..] + "-" + s
  }

  /** Two assignments share a binding name exactly if they are the same or one is the other shifted. */
  lemma SameNameIff(u: string, r: string, v: string, s: string)
    ensures BindingWalk.PermanentName(u, r) == BindingWalk.PermanentName(v, s)
            <==> (u == v && r == s) || Shifted(u, r, v, s) || Shifted(v, s, u, r)
  {
    CommonPrefix(u + "-" + r, v + "-" + s);
    assert BindingWalk.PermanentName(u, r) == "clustervision-" + (u + "-" + r);
    assert BindingWalk.PermanentName(v, s) == "clustervision-" + (v + "-" + s);
    SplitAtDash(u, r, v, s);
    SplitAtDash(v, s, u, r);
  }

  lemma CommonPrefix(a: string, b: string)
    ensures "clustervision-" + a == "clustervision-" + b <==> a == b
  {
    assert a == ("clustervision-" + a)[|"clustervision-"|..] && b == ("clustervision-" + b)[|"clustervision-"|..];
  }

  lemma SplitAtDash(u: string, r: string, v: string, s: string)
    ensures |u| == |v| && u + "-" + r == v + "-" + s ==> u == v && r == s
    ensures |u| < |v| ==> (u + "-" + r == v + "-" + s <==> Shifted(u, r, v, s))
  {
    var a, b := u + "-" + r, v + "-" + s;
    if a == b && |u| == |v| {
      assert u == a[..|u|] && v == b[..|v|] && r == a[|u| + 1..] && s == b[|v| + 1..];
    }
    if |u| < |v| {
      assert a[..|u| + 1] == u + "-" && a[|u| + 1..] == r;
      assert b[..|u| + 1] == v[..|u| + 1] && b[|u| + 1..] == v[|u| + 1..] + "-" + s;
      assert a == a[..|u| + 1] + a[|u| + 1..] && b == b[..|u| + 1] + b[|u| + 1..];
    }
  }
}
