/** Walking a paged listing of bindings, and deleting a user's bindings during the walk. */
module BindingWalk {
  import opened Common
  import JitProtocol

  // ── The order in which the API server lists its objects ───────────────────────────────

  predicate Less(a: string, b: string) {
    if b == "" then false
    else if a == "" then true
    else a[0] < b[0] || (a[0] == b[0] && Less(a[1..], b[1..]))
  }

  lemma {:induction false} LessTotal(a: string, b: string)
    ensures Less(a, b) || Less(b, a) || a == b
  {
    if a != "" && b != "" && a[0] == b[0] {
      LessTotal(a[1..], b[1..]);
      assert a == [a[0]] + a[1..] && b == [b[0]] + b[1..];
    }
  }

  lemma {:induction false} LessTransitive(a: string, b: string, c: string)
    requires Less(a, b) && Less(b, c)
    ensures Less(a, c)
  {
    if a != "" && a[0] == b[0] && b[0] == c[0] {
      LessTransitive(a[1..], b[1..], c[1..]);
    }
  }

  lemma {:induction false} LessIrreflexive(a: string)
    ensures !Less(a, a)
  {
    if a != "" {
      LessIrreflexive(a[1..]);
    }
  }

  predicate Ascending(s: seq<string>) {
    forall i, j | 0 <= i < j < |s| :: Less(s[i], s[j])
  }

  /** A non-empty set of paths has a least one. */
  lemma {:induction false} LeastExists(paths: set<string>) returns (least: string)
    requires paths != {}
    ensures least in paths && forall p <- paths :: p == least || Less(least, p)
    decreases |paths|
  {
    var p :| p in paths;
    if paths == {p} {
      least := p;
    } else {
      least := LeastExists(paths - {p});
      LessTotal(least, p);
      if Less(p, least) {
        forall q <- paths ensures q == p || Less(p, q) {
          if q != p && q != least { LessTransitive(p, least, q); }
        }
        least := p;
      }
    }
  }

  predicate IsLeast(paths: set<string>, least: string) {
    least in paths && forall p <- paths :: p == least || Less(least, p)
  }

  lemma LeastUnique(paths: set<string>)
    ensures paths != {} ==> exists p <- paths :: IsLeast(paths, p)
    ensures forall p, q | IsLeast(paths, p) && IsLeast(paths, q) :: p == q
  {
    if paths != {} {
      var p := LeastExists(paths);
      assert IsLeast(paths, p);
    }
    forall p, q | IsLeast(paths, p) && IsLeast(paths, q) ensures p == q {
      if p != q {
        LessTransitive(p, q, p);
        LessIrreflexive(p);
      }
    }
  }

  /** The paths in listing order. */
  function Sorted(paths: set<string>): (s: seq<string>)
    ensures |s| == |paths| && Ascending(s) && forall p :: p in s <==> p in paths
    decreases |paths|
  {
    if paths == {} then [] else
      LeastUnique(paths);
      var least :| least in paths && IsLeast(paths, least);
      var rest := Sorted(paths - {least});
      assert forall i | 0 <= i < |rest| :: rest[i] in rest;
      [least] + rest
  }

  /** `s` yields each of the paths exactly once, in listing order. */
  ghost predicate IsListing(s: seq<string>, paths: set<string>) {
    Ascending(s) && forall p :: p in s <==> p in paths
  }

  /** What is left to list after the continue token `cursor`. */
  function After(paths: set<string>, cursor: Option<string>): set<string> {
    set p | p in paths && (cursor.None? || Less(cursor.value, p))
  }

  function Min(a: nat, b: nat): nat {
    if a < b then a else b
  }

  /** One list call: at most `limit` paths after the cursor, in order. */
  function Page(paths: set<string>, cursor: Option<string>, limit: nat): seq<string> {
    var rest := Sorted(After(paths, cursor));
    rest[..Min(limit, |rest|)]
  }

  /** The continue token: the last path of the page, if the listing goes on after it. */
  function Continue(paths: set<string>, cursor: Option<string>, limit: nat): Option<string>
    requires limit > 0
  {
    var page := Page(paths, cursor, limit);
    if |page| == |After(paths, cursor)| then None else Some(page[|page| - 1])
  }

  /** A sequence in ascending order is determined by its elements. */
  lemma {:induction false} AscendingUnique(s: seq<string>, t: seq<string>)
    requires Ascending(s) && Ascending(t) && forall p :: p in s <==> p in t
    ensures s == t
  {
    assert t != [] ==> t[0] in t;
    if s != [] {
      assert s[0] in t && t != [] && t[0] in s;
      SameHead(s, t);
      TailElements(s);
      TailElements(t);
      AscendingUnique(s[1..], t[1..]);
      assert s == [s[0]] + s[1..] && t == [t[0]] + t[1..];
    }
  }

  lemma TailElements(s: seq<string>)
    requires Ascending(s) && s != []
    ensures forall p :: p in s[1..] <==> p in s && p != s[0]
  {
    LessIrreflexive(s[0]);
    assert s == [s[0]] + s[1..];
  }

  lemma SameHead(s: seq<string>, t: seq<string>)
    requires Ascending(s) && Ascending(t) && s != [] && t != [] && s[0] in t && t[0] in s
    ensures s[0] == t[0]
  {
    if s[0] != t[0] {
      var i :| 0 <= i < |t| && t[i] == s[0];
      var j :| 0 <= j < |s| && s[j] == t[0];
      LessTransitive(s[0], t[0], s[0]);
      LessIrreflexive(s[0]);
    }
  }

  // ── The walk while others change the listing ──────────────────────────────────────────

  /** The paths a walk yields when `stores[i]` is what the API server holds at its i-th list call,
      and whether it has come to the end. */
  ghost function Walk(stores: seq<set<string>>, cursor: Option<string>, limit: nat): (seq<string>, bool)
    requires limit > 0
  {
    if stores == [] then ([], false)
    else
      var page := Page(stores[0], cursor, limit);
      var next := Continue(stores[0], cursor, limit);
      if next.None? then (page, true)
      else
        var rest := Walk(stores[1..], next, limit);
        (page + rest.0, rest.1)
  }

  predicate AllAfter(s: seq<string>, cursor: Option<string>) {
    forall i | 0 <= i < |s| :: cursor.None? || Less(cursor.value, s[i])
  }

  /** However others add and delete between the calls, no path is yielded twice. */
  lemma {:induction false} WalkAscends(stores: seq<set<string>>, cursor: Option<string>, limit: nat)
    requires limit > 0
    ensures Ascending(Walk(stores, cursor, limit).0) && AllAfter(Walk(stores, cursor, limit).0, cursor)
  {
    if stores != [] {
      var page := Page(stores[0], cursor, limit);
      PageAfter(stores[0], cursor, limit);
      var next := Continue(stores[0], cursor, limit);
      if next.Some? {
        WalkAscends(stores[1..], next, limit);
        JoinAscending(page, Walk(stores[1..], next, limit).0, cursor);
      }
    }
  }

  lemma PageAfter(paths: set<string>, cursor: Option<string>, limit: nat)
    requires limit > 0
    ensures AllAfter(Page(paths, cursor, limit), cursor) && Ascending(Page(paths, cursor, limit))
    ensures forall p <- Page(paths, cursor, limit) :: p in paths
  {
    var rest := Sorted(After(paths, cursor));
    forall i | 0 <= i < |rest| ensures rest[i] in After(paths, cursor) { assert rest[i] in rest; }
  }

  lemma JoinAscending(page: seq<string>, rest: seq<string>, cursor: Option<string>)
    requires page != [] && Ascending(page) && Ascending(rest) && AllAfter(page, cursor)
    requires AllAfter(rest, Some(page[|page| - 1]))
    ensures Ascending(page + rest) && AllAfter(page + rest, cursor)
  {
    var last := page[|page| - 1];
    forall i, j | 0 <= i < |page| && 0 <= j < |rest| ensures Less(page[i], rest[j]) {
      if i < |page| - 1 { LessTransitive(page[i], last, rest[j]); }
    }
    forall j | 0 <= j < |rest| ensures cursor.None? || Less(cursor.value, rest[j]) {
      if cursor.Some? { LessTransitive(cursor.value, last, rest[j]); }
    }
  }

  /** A finished walk has yielded every path that was there at each of its list calls. */
  lemma {:induction false} WalkComplete(stores: seq<set<string>>, cursor: Option<string>, limit: nat, path: string)
    requires limit > 0 && Walk(stores, cursor, limit).1
    requires (forall i | 0 <= i < |stores| :: path in stores[i]) && (cursor.None? || Less(cursor.value, path))
    ensures path in Walk(stores, cursor, limit).0
  {
    var rest := Sorted(After(stores[0], cursor));
    var page := Page(stores[0], cursor, limit);
    var next := Continue(stores[0], cursor, limit);
    assert path in rest;
    var i :| 0 <= i < |rest| && rest[i] == path;
    if i < |page| {
      assert page[i] == path;
    } else {
      assert Less(page[|page| - 1], path);
      WalkComplete(stores[1..], next, limit, path);
    }
  }

  lemma WalkParts(stores: seq<set<string>>, cursor: Option<string>, limit: nat, path: string)
    requires limit > 0 && path in Walk(stores, cursor, limit).0
    ensures stores != []
    ensures path in Page(stores[0], cursor, limit)
            || path in Walk(stores[1..], Continue(stores[0], cursor, limit), limit).0
  {
    hide Page, Continue;
  }

  /** And nothing but what was there at one of its list calls. */
  lemma {:induction false} WalkSound(stores: seq<set<string>>, cursor: Option<string>, limit: nat, path: string)
    returns (i: nat)
    requires limit > 0 && path in Walk(stores, cursor, limit).0
    ensures i < |stores| && path in stores[i]
  {
    hide Walk, Page, Continue;
    WalkParts(stores, cursor, limit, path);
    if path in Page(stores[0], cursor, limit) {
      PageAfter(stores[0], cursor, limit);
      i := 0;
    } else {
      var j := WalkSound(stores[1..], Continue(stores[0], cursor, limit), limit, path);
      i := j + 1;
    }
  }

  /** A list call answers with `limit` paths, or all that are left if those are fewer, and a token if
      there are more. */
  lemma PageFills(paths: set<string>, cursor: Option<string>, limit: nat)
    requires limit > 0
    ensures var left := |After(paths, cursor)|;
            && |Page(paths, cursor, limit)| == (if left <= limit then left else limit)
            && (Continue(paths, cursor, limit).None? <==> left <= limit)
  {
  }

  /** One name is listed before another if it is a proper prefix of it or has the smaller character
      where they first differ. */
  lemma {:induction false} LessIsLexicographic(a: string, b: string, i: nat)
    requires i <= |a| && i <= |b| && a[..i] == b[..i] && (i == |a| || i == |b| || a[i] != b[i])
    ensures Less(a, b) <==> i < |b| && (i == |a| || a[i] < b[i])
  {
    if i > 0 {
      assert a[0] == a[..i][0] && b[0] == b[..i][0];
      assert a[1..][..i - 1] == a[..i][1..] && b[1..][..i - 1] == b[..i][1..];
      LessIsLexicographic(a[1..], b[1..], i - 1);
    }
  }

  // ── Deleting a user's bindings ────────────────────────────────────────────────────────

  predicate StartsWith(s: string, prefix: string) {
    |prefix| <= |s| && s[..|prefix|] == prefix
  }

  /** A binding as the walk yields it; the namespace of a ClusterRoleBinding is empty. */
  datatype Entry = Entry(namespace: string, name: string)

  const PAGE_SIZE: nat := 500

  /** One listable collection of the API server, keyed by path. */
  class Collection {
    var items: map<string, Entry>

    constructor (items: map<string, Entry>)
      ensures this.items == items
    {
      this.items := items;
    }

    method Delete(path: string) returns (found: bool)
      modifies this
      ensures items == old(items) - {path} && found == (path in old(items))
    {
      found := path in items;
      items := items - {path};
    }

    /** The consumer's side of one page: deletes each matching binding as it is yielded. */
    method DeletePage(page: seq<string>, prefix: string, ghost was: map<string, Entry>, ghost visited: seq<string>)
      requires items == Remaining(was, visited, prefix)
      requires forall i | 0 <= i < |page| :: page[i] in was && page[i] !in visited + page[..i]
      modifies this
      ensures items == Remaining(was, visited + page, prefix)
    {
      for i := 0 to |page|
        invariant items == Remaining(was, visited + page[..i], prefix)
      {
        VisitOne(was, visited + page[..i], page[i], prefix);
        assert visited + page[..i] + [page[i]] == visited + page[..i + 1];
        if StartsWith(items[page[i]].name, prefix) {
          var _ := Delete(page[i]);
        }
      }
      assert page[..|page|] == page;
    }

    /** Follows the continue tokens, deleting the matching bindings of each page. */
    method DeleteWithPrefix(prefix: string, pageSize: nat) returns (visited: seq<string>)
      requires pageSize > 0
      modifies this
      ensures items == WithoutPrefix(old(items), prefix)
      ensures forall p :: p in items <==> p in old(items) && !(prefix <= old(items)[p].name)
      ensures forall p <- items :: items[p] == old(items)[p]
      ensures IsListing(visited, old(items).Keys)
    {
      hide Remaining, WithoutPrefix, IsPage, Ascending, After;
      ghost var was := items;
      ghost var all := ListingOf(was.Keys);
      var cursor: Option<string> := None;
      visited := [];
      NothingVisited(was, prefix);
      while true
        invariant Seen(all, visited, cursor)
        invariant items == Remaining(was, visited, prefix)
        decreases |all| - |visited|
      {
        var page, next := ListCall(pageSize, cursor);
        ghost var k := |visited|;
        RestListed(was, items, all, k, prefix);
        PageOfListing(items.Keys, cursor, pageSize, all[k..], page, next);
        NextStretch(all, k, page, was.Keys);
        DeletePage(page, prefix, was, visited);
        visited := visited + page;
        if next.None? {
          break;
        }
        cursor := next;
      }
      assert visited == all;
      AllVisited(was, all, prefix);
      WithoutPrefixIs(was, prefix);
    }

    /** The API server's list call. */
    method ListCall(limit: nat, cursor: Option<string>) returns (page: seq<string>, next: Option<string>)
      requires limit > 0
      ensures IsPage(items.Keys, cursor, limit, page, next)
    {
      page, next := Page(items.Keys, cursor, limit), Continue(items.Keys, cursor, limit);
    }
  }

  predicate IsPage(paths: set<string>, cursor: Option<string>, limit: nat, page: seq<string>, next: Option<string>)
    requires limit > 0
  {
    page == Page(paths, cursor, limit) && next == Continue(paths, cursor, limit)
  }

  /** What the walk has yielded so far, and where it stands. */
  predicate Seen(all: seq<string>, visited: seq<string>, cursor: Option<string>) {
    && |visited| <= |all| && visited == all[..|visited|]
    && cursor == if visited == [] then None else Some(visited[|visited| - 1])
  }

  lemma ListingOf(paths: set<string>) returns (all: seq<string>)
    ensures IsListing(all, paths)
  {
    all := Sorted(paths);
  }

  lemma PageOfListing(paths: set<string>, cursor: Option<string>, limit: nat, rest: seq<string>,
                      page: seq<string>, next: Option<string>)
    requires limit > 0 && IsListing(rest, After(paths, cursor)) && IsPage(paths, cursor, limit, page, next)
    ensures |page| <= |rest| && page == rest[..|page|]
    ensures if next.None? then page == rest else page != [] && next == Some(page[|page| - 1])
  {
    AscendingUnique(rest, Sorted(After(paths, cursor)));
  }

  /** A page is the next stretch of the whole listing, none of it seen before. */
  lemma NextStretch(all: seq<string>, k: nat, page: seq<string>, paths: set<string>)
    requires IsListing(all, paths) && k + |page| <= |all| && page == all[k..][..|page|]
    ensures all[..k] + page == all[..k + |page|]
    ensures forall i | 0 <= i < |page| :: page[i] in paths && page[i] !in all[..k] + page[..i]
  {
    forall i | 0 <= i < |page| ensures page[i] in paths && page[i] !in all[..k] + page[..i] {
      NotYetVisited(all, k + i);
      assert all[..k + i] == all[..k] + page[..i];
      assert all[k + i] in all;
    }
  }

  /** Visiting one more path deletes just that one, if it matches. */
  lemma VisitOne(was: map<string, Entry>, visited: seq<string>, path: string, prefix: string)
    requires path in was && path !in visited
    ensures path in Remaining(was, visited, prefix) && Remaining(was, visited, prefix)[path] == was[path]
    ensures Remaining(was, visited + [path], prefix)
            == if StartsWith(was[path].name, prefix) then Remaining(was, visited, prefix) - {path}
                else Remaining(was, visited, prefix)
  {
    assert forall p :: p in visited + [path] <==> p in visited || p == path;
  }

  lemma NotYetVisited(all: seq<string>, k: nat)
    requires Ascending(all) && k < |all|
    ensures all[k] !in all[..k]
  {
    LessIrreflexive(all[k]);
  }

  lemma SplitAscending(all: seq<string>, k: nat, p: string)
    requires Ascending(all) && 0 < k <= |all| && p in all
    ensures p in all[k..] <==> Less(all[k - 1], p)
    ensures p in all[k..] <==> p !in all[..k]
  {
    var i :| 0 <= i < |all| && all[i] == p;
    LessIrreflexive(p);
    if i < k {
      assert all[..k][i] == p;
      if i < k - 1 && Less(all[k - 1], p) { LessTransitive(p, all[k - 1], p); }
    } else {
      assert all[k..][i - k] == p;
    }
  }

  /** The listing after the `k`-th path is the rest of the listing, whatever was deleted before it. */
  lemma RestListed(was: map<string, Entry>, items: map<string, Entry>, all: seq<string>, k: nat, prefix: string)
    requires IsListing(all, was.Keys) && k <= |all| && items == Remaining(was, all[..k], prefix)
    ensures IsListing(all[k..], After(items.Keys, if k == 0 then None else Some(all[k - 1])))
  {
    var cursor := if k == 0 then None else Some(all[k - 1]);
    forall p ensures p in After(items.Keys, cursor) <==> p in all[k..] {
      if k > 0 && p in was { SplitAscending(all, k, p); }
      assert all == all[..k] + all[k..];
    }
  }

  lemma NothingVisited(was: map<string, Entry>, prefix: string)
    ensures Remaining(was, [], prefix) == was
  {
  }

  lemma AllVisited(was: map<string, Entry>, all: seq<string>, prefix: string)
    requires IsListing(all, was.Keys)
    ensures Remaining(was, all, prefix) == WithoutPrefix(was, prefix)
  {
  }

  function WithoutPrefix(items: map<string, Entry>, prefix: string): map<string, Entry> {
    map p | p in items && !StartsWith(items[p].name, prefix) :: items[p]
  }

  lemma WithoutPrefixIs(items: map<string, Entry>, prefix: string)
    ensures forall p :: p in WithoutPrefix(items, prefix) <==> p in items && !(prefix <= items[p].name)
    ensures forall p <- WithoutPrefix(items, prefix) :: WithoutPrefix(items, prefix)[p] == items[p]
  {
  }

  /** What is left of a collection when the visited matching paths are gone. */
  function Remaining(was: map<string, Entry>, visited: seq<string>, prefix: string): map<string, Entry> {
    map p | p in was && !(p in visited && StartsWith(was[p].name, prefix)) :: was[p]
  }

  /** `delete_user_bindings`: the cluster-wide bindings, then the namespaced ones. */
  class RbacService {
    const clusterRoleBindings: Collection
    const roleBindings: Collection

    constructor (clusterRoleBindings: Collection, roleBindings: Collection)
      ensures this.clusterRoleBindings == clusterRoleBindings && this.roleBindings == roleBindings
    {
      this.clusterRoleBindings := clusterRoleBindings;
      this.roleBindings := roleBindings;
    }

    method DeleteUserBindings(username: string)
      requires clusterRoleBindings != roleBindings
      modifies clusterRoleBindings, roleBindings
      ensures clusterRoleBindings.items == WithoutPrefix(old(clusterRoleBindings.items), UserPrefix(username))
      ensures roleBindings.items == WithoutPrefix(old(roleBindings.items), UserPrefix(username))
      ensures forall p ::
                p in clusterRoleBindings.items <==>
                && p in old(clusterRoleBindings.items)
                && !("clustervision-" + username + "-" <= old(clusterRoleBindings.items)[p].name)
      ensures forall p ::
                p in roleBindings.items <==>
                && p in old(roleBindings.items)
                && !("clustervision-" + username + "-" <= old(roleBindings.items)[p].name)
    {
      var _ := clusterRoleBindings.DeleteWithPrefix(UserPrefix(username), PAGE_SIZE);
      var _ := roleBindings.DeleteWithPrefix(UserPrefix(username), PAGE_SIZE);
    }
  }

  function UserPrefix(username: string): string {
    "clustervision-" + username + "-"
  }

  /** The name `assign_role` gives a permanent binding. */
  function PermanentName(username: string, role: string): string {
    "clustervision-" + username + "-" + role
  }

  lemma PrefixCancels(common: string, s: string, prefix: string)
    ensures StartsWith(common + s, common + prefix) <==> StartsWith(s, prefix)
  {
    if |prefix| <= |s| {
      assert (common + s)[..|common + prefix|] == common + s[..|prefix|];
      assert common + s[..|prefix|] == common + prefix ==> s[..|prefix|] == prefix by {
        if common + s[..|prefix|] == common + prefix {
          assert s[..|prefix|] == (common + s[..|prefix|])[|common|..];
          assert prefix == (common + prefix)[|common|..];
        }
      }
    }
  }

  /** Deleting user `u`'s bindings hits a permanent binding of user `v` exactly if the names are equal,
      or `v` goes on where `u` and a dash end, or `u` goes on where `v` and a dash end and the role with
      what follows there and a dash. */
  lemma HitIff(u: string, v: string, role: string)
    ensures StartsWith(PermanentName(v, role), UserPrefix(u)) <==>
            || v == u || StartsWith(v, u + "-")
            || (StartsWith(u, v + "-") && StartsWith(role, u[|v| + 1..] + "-"))
  {
    var whole := v + "-" + role;
    assert PermanentName(v, role) == "clustervision-" + whole && UserPrefix(u) == "clustervision-" + (u + "-");
    PrefixCancels("clustervision-", whole, u + "-");
    if |u| == |v| {
      assert whole[..|u| + 1] == v + "-" && (u + "-")[..|u|] == u && (v + "-")[..|u|] == v;
    } else if |u| < |v| {
      assert whole[..|u| + 1] == v[..|u| + 1];
    } else {
      LongerNameHits(u, v, role);
    }
  }

  lemma LongerNameHits(u: string, v: string, role: string)
    requires |u| > |v|
    ensures StartsWith(v + "-" + role, u + "-")
            <==> StartsWith(u, v + "-") && StartsWith(role, u[|v| + 1..] + "-")
  {
    var whole := v + "-" + role;
    if StartsWith(whole, u + "-") {
      assert u[..|v| + 1] == (u + "-")[..|v| + 1] == whole[..|u| + 1][..|v| + 1] == v + "-";
    }
    if u[..|v| + 1] == v + "-" {
      assert u + "-" == (v + "-") + (u[|v| + 1..] + "-");
      PrefixCancels(v + "-", role, u[|v| + 1..] + "-");
    }
  }

  /** So it hits bindings of related names only. */
  lemma HitsOnlyRelatedNames(u: string, v: string, role: string)
    requires StartsWith(PermanentName(v, role), UserPrefix(u))
    ensures v == u || StartsWith(v, u + "-") || StartsWith(u, v + "-")
  {
    HitIff(u, v, role);
  }

  /** And for each such pair of names there is a role whose binding is hit. */
  lemma RelatedNamesAreHit(u: string, v: string) returns (role: string)
    requires v == u || StartsWith(v, u + "-") || StartsWith(u, v + "-")
    ensures StartsWith(PermanentName(v, role), UserPrefix(u))
  {
    role := if StartsWith(u, v + "-") then u[|v| + 1..] + "-view" else "view";
    assert StartsWith(u, v + "-") ==> role[..|u[|v| + 1..] + "-"|] == u[|v| + 1..] + "-";
    HitIff(u, v, role);
  }

  /** A JIT binding goes with a user's bindings exactly for the user `jit`, and for a user `jit-` and
      more where the request's identifier goes on as the name does. */
  lemma JitBindingsSpared(u: string, id: string)
    ensures StartsWith(JitProtocol.BindingName(id), UserPrefix(u)) <==>
            u == "jit" || (StartsWith(u, "jit-") && StartsWith(id, u[4..] + "-"))
  {
    var whole := "jit-" + id;
    assert JitProtocol.BindingName(id) == "clustervision-" + whole && UserPrefix(u) == "clustervision-" + (u + "-");
    PrefixCancels("clustervision-", whole, u + "-");
    if |u| < 3 {
      assert |u| + 1 <= |whole| ==> whole[..|u| + 1][|u|] == "jit-"[|u|] && (u + "-")[|u|] == '-';
    } else if |u| == 3 {
      assert whole[..4] == "jit-" && (u + "-")[..3] == u && "jit-"[..3] == "jit";
    } else {
      AfterJit(u, id);
    }
  }

  lemma AfterJit(u: string, id: string)
    requires |u| > 3
    ensures StartsWith("jit-" + id, u + "-") <==> StartsWith(u, "jit-") && StartsWith(id, u[4..] + "-")
  {
    if StartsWith("jit-" + id, u + "-") {
      assert u[..4] == (u + "-")[..4] == ("jit-" + id)[..|u| + 1][..4] == "jit-";
    }
    if u[..4] == "jit-" {
      assert u + "-" == "jit-" + (u[4..] + "-");
      PrefixCancels("jit-", id, u[4..] + "-");
    }
  }
}
