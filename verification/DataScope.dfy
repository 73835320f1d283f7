/** Which departments a user may see: the fold over role scopes and the worklist over active children. */
module DataScope {

  datatype Kind = Organization | Self | Department | DepartmentTree | Custom | Invalid

  /** A role's scope, with the departments a CUSTOM role lists. */
  datatype Role = Role(kind: Kind, listed: set<string>)

  datatype Dept = Dept(id: string, parent: string, active: bool)

  datatype Scope = Scope(organizationWide: bool, self: bool, departments: set<string>)

  datatype Result = Ok(scope: Scope) | Err

  // ------------------------------------------------------------------ reachability

  predicate Child(ds: seq<Dept>, p: string, c: string) {
    p != "" && exists i :: 0 <= i < |ds| && ds[i].active && ds[i].parent == p && ds[i].id == c
  }

  /** A walk down active children that starts in `own` and never enters a blocked department. */
  ghost predicate Path(ds: seq<Dept>, own: set<string>, blocked: set<string>, path: seq<string>) {
    && path != [] && path[0] in own
    && (forall i :: 0 < i < |path| ==> Child(ds, path[i - 1], path[i]) && path[i] !in blocked)
  }

  ghost predicate Reach(ds: seq<Dept>, own: set<string>, blocked: set<string>, x: string) {
    exists path :: Path(ds, own, blocked, path) && path[|path| - 1] == x
  }

  lemma ReachOwn(ds: seq<Dept>, own: set<string>, blocked: set<string>, x: string)
    requires x in own
    ensures Reach(ds, own, blocked, x)
  {
    assert Path(ds, own, blocked, [x]) && [x][0] == x;
  }

  lemma ReachChild(ds: seq<Dept>, own: set<string>, blocked: set<string>, x: string, y: string)
    requires Reach(ds, own, blocked, x) && Child(ds, x, y) && y !in blocked
    ensures Reach(ds, own, blocked, y)
  {
    var path :| Path(ds, own, blocked, path) && path[|path| - 1] == x;
    var longer := path + [y];
    assert Path(ds, own, blocked, longer) && longer[|longer| - 1] == y;
  }

  /** Anything closed under unblocked children contains everything that is reachable. */
  lemma {:induction false} ClosedContains(ds: seq<Dept>, own: set<string>, blocked: set<string>, s: set<string>, path: seq<string>)
    requires Path(ds, own, blocked, path) && own <= s
    requires forall x, y :: x in s && Child(ds, x, y) && y !in blocked ==> y in s
    ensures path[|path| - 1] in s
    decreases |path|
  {
    var n := |path| - 1;
    if n > 0 {
      assert Path(ds, own, blocked, path[..n]) by {
        forall i | 0 < i < n ensures Child(ds, path[..n][i - 1], path[..n][i]) && path[..n][i] !in blocked {
          assert Child(ds, path[i - 1], path[i]);
        }
      }
      ClosedContains(ds, own, blocked, s, path[..n]);
      assert Child(ds, path[n - 1], path[n]);
    }
  }

  // ------------------------------------------------------------------ the worklist

  function ChildrenOf(ds: seq<Dept>): map<string, seq<string>> {
    if ds == [] then map[]
    else
      var d, rest := ds[|ds| - 1], ChildrenOf(ds[..|ds| - 1]);
      if d.active && d.parent != "" then rest[d.parent := At(rest, d.parent) + [d.id]] else rest
  }

  function At(m: map<string, seq<string>>, p: string): seq<string> {
    if p in m then m[p] else []
  }

  lemma {:induction false} ChildrenAreChildren(ds: seq<Dept>, p: string, c: string)
    ensures c in At(ChildrenOf(ds), p) <==> Child(ds, p, c)
  {
    if ds != [] {
      var n := |ds| - 1;
      ChildrenAreChildren(ds[..n], p, c);
      assert Child(ds[..n], p, c) ==> Child(ds, p, c) by {
        if Child(ds[..n], p, c) {
          var i :| 0 <= i < n && ds[..n][i].active && ds[..n][i].parent == p && ds[..n][i].id == c;
          assert ds[i] == ds[..n][i];
        }
      }
    }
  }

  /** Everything found was there, is expanded or waits; what is expanded or waits is reachable; the own
  departments are among them; and expanded departments have all their children found. */
  ghost predicate Working(ds: seq<Dept>, mine: set<string>, initial: set<string>,
                          found: set<string>, pending: seq<string>, expanded: set<string>) {
    && mine <= initial <= found
    && (forall x :: x in found ==> x in initial || x in expanded || x in pending)
    && (forall x :: x in expanded || x in pending ==> x in found && Reach(ds, mine, initial - mine, x))
    && (forall x :: x in mine ==> x in expanded || x in pending)
    && (forall x :: x in expanded ==> ChildrenFound(ds, x, found))
  }

  ghost predicate ChildrenFound(ds: seq<Dept>, x: string, found: set<string>) {
    forall y :: Child(ds, x, y) ==> y in found
  }

  /** What expanding one department does to the set and the worklist. */
  ghost predicate Expanded(ds: seq<Dept>, mine: set<string>, blocked: set<string>, current: string,
                           found: set<string>, pending: seq<string>, found': set<string>, pending': seq<string>) {
    && found <= found' && ChildrenFound(ds, current, found')
    && (forall x :: x in found' ==> x in found || x in pending')
    && (forall x :: x in pending ==> x in pending')
    && (forall x :: x in pending' ==> x in pending || (x in found' && Reach(ds, mine, blocked, x)))
  }

  lemma WorkStep(ds: seq<Dept>, mine: set<string>, initial: set<string>, found: set<string>, all: seq<string>,
                 expanded: set<string>, found': set<string>, pending': seq<string>)
    requires all != [] && Working(ds, mine, initial, found, all, expanded)
    requires Expanded(ds, mine, initial - mine, all[|all| - 1], found, all[..|all| - 1], found', pending')
    ensures Working(ds, mine, initial, found', pending', expanded + {all[|all| - 1]})
  {
    var current, pending := all[|all| - 1], all[..|all| - 1];
    assert all == pending + [current];
    forall x | x in expanded ensures ChildrenFound(ds, x, found') { assert ChildrenFound(ds, x, found); }
  }

  lemma WorkDone(ds: seq<Dept>, mine: set<string>, initial: set<string>, found: set<string>, expanded: set<string>, x: string)
    requires Working(ds, mine, initial, found, [], expanded)
    ensures x in found <==> x in initial || Reach(ds, mine, initial - mine, x)
  {
    var blocked := initial - mine;
    if Reach(ds, mine, blocked, x) {
      var path :| Path(ds, mine, blocked, path) && path[|path| - 1] == x;
      forall p, y | p in expanded && Child(ds, p, y) && y !in blocked ensures y in expanded {
        assert ChildrenFound(ds, p, found);
      }
      ClosedContains(ds, mine, blocked, expanded, path);
    }
  }

  /** Expands the worklist until it is empty: the result is what was there plus everything reachable from
  `own` without entering a department that was there already and is not own. */
  method ExpandTree(ds: seq<Dept>, own: seq<string>, initial: set<string>) returns (found: set<string>)
    requires forall x :: x in own ==> x in initial
    ensures var mine := set x | x in own;
            forall x :: x in found <==> x in initial || Reach(ds, mine, initial - mine, x)
  {
    var children := Index(ds);
    ghost var mine := set x | x in own;
    ghost var ids := set i | 0 <= i < |ds| :: ds[i].id;
    found := initial;
    var pending := own;
    ghost var expanded: set<string> := {};
    forall x | x in mine ensures Reach(ds, mine, initial - mine, x) { ReachOwn(ds, mine, initial - mine, x); }
    while |pending| > 0
      invariant Working(ds, mine, initial, found, pending, expanded)
      decreases ids - found, |pending|
    {
      var current := pending[|pending| - 1];
      var rest := pending[..|pending| - 1];
      ghost var before := found;
      var found', pending' := ExpandOne(ds, children, current, mine, initial - mine, found, rest);
      WorkStep(ds, mine, initial, found, pending, expanded, found', pending');
      found, pending, expanded := found', pending', expanded + {current};
      assert ids - found <= ids - before;
    }
    forall x ensures x in found <==> x in initial || Reach(ds, mine, initial - mine, x) {
      WorkDone(ds, mine, initial, found, expanded, x);
    }
  }

  method Index(ds: seq<Dept>) returns (children: map<string, seq<string>>)
    ensures children == ChildrenOf(ds)
  {
    children := map[];
    for i := 0 to |ds|
      invariant children == ChildrenOf(ds[..i])
    {
      assert ds[..i + 1][..i] == ds[..i];
      var d := ds[i];
      if d.active && d.parent != "" {
        children := children[d.parent := At(children, d.parent) + [d.id]];
      }
    }
    assert ds[..|ds|] == ds;
  }

  /** Adds the children that are new to the set and to the worklist. */
  method ExpandOne(ds: seq<Dept>, children: map<string, seq<string>>, current: string, ghost mine: set<string>,
                   ghost blocked: set<string>, found: set<string>, pending: seq<string>)
    returns (found': set<string>, pending': seq<string>)
    requires children == ChildrenOf(ds) && Reach(ds, mine, blocked, current) && blocked <= found
    ensures Expanded(ds, mine, blocked, current, found, pending, found', pending')
    ensures pending' == pending || exists x :: x in found' && x !in found && x in set i | 0 <= i < |ds| :: ds[i].id
  {
    found', pending' := found, pending;
    var kids := At(children, current);
    for i := 0 to |kids|
      invariant found <= found' && forall c :: c in kids[..i] ==> c in found'
      invariant forall x :: x in found' ==> x in found || x in pending'
      invariant forall x :: x in pending ==> x in pending'
      invariant forall x :: x in pending' ==> x in pending || (x in found' && Reach(ds, mine, blocked, x))
      invariant pending' == pending || exists x :: x in found' && x !in found && x in set i | 0 <= i < |ds| :: ds[i].id
    {
      var child := kids[i];
      if child !in found' {
        ChildrenAreChildren(ds, current, child);
        ReachChild(ds, mine, blocked, current, child);
        found' := found' + {child};
        pending' := pending' + [child];
      }
    }
    forall y | Child(ds, current, y) ensures y in found' { ChildrenAreChildren(ds, current, y); }
  }

  // ------------------------------------------------------------------ the fold over roles

  predicate Has(roles: seq<Role>, kind: Kind) {
    exists i :: 0 <= i < |roles| && roles[i].kind == kind
  }

  /** The departments that CUSTOM roles list. */
  function Listed(roles: seq<Role>): set<string> {
    set i, x | 0 <= i < |roles| && roles[i].kind == Custom && x in roles[i].listed :: x
  }

  /** An unknown scope is an error unless an ORGANIZATION role came first. */
  predicate Fails(roles: seq<Role>) {
    exists i :: 0 <= i < |roles| && roles[i].kind == Invalid && forall j :: 0 <= j < i ==> roles[j].kind != Organization
  }

  /** The departments a set of roles opens. */
  ghost predicate Visible(roles: seq<Role>, own: set<string>, ds: seq<Dept>, x: string) {
    || x in Listed(roles)
    || ((Has(roles, Department) || Has(roles, DepartmentTree)) && x in own)
    || (Has(roles, DepartmentTree) && Reach(ds, own, Listed(roles) - own, x))
  }

  ghost predicate IsScope(roles: seq<Role>, own: set<string>, ds: seq<Dept>, s: Scope) {
    if Has(roles, Organization) then s == Scope(true, false, {})
    else
      && !s.organizationWide
      && (s.self <==> roles == [] || Has(roles, Self))
      && (forall x :: x in s.departments <==> Visible(roles, own, ds, x))
  }

  method DataScopeForUser(roles: seq<Role>, own: seq<string>, ds: seq<Dept>) returns (r: Result)
    ensures r.Err? <==> Fails(roles)
    ensures r.Ok? ==> IsScope(roles, (set x | x in own), ds, r.scope)
    ensures r.Err? <==> exists i ::
      0 <= i < |roles| && roles[i].kind == Invalid && forall j :: 0 <= j < i ==> roles[j].kind != Organization
    ensures r.Ok? && (exists i :: 0 <= i < |roles| && roles[i].kind == Organization) ==> r.scope == Scope(true, false, {})
    ensures r.Ok? && (forall i :: 0 <= i < |roles| ==> roles[i].kind != Organization) ==>
      && !r.scope.organizationWide
      && (r.scope.self <==> roles == [] || exists i :: 0 <= i < |roles| && roles[i].kind == Self)
      && (forall x :: x in r.scope.departments <==>
            || (exists i :: 0 <= i < |roles| && roles[i].kind == Custom && x in roles[i].listed)
            || (x in own && exists i :: 0 <= i < |roles| && roles[i].kind in {Department, DepartmentTree})
            || ((exists i :: 0 <= i < |roles| && roles[i].kind == DepartmentTree)
                && Reach(ds, (set y | y in own),
                         (set i, y | 0 <= i < |roles| && roles[i].kind == Custom && y in roles[i].listed && y !in own :: y), x)))
  {
    var self, needDepartment, needTree := false, false, false;
    var departments: set<string> := {};
    for i := 0 to |roles|
      invariant forall j :: 0 <= j < i ==> roles[j].kind != Organization && roles[j].kind != Invalid
      invariant self <==> Has(roles[..i], Self)
      invariant needDepartment <==> Has(roles[..i], Department) || Has(roles[..i], DepartmentTree)
      invariant needTree <==> Has(roles[..i], DepartmentTree)
      invariant departments == Listed(roles[..i])
    {
      TakeOne(roles, i);
      match roles[i].kind {
        case Organization =>
          assert roles[i].kind == Organization;
          return Ok(Scope(true, false, {}));
        case Self => self := true;
        case Department => needDepartment := true;
        case DepartmentTree => needDepartment, needTree := true, true;
        case Custom => departments := departments + roles[i].listed;
        case Invalid =>
          assert roles[i].kind == Invalid;
          return Err;
      }
    }
    assert roles[..|roles|] == roles;
    if |roles| == 0 {
      self := true;
    }
    if needDepartment {
      var listed := departments;
      ghost var mine := set x | x in own;
      departments := departments + (set x | x in own);
      if needTree && |own| > 0 {
        departments := ExpandTree(ds, own, departments);
        assert listed + mine - mine == Listed(roles) - mine;
      } else if needTree {
        assert mine == {};
        forall x ensures !Reach(ds, mine, Listed(roles) - mine, x) { NothingOwned(ds, Listed(roles), x); }
      }
    }
    assert Listed(roles) - (set y | y in own) ==
           set i, y | 0 <= i < |roles| && roles[i].kind == Custom && y in roles[i].listed && y !in own :: y;
    return Ok(Scope(false, self, departments));
  }

  lemma NothingOwned(ds: seq<Dept>, blocked: set<string>, x: string)
    ensures !Reach(ds, {}, blocked - {}, x)
  {
  }

  lemma TakeOne(roles: seq<Role>, i: nat)
    requires i < |roles|
    ensures forall k :: Has(roles[..i + 1], k) <==> Has(roles[..i], k) || roles[i].kind == k
    ensures Listed(roles[..i + 1]) == Listed(roles[..i]) + if roles[i].kind == Custom then roles[i].listed else {}
  {
    var a, b := roles[..i], roles[..i + 1];
    assert b[i] == roles[i] && forall j :: 0 <= j < i ==> b[j] == a[j];
    forall k ensures Has(b, k) <==> Has(a, k) || roles[i].kind == k {
      if Has(a, k) {
        var j :| 0 <= j < i && a[j].kind == k;
        assert b[j].kind == k;
      }
    }
  }

  // ------------------------------------------------------------------ what the result means

  ghost predicate SameRoles(a: seq<Role>, b: seq<Role>) {
    forall x :: x in a <==> x in b
  }

  lemma HasSame(a: seq<Role>, b: seq<Role>, k: Kind)
    requires SameRoles(a, b) && Has(a, k)
    ensures Has(b, k)
  {
    var i :| 0 <= i < |a| && a[i].kind == k;
    assert a[i] in b;
  }

  lemma ListedSame(a: seq<Role>, b: seq<Role>, x: string)
    requires SameRoles(a, b) && x in Listed(a)
    ensures x in Listed(b)
  {
    var i :| 0 <= i < |a| && a[i].kind == Custom && x in a[i].listed;
    assert a[i] in b;
    var j :| 0 <= j < |b| && b[j] == a[i];
  }

  /** The order of the roles, and repeated roles, make no difference. */
  lemma RoleOrderIsIrrelevant(a: seq<Role>, b: seq<Role>, own: set<string>, ds: seq<Dept>, s: Scope, t: Scope)
    requires SameRoles(a, b) && IsScope(a, own, ds, s) && IsScope(b, own, ds, t)
    ensures s == t
  {
    forall k ensures Has(a, k) <==> Has(b, k) {
      if Has(a, k) { HasSame(a, b, k); }
      if Has(b, k) { HasSame(b, a, k); }
    }
    forall x ensures x in Listed(a) <==> x in Listed(b) {
      if x in Listed(a) { ListedSame(a, b, x); }
      if x in Listed(b) { ListedSame(b, a, x); }
    }
    assert Listed(a) == Listed(b);
    assert a == [] <==> b == [] by {
      assert a != [] ==> a[0] in b;
      assert b != [] ==> b[0] in a;
    }
    if !Has(a, Organization) {
      assert s.departments == t.departments;
    }
  }

  /** Every active child of a listed department below an own one is listed or reachable itself. */
  ghost predicate NothingHidden(ds: seq<Dept>, own: set<string>, listed: set<string>) {
    forall c, y :: c in listed && c !in own && Reach(ds, own, {}, c) && Child(ds, c, y) ==>
      y in listed || Reach(ds, own, listed - own, y)
  }

  lemma {:induction false} DescendantsShown(ds: seq<Dept>, own: set<string>, listed: set<string>, path: seq<string>)
    requires NothingHidden(ds, own, listed) && Path(ds, own, {}, path)
    ensures path[|path| - 1] in listed || Reach(ds, own, listed - own, path[|path| - 1])
    decreases |path|
  {
    var n := |path| - 1;
    if n == 0 {
      ReachOwn(ds, own, listed - own, path[0]);
    } else {
      var p, x := path[n - 1], path[n];
      assert Path(ds, own, {}, path[..n]) && path[..n][n - 1] == p by {
        forall i | 0 < i < n ensures Child(ds, path[..n][i - 1], path[..n][i]) { assert Child(ds, path[i - 1], path[i]); }
      }
      DescendantsShown(ds, own, listed, path[..n]);
      assert Child(ds, p, x) && Reach(ds, own, {}, p);
      if p in own { ReachOwn(ds, own, listed - own, p); }
      if Reach(ds, own, listed - own, p) {
        if x !in listed - own { ReachChild(ds, own, listed - own, p, x); }
      }
    }
  }

  /** The worklist yields the full descendant closure of the own departments, besides the listed ones,
  exactly when nothing is hidden behind a listed department. */
  lemma FullClosureIffNothingHidden(ds: seq<Dept>, own: set<string>, listed: set<string>)
    ensures (forall x :: Reach(ds, own, {}, x) ==> x in listed || Reach(ds, own, listed - own, x))
            <==> NothingHidden(ds, own, listed)
  {
    if NothingHidden(ds, own, listed) {
      forall x | Reach(ds, own, {}, x) ensures x in listed || Reach(ds, own, listed - own, x) {
        var path :| Path(ds, own, {}, path) && path[|path| - 1] == x;
        DescendantsShown(ds, own, listed, path);
      }
    }
    if forall x :: Reach(ds, own, {}, x) ==> x in listed || Reach(ds, own, listed - own, x) {
      forall c, y | c in listed && c !in own && Reach(ds, own, {}, c) && Child(ds, c, y)
        ensures y in listed || Reach(ds, own, listed - own, y)
      {
        ReachChild(ds, own, {}, c, y);
      }
    }
  }

  predicate UniqueIds(ds: seq<Dept>) {
    forall i, j :: 0 <= i < j < |ds| ==> ds[i].id != ds[j].id
  }

  /** Every active child of a listed department strictly below an own one is itself listed or own. */
  ghost predicate ChildrenListed(ds: seq<Dept>, own: set<string>, listed: set<string>) {
    forall c, y :: c in listed && c !in own && Reach(ds, own, {}, c) && Child(ds, c, y) ==> y in listed || y in own
  }

  /** A department has one parent, so below a blocked one the search arrives only at own departments. */
  lemma OnlyThroughItsParent(ds: seq<Dept>, own: set<string>, blocked: set<string>, c: string, y: string)
    requires UniqueIds(ds) && Child(ds, c, y) && c in blocked && c !in own && Reach(ds, own, blocked, y)
    ensures y in own
  {
    var path :| Path(ds, own, blocked, path) && path[|path| - 1] == y;
    assert |path| > 1 ==> Child(ds, path[|path| - 2], path[|path| - 1]);
  }

  /** Department ids are unique. The worklist then yields the full descendant closure, besides the listed
  departments, if and only if every active child of a listed descendant is listed or own. */
  lemma FullClosureIffChildrenListed(ds: seq<Dept>, own: set<string>, listed: set<string>)
    requires UniqueIds(ds)
    ensures (forall x :: Reach(ds, own, {}, x) ==> x in listed || Reach(ds, own, listed - own, x))
            <==> ChildrenListed(ds, own, listed)
  {
    FullClosureIffNothingHidden(ds, own, listed);
    forall c, y | c in listed && c !in own && Reach(ds, own, {}, c) && Child(ds, c, y)
      ensures y in listed || y in own <==> y in listed || Reach(ds, own, listed - own, y)
    {
      if y in own { ReachOwn(ds, own, listed - own, y); }
      if Reach(ds, own, listed - own, y) { OnlyThroughItsParent(ds, own, listed - own, c, y); }
    }
  }

  /** In particular when no listed department lies strictly below an own one. */
  lemma NoListedDescendants(ds: seq<Dept>, own: set<string>, listed: set<string>)
    requires forall c :: c in listed && c !in own ==> !Reach(ds, own, {}, c)
    ensures NothingHidden(ds, own, listed)
  {
  }

  /** A listed child is never expanded: with `a` own, `b` listed below it and `c` below `b`, `c` is not
  visible although it is a descendant of `a`. */
  lemma ListedChildHidesItsSubtree()
    ensures var ds := [Dept("a", "", true), Dept("b", "a", true), Dept("c", "b", true)];
            Reach(ds, {"a"}, {}, "c") && "c" !in {"b"} && !Reach(ds, {"a"}, {"b"} - {"a"}, "c")
  {
    var ds := [Dept("a", "", true), Dept("b", "a", true), Dept("c", "b", true)];
    assert ds[1].id == "b" && ds[2].id == "c";
    ReachOwn(ds, {"a"}, {}, "a");
    ReachChild(ds, {"a"}, {}, "a", "b");
    ReachChild(ds, {"a"}, {}, "b", "c");
    var blocked := {"b"} - {"a"};
    if Reach(ds, {"a"}, blocked, "c") {
      var path :| Path(ds, {"a"}, blocked, path) && path[|path| - 1] == "c";
      ClosedContains(ds, {"a"}, blocked, {"a"}, path);
      assert false;
    }
  }
}
