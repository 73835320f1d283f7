/** The department hierarchy of an organisation: what the validator accepts, and the forest it keeps. */
module Departments {

  datatype Dept = Dept(id: string, org: string, parent: string, active: bool)

  type Forest = map<string, Dept>

  /** Walking up from `id` leaves the forest through a root after exactly `n` departments. */
  predicate RootIn(m: Forest, id: string, n: nat)
    decreases n
  {
    if n == 0 then id == "" else id != "" && id in m && RootIn(m, m[id].parent, n - 1)
  }

  ghost predicate Rooted(m: Forest, id: string) {
    exists n: nat :: RootIn(m, id, n)
  }

  predicate ParentFits(m: Forest, d: Dept) {
    d.parent == "" ||
    (d.parent in m && m[d.parent].org == d.org && d.parent != d.id && (d.active ==> m[d.parent].active))
  }

  /** An acyclic forest with parents in the same organisation and no active department under a disabled
  one. */
  ghost predicate ValidForest(m: Forest) {
    && (forall id :: id in m ==> id != "" && m[id].id == id)
    && (forall id :: id in m && m[id].parent != "" ==>
          m[id].parent in m && m[m[id].parent].org == m[id].org && m[id].parent != id && (m[id].active ==> m[m[id].parent].active))
    && (forall id :: id in m ==> Rooted(m, id))
  }

  predicate HasActiveChild(m: Forest, id: string) {
    exists x :: x in m && m[x].parent == id && m[x].active
  }

  /** The map the validator works on: the stored departments, with an updated one replaced. */
  function Candidates(m: Forest, c: Dept, creating: bool): Forest {
    if creating then m else m[c.id := c]
  }

  /** `x` is `id` or one of the departments above it. */
  ghost predicate Above(m: Forest, id: string, x: string) {
    exists j: nat :: Climbs(m, id, j + 1) && Up(m, id, j) == x
  }

  /** What the validator accepts. A department being created is not in the map; normally it has no id yet,
  but an id that came with the request must not lie above the parent. */
  ghost predicate Accepts(m: Forest, c: Dept, creating: bool) {
    var b := Candidates(m, c, creating);
    && (creating || c.id in m)
    && ParentFits(b, c) && Rooted(b, c.parent) && (creating ==> !Above(b, c.parent, c.id))
    && (!c.active ==> !HasActiveChild(b, c.id))
  }

  // ------------------------------------------------------------------ the parent walk

  /** The k-th department on the way up from `id` ("" once past a root or a missing parent). */
  function Up(m: Forest, id: string, k: nat): string {
    if k == 0 then id
    else
      var x := Up(m, id, k - 1);
      if x in m then m[x].parent else ""
  }

  /** The first `k` departments on the way up all exist. */
  predicate Climbs(m: Forest, id: string, k: nat) {
    forall j :: 0 <= j < k ==> Up(m, id, j) != "" && Up(m, id, j) in m
  }

  lemma {:induction false} RootInUp(m: Forest, id: string, n: nat, k: nat)
    requires RootIn(m, id, n) && k <= n
    ensures RootIn(m, Up(m, id, k), n - k)
  {
    if k > 0 { RootInUp(m, id, n, k - 1); }
  }

  lemma {:induction false} RootInUnique(m: Forest, id: string, a: nat, b: nat)
    requires RootIn(m, id, a) && RootIn(m, id, b)
    ensures a == b
    decreases a
  {
    if a > 0 && b > 0 { RootInUnique(m, m[id].parent, a - 1, b - 1); }
  }

  lemma {:induction false} ClimbReachesRoot(m: Forest, id: string, k: nat, j: nat)
    requires Climbs(m, id, k) && Up(m, id, k) == "" && j <= k
    ensures RootIn(m, Up(m, id, j), k - j)
    decreases k - j
  {
    if j < k {
      ClimbReachesRoot(m, id, k, j + 1);
      assert Up(m, id, j + 1) == m[Up(m, id, j)].parent;
    }
  }

  /** A walk that has climbed `k` departments needs at least `k` to reach a root. */
  lemma ClimbIsLong(m: Forest, id: string, k: nat, n: nat)
    requires Climbs(m, id, k) && RootIn(m, id, n)
    ensures k <= n && RootIn(m, Up(m, id, k), n - k)
  {
    if n < k {
      RootInUp(m, id, n, n);
      assert false;
    }
    RootInUp(m, id, n, k);
  }

  /** Meeting a department again means there is no root above. */
  lemma RepeatHasNoRoot(m: Forest, id: string, j: nat, k: nat)
    requires j < k && Climbs(m, id, k) && Up(m, id, j) == Up(m, id, k)
    ensures !Rooted(m, id)
  {
    if Rooted(m, id) {
      var n: nat :| RootIn(m, id, n);
      ClimbIsLong(m, id, k, n);
      RootInUp(m, id, n, j);
      RootInUnique(m, Up(m, id, j), n - j, n - k);
      assert false;
    }
  }

  /** So does meeting the department whose parent the walk started from. */
  lemma ReturnHasNoRoot(m: Forest, id: string, k: nat)
    requires id != "" && id in m && Climbs(m, m[id].parent, k) && Up(m, m[id].parent, k) == id
    ensures !Rooted(m, m[id].parent)
  {
    var p := m[id].parent;
    if Rooted(m, p) {
      var n: nat :| RootIn(m, p, n);
      ClimbIsLong(m, p, k, n);
      if n > k {
        RootInUnique(m, p, n - k - 1, n);
      }
      assert false;
    }
  }

  lemma GapHasNoRoot(m: Forest, id: string, k: nat)
    requires Climbs(m, id, k) && Up(m, id, k) != "" && Up(m, id, k) !in m
    ensures !Rooted(m, id)
  {
    if Rooted(m, id) {
      var n: nat :| RootIn(m, id, n);
      ClimbIsLong(m, id, k, n);
      assert false;
    }
  }

  /** `x` was on the way up. */
  ghost predicate Passed(m: Forest, id: string, k: nat, x: string) {
    exists j :: 0 <= j < k && Up(m, id, j) == x
  }

  lemma PassedOn(m: Forest, id: string, k: nat)
    requires Climbs(m, id, k) && Up(m, id, k) != "" && Up(m, id, k) in m
    ensures Climbs(m, id, k + 1) && Passed(m, id, k + 1, Up(m, id, k))
    ensures forall x :: Passed(m, id, k, x) ==> Passed(m, id, k + 1, x)
    ensures Up(m, id, k + 1) == m[Up(m, id, k)].parent
  {
  }

  lemma SeenHasNoRoot(m: Forest, id: string, k: nat)
    requires Climbs(m, id, k) && Passed(m, id, k, Up(m, id, k))
    ensures !Rooted(m, id)
  {
    var j :| 0 <= j < k && Up(m, id, j) == Up(m, id, k);
    RepeatHasNoRoot(m, id, j, k);
  }

  function ById(items: seq<Dept>): Forest {
    if items == [] then map[] else ById(items[..|items| - 1])[items[|items| - 1].id := items[|items| - 1]]
  }

  lemma NotOnTheWay(m: Forest, id: string, k: nat, x: string)
    requires Up(m, id, k) == "" && forall j :: 0 <= j < k ==> Up(m, id, j) != x
    ensures !Above(m, id, x)
  {
  }

  /** The validator: builds the map, checks the parent, walks up and looks for active children. The walk
  terminates on any table, cyclic or not. */
  method ValidateDepartmentHierarchy(items: seq<Dept>, c: Dept, creating: bool) returns (ok: bool)
    requires forall i :: 0 <= i < |items| ==> items[i].id != ""
    ensures ok <==> Accepts(ById(items), c, creating)
  {
    var byId: Forest := map[];
    for i := 0 to |items|
      invariant byId == ById(items[..i])
      invariant "" !in byId
    {
      assert items[..i + 1][..i] == items[..i];
      byId := byId[items[i].id := items[i]];
    }
    assert items[..|items|] == items;
    if !creating {
      if c.id !in byId {
        return false;
      }
      byId := byId[c.id := c];
    }
    if !ParentFits(byId, c) {
      return false;
    }
    var rooted := WalkUp(byId, c, creating);
    if !rooted {
      return false;
    }
    if !c.active && HasActiveChild(byId, c.id) {
      return false;
    }
    return true;
  }

  method WalkUp(byId: Forest, c: Dept, creating: bool) returns (ok: bool)
    requires "" !in byId && (!creating ==> c.id in byId && byId[c.id] == c)
    ensures ok <==> Rooted(byId, c.parent) && (creating ==> !Above(byId, c.parent, c.id))
  {
    var seen := {c.id};
    var parent := c.parent;
    ghost var k := 0;
    while parent != ""
      invariant parent == Up(byId, c.parent, k) && Climbs(byId, c.parent, k)
      invariant c.id in seen && forall x :: x in seen ==> x == c.id || Passed(byId, c.parent, k, x)
      invariant forall j :: 0 <= j < k ==> Up(byId, c.parent, j) != c.id
      decreases byId.Keys - seen
    {
      if parent in seen {
        if parent !in byId {
          GapHasNoRoot(byId, c.parent, k);
        } else if parent == c.id {
          if creating { assert Climbs(byId, c.parent, k + 1) && Up(byId, c.parent, k) == c.id; }
          else { ReturnHasNoRoot(byId, c.id, k); }
        } else {
          SeenHasNoRoot(byId, c.parent, k);
        }
        return false;
      }
      if parent !in byId {
        GapHasNoRoot(byId, c.parent, k);
        return false;
      }
      PassedOn(byId, c.parent, k);
      seen := seen + {parent};
      parent := byId[parent].parent;
      k := k + 1;
    }
    ClimbReachesRoot(byId, c.parent, k, 0);
    NotOnTheWay(byId, c.parent, k, c.id);
    return true;
  }

  // ------------------------------------------------------------------ soundness and completeness

  /** Replacing one department keeps every other walk finite, because the new parent's walk is. */
  lemma {:induction false} StillRooted(m: Forest, c: Dept, x: string, n: nat)
    requires RootIn(m, x, n) && c.id != "" && Rooted(m[c.id := c], c.parent)
    ensures Rooted(m[c.id := c], x)
    decreases n
  {
    var b := m[c.id := c];
    if n == 0 {
      assert RootIn(b, x, 0);
    } else if x == c.id {
      var p: nat :| RootIn(b, c.parent, p);
      assert RootIn(b, x, p + 1);
    } else {
      StillRooted(m, c, m[x].parent, n - 1);
      var p: nat :| RootIn(b, m[x].parent, p);
      assert RootIn(b, x, p + 1);
    }
  }

  lemma RootedParent(m: Forest, id: string)
    requires id in m && id != ""
    ensures Rooted(m, id) <==> Rooted(m, m[id].parent)
  {
    if Rooted(m, id) {
      var n: nat :| RootIn(m, id, n);
      assert RootIn(m, m[id].parent, n - 1);
    }
    if Rooted(m, m[id].parent) {
      var n: nat :| RootIn(m, m[id].parent, n);
      assert RootIn(m, id, n + 1);
    }
  }

  lemma UpdateParents(m: Forest, c: Dept)
    requires ValidForest(m) && c.id in m && c.org == m[c.id].org && Accepts(m, c, false)
    ensures forall id :: id in m ==> ParentFits(m[c.id := c], m[c.id := c][id])
  {
  }

  /** For an update of a valid forest the validator accepts exactly what keeps the forest valid. */
  lemma UpdateIffValid(m: Forest, c: Dept)
    requires ValidForest(m) && c.id in m && c.org == m[c.id].org
    ensures Accepts(m, c, false) <==> ValidForest(m[c.id := c])
  {
    var b := m[c.id := c];
    if Accepts(m, c, false) {
      UpdateParents(m, c);
      forall x | x in b ensures Rooted(b, x) {
        assert Rooted(m, x);
        var n: nat :| RootIn(m, x, n);
        StillRooted(m, c, x, n);
      }
    }
    if ValidForest(b) {
      assert Rooted(b, c.id) && ParentFits(b, b[c.id]);
      RootedParent(b, c.id);
      forall x | x in b && b[x].parent == c.id ensures b[x].active ==> c.active {
        assert ParentFits(b, b[x]);
      }
    }
  }

  /** Walks in a forest do not depend on a department nobody points to. */
  lemma {:induction false} FreshIsInvisible(m: Forest, x: string, d: Dept, y: string, n: nat)
    requires x !in m && y != x && forall id :: id in m ==> m[id].parent != x
    ensures RootIn(m[x := d], y, n) <==> RootIn(m, y, n)
    decreases n
  {
    if n > 0 && y in m { FreshIsInvisible(m, x, d, m[y].parent, n - 1); }
  }

  lemma RootedFresh(m: Forest, x: string, d: Dept, y: string)
    requires x !in m && y != x && forall id :: id in m ==> m[id].parent != x
    ensures Rooted(m[x := d], y) <==> Rooted(m, y)
  {
    if Rooted(m[x := d], y) {
      var n: nat :| RootIn(m[x := d], y, n);
      FreshIsInvisible(m, x, d, y, n);
    }
    if Rooted(m, y) {
      var n: nat :| RootIn(m, y, n);
      FreshIsInvisible(m, x, d, y, n);
    }
  }

  lemma NobodyPointsTo(m: Forest, x: string)
    requires ValidForest(m) && x != "" && x !in m
    ensures forall id :: id in m ==> m[id].parent != x
  {
  }

  /** A new department fits the forest exactly when its parent does. */
  lemma InsertIffParentFits(m: Forest, c: Dept, x: string)
    requires ValidForest(m) && c.id == "" && x != "" && x !in m
    ensures ValidForest(m[x := c.(id := x)]) <==> ParentFits(m, c)
  {
    var d := c.(id := x);
    var b := m[x := d];
    NobodyPointsTo(m, x);
    if ParentFits(m, c) {
      forall id | id in b ensures ParentFits(b, b[id]) && Rooted(b, id) {
        if id == x {
          assert c.parent != "" ==> Rooted(m, c.parent);
          assert RootIn(m, "", 0);
          RootedFresh(m, x, d, c.parent);
          RootedParent(b, x);
        } else {
          assert ParentFits(m, m[id]) && Rooted(m, id);
          RootedFresh(m, x, d, id);
        }
      }
    }
    if ValidForest(b) {
      assert ParentFits(b, b[x]) && Rooted(b, x);
      if c.parent == x {
        RootedParent(b, x);
      }
    }
  }

  lemma NoIdIsNotAbove(m: Forest, id: string)
    ensures !Above(m, id, "")
  {
  }

  /** For creations: exact for an active department without an id. A disabled one is also refused as soon
  as a stored department with its id as parent is active; without an id those are the roots. An id that
  came with the request is refused when it is the parent or lies above it. */
  lemma CreateIffValid(m: Forest, c: Dept, x: string)
    requires ValidForest(m) && x != "" && x !in m
    ensures Accepts(m, c, true) <==>
            ValidForest(m[x := c.(id := x)]) && !Above(m, c.parent, c.id) && (c.active || !HasActiveChild(m, c.id))
    ensures !Above(m, c.parent, "")
  {
    NoIdIsNotAbove(m, c.parent);
    InsertIffParentFits(m, c.(id := ""), x);
    if ParentFits(m, c.(id := "")) {
      assert c.parent != "" ==> Rooted(m, c.parent);
      assert RootIn(m, "", 0);
    }
    if c.parent == c.id && c.parent in m {
      assert Climbs(m, c.parent, 0 + 1) && Up(m, c.parent, 0) == c.id;
    }
  }

  // ------------------------------------------------------------------ the directory

  datatype Change = Create(c: Dept, id: string) | Update(c: Dept)

  ghost predicate Admitted(m: Forest, ch: Change) {
    match ch
    case Create(c, id) => id != "" && id !in m && Accepts(m, c, true)
    case Update(c) => c.id in m && c.org == m[c.id].org && Accepts(m, c, false)
  }

  function Apply(m: Forest, ch: Change): Forest {
    match ch
    case Create(c, id) => m[id := c.(id := id)]
    case Update(c) => m[c.id := c]
  }

  ghost predicate Run(changes: seq<Change>, m: Forest)
    decreases |changes|
  {
    if changes == [] then m == map[]
    else
      var n := |changes| - 1;
      exists b :: Run(changes[..n], b) && Admitted(b, changes[n]) && m == Apply(b, changes[n])
  }

  /** Every sequence of accepted creations and updates keeps a valid forest. */
  lemma {:induction false} RunKeepsForest(changes: seq<Change>, m: Forest)
    requires Run(changes, m)
    ensures ValidForest(m)
    decreases |changes|
  {
    if changes != [] {
      var n := |changes| - 1;
      var b :| Run(changes[..n], b) && Admitted(b, changes[n]) && m == Apply(b, changes[n]);
      RunKeepsForest(changes[..n], b);
      match changes[n]
      case Create(c, id) => CreateIffValid(b, c, id);
      case Update(c) => UpdateIffValid(b, c);
    }
  }

  /** What a valid forest is, written out: nobody is above itself, and every parent exists, belongs to the same
  organisation and is active under an active child. */
  lemma ValidForestMeans(m: Forest, id: string, k: nat)
    requires ValidForest(m) && id in m
    ensures m[id].parent != "" ==>
      m[id].parent in m && m[m[id].parent].org == m[id].org && (m[id].active ==> m[m[id].parent].active)
    ensures Up(m, id, k + 1) != id
  {
    if Up(m, id, k + 1) == id {
      assert Rooted(m, id);
      CycleClimbs(m, id, k + 1);
      RepeatHasNoRoot(m, id, 0, k + 1);
    }
  }

  /** Once a walk has left the forest it stays outside, so one that comes back never left. */
  lemma {:induction false} CycleClimbs(m: Forest, id: string, k: nat)
    requires "" !in m && Up(m, id, k) != "" && forall x :: x in m && m[x].parent != "" ==> m[x].parent in m
    requires id in m
    ensures Climbs(m, id, k) && Up(m, id, k) in m
  {
    if k > 0 { CycleClimbs(m, id, k - 1); }
  }

  predicate DistinctIds(items: seq<Dept>) {
    && (forall i :: 0 <= i < |items| ==> items[i].id != "")
    && (forall i, j :: 0 <= i < j < |items| ==> items[i].id != items[j].id)
  }

  lemma {:induction false} ByIdHas(items: seq<Dept>, x: string)
    ensures x in ById(items) <==> exists i :: 0 <= i < |items| && items[i].id == x
    ensures DistinctIds(items) ==> forall i :: 0 <= i < |items| && items[i].id == x ==> ById(items)[x] == items[i]
  {
    if items != [] {
      var n := |items| - 1;
      ByIdHas(items[..n], x);
      assert forall i :: 0 <= i < n ==> items[..n][i] == items[i];
    }
  }

  lemma {:induction false} ByIdReplaced(items: seq<Dept>, k: nat, c: Dept)
    requires DistinctIds(items) && k < |items| && items[k].id == c.id
    ensures ById(items[k := c]) == ById(items)[c.id := c]
  {
    var n := |items| - 1;
    if k == n {
      assert items[k := c][..n] == items[..n];
    } else {
      ByIdReplaced(items[..n], k, c);
      assert items[k := c][..n] == items[..n][k := c];
      assert items[n].id != c.id;
    }
  }

  lemma ByIdAppended(items: seq<Dept>, row: Dept)
    requires DistinctIds(items) && row.id != "" && row.id !in ById(items)
    ensures DistinctIds(items + [row]) && ById(items + [row]) == ById(items)[row.id := row]
  {
    ByIdHas(items, row.id);
    assert (items + [row])[..|items|] == items;
  }

  ghost predicate ValidTable(items: seq<Dept>, org: string) {
    DistinctIds(items) && ValidForest(ById(items)) && forall i :: 0 <= i < |items| ==> items[i].org == org
  }

  /** The index of the department, or the length when there is none. */
  method Find(items: seq<Dept>, id: string) returns (k: nat)
    ensures k <= |items| && (k < |items| <==> id in ById(items)) && (k < |items| ==> items[k].id == id)
  {
    ByIdHas(items, id);
    k := 0;
    while k < |items| && items[k].id != id
      invariant k <= |items| && forall i :: 0 <= i < k ==> items[i].id != id
    {
      k := k + 1;
    }
  }

  lemma UpdateKeepsTable(items: seq<Dept>, org: string, k: nat, c: Dept)
    requires ValidTable(items, org) && k < |items| && items[k].id == c.id && c.org == org
    requires Accepts(ById(items), c, false)
    ensures ValidTable(items[k := c], org) && ById(items[k := c]) == ById(items)[c.id := c]
  {
    ByIdHas(items, c.id);
    UpdateIffValid(ById(items), c);
    ByIdReplaced(items, k, c);
  }

  /** The service over its table of one organisation's departments. */
  class Service {
    const org: string
    var items: seq<Dept>

    function Table(): Forest reads this { ById(items) }
    ghost predicate Valid() reads this { ValidTable(items, org) }

    constructor (org: string)
      ensures Valid() && Table() == map[] && this.org == org
    {
      this.org := org;
      items := [];
    }

    method CreateDepartment(req: Dept, newId: string) returns (ok: bool)
      requires Valid() && newId != "" && newId !in Table()
      modifies this
      ensures Valid()
      ensures var c := req.(org := org);
        && (ok <==> Accepts(old(Table()), c, true))
        && Table() == if ok then Apply(old(Table()), Create(c, newId)) else old(Table())
    {
      var c := req.(org := org);
      ok := ValidateDepartmentHierarchy(items, c, true);
      if ok {
        CreateIffValid(Table(), c, newId);
        ByIdAppended(items, c.(id := newId));
        items := items + [c.(id := newId)];
      }
    }

    /** With the counts of active positions and current assignments in the department. */
    method UpdateDepartment(id: string, req: Dept, positions: nat, assignments: nat) returns (ok: bool)
      requires Valid()
      modifies this
      ensures Valid()
      ensures var c := req.(id := id, org := org);
        && (ok <==> id in old(Table()) && Accepts(old(Table()), c, false) && (c.active || (positions == 0 && assignments == 0)))
        && Table() == if ok then Apply(old(Table()), Update(c)) else old(Table())
    {
      var k := Find(items, id);
      if k == |items| { return false; }
      var c := req.(id := id, org := org);
      ok := ValidateDepartmentHierarchy(items, c, false);
      ok := ok && (c.active || (positions == 0 && assignments == 0));
      if ok {
        UpdateKeepsTable(items, org, k, c);
        items := items[k := c];
      }
    }
  }

  /** The over-rejection, on the smallest forest: a disabled department cannot be created beside an
  active root, though the forest would stay valid. */
  lemma DisabledCreateOverRejects()
    ensures var m := map["r" := Dept("r", "o", "", true)];
            var c := Dept("", "o", "r", false);
            ValidForest(m) && ValidForest(m["x" := c.(id := "x")]) && !Accepts(m, c, true)
  {
    var m := map["r" := Dept("r", "o", "", true)];
    var c := Dept("", "o", "r", false);
    assert RootIn(m, "", 0) && RootIn(m, "r", 1);
    assert ValidForest(m);
    InsertIffParentFits(m, c, "x");
    assert m["r"].parent == "" && m["r"].active;
  }
}
