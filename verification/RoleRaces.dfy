/** Administrators who change roles and groups at the same time: each checks what it reads, without a lock,
and writes in a later statement. */
module RoleRaces {
  import opened RoleConflicts

  datatype World = World(d: Directory, checked: map<nat, Change>)

  const START := World(RoleConflicts.EMPTY, map[])

  /** `temporary` gives the grants in force at the check. */
  datatype Step =
    | Check(k: nat, change: Change, temporary: string -> set<string>)
    | Write(k: nat)
    | Drop(k: nat)

  /** What the tables' keys and the statement itself enforce at the write. */
  predicate Writable(d: Directory, ch: Change) {
    match ch
    case CreateUser(user, roles) => user !in d.direct
    case SetUserRoles(user, roles) => user in d.direct
    case CreateGroup(g, active) => g != "" && g !in d.groups
    case SetGroupStatus(g, active) => g in d.groups
    case SetMembers(g, members) => g in d.groups && members <= d.direct.Keys
    case SetGroupRoles(g, roles) => g in d.groups
  }

  predicate Enabled(rules: set<Rule>, w: World, s: Step) {
    match s
    case Check(k, ch, temporary) => k !in w.checked && Admitted(rules, temporary, w.d, ch)
    case Write(k) => k in w.checked && Writable(w.d, w.checked[k])
    case Drop(k) => true
  }

  function After(w: World, s: Step): World {
    match s
    case Check(k, ch, _) => w.(checked := w.checked[k := ch])
    case Write(k) => if k in w.checked then World(Apply(w.d, w.checked[k]), w.checked - {k}) else w
    case Drop(k) => w.(checked := w.checked - {k})
  }

  /** The change would still be admitted by the direct and active-group roles there are now. */
  predicate StillFits(rules: set<Rule>, d: Directory, ch: Change)
    requires Writable(d, ch)
  {
    match ch
    case CreateUser(user, roles) => !Conflict(rules, roles)
    case SetUserRoles(user, roles) => !Conflict(rules, roles + GroupRoles(d, user, ""))
    case CreateGroup(g, active) => true
    case SetGroupStatus(g, active) => active ==> AllFit(rules, d, g, d.groups[g].members, d.groups[g].roles)
    case SetMembers(g, members) => d.groups[g].active ==> AllFit(rules, d, g, members, d.groups[g].roles)
    case SetGroupRoles(g, roles) => d.groups[g].active ==> AllFit(rules, d, g, d.groups[g].members, roles)
  }

  predicate AllFit(rules: set<Rule>, d: Directory, g: string, members: set<string>, roles: set<string>) {
    forall u :: u in members ==> MemberFits(rules, d, g, u, roles, {})
  }

  /** Replacing one group changes a user's group roles only by that group's roles. */
  lemma OneGroupReplaced(d: Directory, g: string, gr: Group, user: string)
    requires "" !in d.groups && g in d.groups
    ensures GroupRoles(d.(groups := d.groups[g := gr]), user, "") ==
            GroupRoles(d, user, g) + (if gr.active && user in gr.members then gr.roles else {})
  {
    var d' := d.(groups := d.groups[g := gr]);
    forall r ensures r in GroupRoles(d', user, "") <==>
      r in GroupRoles(d, user, g) + (if gr.active && user in gr.members then gr.roles else {})
    {
      if r in GroupRoles(d', user, "") {
        var h :| h in d'.groups && h != "" && d'.groups[h].active && user in d'.groups[h].members && r in d'.groups[h].roles;
        if h != g {
          assert d.groups[h] == d'.groups[h];
          assert r in GroupRoles(d, user, g);
        }
      }
      if gr.active && user in gr.members && r in gr.roles {
        assert g in d'.groups && g != "" && d'.groups[g] == gr;
      }
      if r in GroupRoles(d, user, g) {
        var h :| h in d.groups && h != g && d.groups[h].active && user in d.groups[h].members && r in d.groups[h].roles;
        assert h in d'.groups && h != "" && d'.groups[h] == d.groups[h];
      }
    }
  }

  lemma ReplacedEffective(d: Directory, g: string, gr: Group, user: string)
    requires "" !in d.groups && g in d.groups && user in d.direct
    ensures Effective(d.(groups := d.groups[g := gr]), user) ==
            d.direct[user] + GroupRoles(d, user, g) + (if gr.active && user in gr.members then gr.roles else {})
  {
    OneGroupReplaced(d, g, gr, user);
  }

  /** A group's new row keeps the invariant exactly when each of its members fits, if it is active. */
  lemma GroupKeepsIff(rules: set<Rule>, d: Directory, g: string, gr: Group)
    requires Inv(rules, d) && g in d.groups && gr.members <= d.direct.Keys
    ensures Inv(rules, d.(groups := d.groups[g := gr])) <==> (gr.active ==> AllFit(rules, d, g, gr.members, gr.roles))
  {
    var d' := d.(groups := d.groups[g := gr]);
    if gr.active ==> AllFit(rules, d, g, gr.members, gr.roles) {
      forall u | u in d'.direct ensures !Conflict(rules, Effective(d', u)) {
        GroupChangeKeeps(rules, _ => {}, d, g, gr, u);
      }
    }
    if Inv(rules, d') && gr.active {
      forall u | u in gr.members ensures MemberFits(rules, d, g, u, gr.roles, {}) {
        ReplacedEffective(d, g, gr, u);
        assert Effective(d', u) == DirectRoles(d, u) + GroupRoles(d, u, g) + {} + gr.roles;
      }
    }
  }

  lemma UserKeepsIff(rules: set<Rule>, d: Directory, user: string, roles: set<string>)
    requires Inv(rules, d)
    ensures Inv(rules, d.(direct := d.direct[user := roles])) <==> !Conflict(rules, roles + GroupRoles(d, user, ""))
  {
    var d' := d.(direct := d.direct[user := roles]);
    forall u | u in d'.direct ensures u != user ==> Effective(d', u) == Effective(d, u) { SameGroupsSameRoles(d, d', u); }
    SameGroupsSameRoles(d, d', user);
    assert Effective(d', user) == roles + GroupRoles(d, user, "");
  }

  /** A write, however old its check, keeps the invariant if and only if the change still fits. */
  lemma WriteKeepsIff(rules: set<Rule>, d: Directory, ch: Change)
    requires Inv(rules, d) && Writable(d, ch)
    ensures Inv(rules, Apply(d, ch)) <==> StillFits(rules, d, ch)
  {
    match ch
    case CreateUser(user, roles) =>
      NewUserHasNoGroups(rules, d, user);
      assert roles + GroupRoles(d, user, "") == roles;
      UserKeepsIff(rules, d, user, roles);
    case SetUserRoles(user, roles) => UserKeepsIff(rules, d, user, roles);
    case CreateGroup(g, active) => StepKeeps(rules, _ => {}, d, ch);
    case SetGroupStatus(g, active) => GroupKeepsIff(rules, d, g, d.groups[g].(active := active));
    case SetMembers(g, members) => GroupKeepsIff(rules, d, g, d.groups[g].(members := members));
    case SetGroupRoles(g, roles) => GroupKeepsIff(rules, d, g, d.groups[g].(roles := roles));
  }

  /** A change written before anything else happens fits: it was just checked. */
  lemma FreshCheckFits(rules: set<Rule>, temporary: string -> set<string>, d: Directory, ch: Change)
    requires Inv(rules, d) && Admitted(rules, temporary, d, ch)
    ensures Writable(d, ch) && StillFits(rules, d, ch)
  {
    StepKeeps(rules, temporary, d, ch);
    WriteKeepsIff(rules, d, ch);
  }

  predicate Runs(rules: set<Rule>, w: World, steps: seq<Step>)
    decreases |steps|
  {
    steps == [] || (Enabled(rules, w, steps[0]) && Runs(rules, After(w, steps[0]), steps[1..]))
  }

  function Last(w: World, steps: seq<Step>): World
    decreases |steps|
  {
    if steps == [] then w else Last(After(w, steps[0]), steps[1..])
  }

  ghost predicate InvThroughout(rules: set<Rule>, w: World, steps: seq<Step>)
    decreases |steps|
  {
    Inv(rules, w.d) && (steps == [] || InvThroughout(rules, After(w, steps[0]), steps[1..]))
  }

  predicate EveryWriteFits(rules: set<Rule>, w: World, steps: seq<Step>)
    requires Runs(rules, w, steps)
    decreases |steps|
  {
    steps == [] || (
      && (steps[0].Write? ==> StillFits(rules, w.d, w.checked[steps[0].k]))
      && EveryWriteFits(rules, After(w, steps[0]), steps[1..]))
  }

  /** In any interleaving no user ever holds a forbidden pair if and only if every change still fits when it is
  written. */
  lemma {:induction false} NoConflictIffEveryWriteFits(rules: set<Rule>, w: World, steps: seq<Step>)
    requires Inv(rules, w.d) && Runs(rules, w, steps)
    ensures InvThroughout(rules, w, steps) <==> EveryWriteFits(rules, w, steps)
    decreases |steps|
  {
    if steps != [] {
      var w' := After(w, steps[0]);
      if steps[0].Write? { WriteKeepsIff(rules, w.d, w.checked[steps[0].k]); }
      if Inv(rules, w'.d) { NoConflictIffEveryWriteFits(rules, w', steps[1..]); }
    }
  }

  // ------------------------------------------------------------------ two administrators

  lemma Cons(rules: set<Rule>, w: World, s: Step, rest: seq<Step>)
    requires Enabled(rules, w, s) && Runs(rules, After(w, s), rest)
    ensures Runs(rules, w, [s] + rest) && Last(w, [s] + rest) == Last(After(w, s), rest)
  {
    assert ([s] + rest)[1..] == rest;
  }

  lemma {:induction false} RunsOn(rules: set<Rule>, w: World, a: seq<Step>, b: seq<Step>)
    requires Runs(rules, w, a) && Runs(rules, Last(w, a), b)
    ensures Runs(rules, w, a + b) && Last(w, a + b) == Last(Last(w, a), b)
    decreases |a|
  {
    if a == [] {
      assert a + b == b;
    } else {
      RunsOn(rules, After(w, a[0]), a[1..], b);
      assert (a + b)[1..] == a[1..] + b;
    }
  }

  /** One administrator alone: check and write. */
  lemma OneAdministrator(rules: set<Rule>, w: World, ch: Change) returns (steps: seq<Step>)
    requires w.checked == map[] && Admitted(rules, _ => {}, w.d, ch) && Writable(w.d, ch)
    ensures Runs(rules, w, steps) && Last(w, steps) == World(Apply(w.d, ch), map[])
  {
    var check := Check(0, ch, _ => {});
    var a := After(w, check);
    Cons(rules, a, Write(0), []);
    Cons(rules, w, check, [Write(0)] + []);
    steps := [check] + ([Write(0)] + []);
    assert Last(w, steps).checked == map[];
  }

  /** A user without roles and an active group with the role `b`. */
  lemma SetUp(rules: set<Rule>, b: string) returns (steps: seq<Step>)
    requires !Conflict(rules, {b}) && !Conflict(rules, {})
    ensures Runs(rules, START, steps)
    ensures Last(START, steps) == World(Directory(map["u" := {}], map["g" := Group(true, {b}, {})]), map[])
  {
    var s1 := OneAdministrator(rules, START, CreateUser("u", {}));
    var w1 := World(Apply(START.d, CreateUser("u", {})), map[]);
    var s2 := OneAdministrator(rules, w1, CreateGroup("g", true));
    var w2 := World(Apply(w1.d, CreateGroup("g", true)), map[]);
    var s3 := OneAdministrator(rules, w2, SetGroupRoles("g", {b}));
    RunsOn(rules, START, s1, s2);
    RunsOn(rules, START, s1 + s2, s3);
    steps := s1 + s2 + s3;
  }

  /** Both check before either writes: one gives the user the role `a`, the other puts the user into the group. */
  lemma RacingAdministrators(rules: set<Rule>, a: string, b: string) returns (steps: seq<Step>)
    requires Rule(a, b) in rules && !Conflict(rules, {a}) && !Conflict(rules, {b}) && !Conflict(rules, {})
    ensures Runs(rules, START, steps) && !Inv(rules, Last(START, steps).d)
  {
    var before := SetUp(rules, b);
    var w := World(Directory(map["u" := {}], map["g" := Group(true, {b}, {})]), map[]);
    var c0, c1 := Check(0, SetUserRoles("u", {a}), _ => {}), Check(1, SetMembers("g", {"u"}), _ => {});
    assert GroupRoles(w.d, "u", "") == {} && GroupRoles(w.d, "u", "g") == {};
    assert {a} + {} == {a} && {} + {} + {} + {b} == {b};
    var w1 := After(w, c0);
    var w2 := After(w1, c1);
    var w3 := After(w2, Write(0));
    var w4 := After(w3, Write(1));
    Cons(rules, w3, Write(1), []);
    Cons(rules, w2, Write(0), [Write(1)] + []);
    Cons(rules, w1, c1, [Write(0)] + ([Write(1)] + []));
    Cons(rules, w, c0, [c1] + ([Write(0)] + ([Write(1)] + [])));
    var race := [c0] + ([c1] + ([Write(0)] + ([Write(1)] + [])));
    RunsOn(rules, START, before, race);
    steps := before + race;
    assert w4.d == Directory(map["u" := {a}], map["g" := Group(true, {b}, {"u"})]);
    assert "g" in w4.d.groups && b in GroupRoles(w4.d, "u", "");
    assert a in Effective(w4.d, "u") && b in Effective(w4.d, "u");
  }
}
