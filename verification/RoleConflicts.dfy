/** Separation of duties: direct roles, group roles and the rules that forbid pairs of them. */
module RoleConflicts {

  datatype Rule = Rule(a: string, b: string)

  datatype Group = Group(active: bool, roles: set<string>, members: set<string>)

  datatype Directory = Directory(direct: map<string, set<string>>, groups: map<string, Group>)

  const EMPTY := Directory(map[], map[])

  predicate Conflict(rules: set<Rule>, roles: set<string>) {
    exists r :: r in rules && r.a in roles && r.b in roles
  }

  method HasRoleConflict(roleKeys: seq<string>, rules: seq<Rule>) returns (found: bool)
    ensures found <==> Conflict((set r | r in rules), (set k | k in roleKeys))
  {
    var keys: set<string> := {};
    for i := 0 to |roleKeys|
      invariant keys == set k | k in roleKeys[..i]
    {
      assert roleKeys[..i + 1] == roleKeys[..i] + [roleKeys[i]];
      keys := keys + {roleKeys[i]};
    }
    assert roleKeys[..|roleKeys|] == roleKeys;
    for i := 0 to |rules|
      invariant forall j :: 0 <= j < i ==> !(rules[j].a in keys && rules[j].b in keys)
    {
      if rules[i].a in keys && rules[i].b in keys {
        assert rules[i] in rules;
        return true;
      }
    }
    return false;
  }

  /** Roles a user holds through active groups, leaving out group `except`. */
  function GroupRoles(d: Directory, user: string, except: string): set<string> {
    set g, r | g in d.groups && g != except && d.groups[g].active && user in d.groups[g].members && r in d.groups[g].roles :: r
  }

  /** No group has the empty id, so "" leaves nothing out. */
  function Effective(d: Directory, user: string): set<string>
    requires user in d.direct
  {
    d.direct[user] + GroupRoles(d, user, "")
  }

  function DirectRoles(d: Directory, user: string): set<string> {
    if user in d.direct then d.direct[user] else {}
  }

  /** What the group checks compare against: other roles, including temporary grants, plus the group's. */
  predicate MemberFits(rules: set<Rule>, d: Directory, g: string, user: string, roles: set<string>, temporary: set<string>) {
    !Conflict(rules, DirectRoles(d, user) + GroupRoles(d, user, g) + temporary + roles)
  }

  datatype Change =
    | CreateUser(user: string, roles: set<string>)
    | SetUserRoles(user: string, roles: set<string>)
    | CreateGroup(g: string, active: bool)
    | SetGroupStatus(g: string, active: bool)
    | SetMembers(g: string, members: set<string>)
    | SetGroupRoles(g: string, roles: set<string>)

  /** What the service checks before it writes. `temporary` gives each user's current temporary grants. */
  predicate Admitted(rules: set<Rule>, temporary: string -> set<string>, d: Directory, ch: Change) {
    match ch
    case CreateUser(user, roles) => user !in d.direct && !Conflict(rules, roles)
    case SetUserRoles(user, roles) => user in d.direct && !Conflict(rules, roles + GroupRoles(d, user, ""))
    case CreateGroup(g, active) => g != "" && g !in d.groups
    case SetGroupStatus(g, active) =>
      g in d.groups && (active && !d.groups[g].active ==>
        forall u :: u in d.groups[g].members ==> u in d.direct && MemberFits(rules, d, g, u, d.groups[g].roles, temporary(u)))
    case SetMembers(g, members) =>
      g in d.groups && forall u :: u in members ==> u in d.direct && MemberFits(rules, d, g, u, d.groups[g].roles, temporary(u))
    case SetGroupRoles(g, roles) =>
      g in d.groups && forall u :: u in d.groups[g].members ==> u in d.direct && MemberFits(rules, d, g, u, roles, temporary(u))
  }

  function Apply(d: Directory, ch: Change): Directory {
    match ch
    case CreateUser(user, roles) => d.(direct := d.direct[user := roles])
    case SetUserRoles(user, roles) => d.(direct := d.direct[user := roles])
    case CreateGroup(g, active) => d.(groups := d.groups[g := Group(active, {}, {})])
    case SetGroupStatus(g, active) => if g in d.groups then d.(groups := d.groups[g := d.groups[g].(active := active)]) else d
    case SetMembers(g, members) => if g in d.groups then d.(groups := d.groups[g := d.groups[g].(members := members)]) else d
    case SetGroupRoles(g, roles) => if g in d.groups then d.(groups := d.groups[g := d.groups[g].(roles := roles)]) else d
  }

  ghost predicate Inv(rules: set<Rule>, d: Directory) {
    && "" !in d.groups
    && (forall u :: u in d.direct ==> !Conflict(rules, Effective(d, u)))
    && (forall g :: g in d.groups ==> d.groups[g].members <= d.direct.Keys)
  }

  /** Replacing a group is safe when every active member fits its new roles. */
  lemma GroupChangeKeeps(rules: set<Rule>, temporary: string -> set<string>, d: Directory, g: string, gr: Group, u: string)
    requires Inv(rules, d) && g in d.groups && u in d.direct
    requires gr.active && u in gr.members ==> MemberFits(rules, d, g, u, gr.roles, temporary(u))
    ensures !Conflict(rules, Effective(d.(groups := d.groups[g := gr]), u))
  {
  }

  /** An unchanged active group already fits: its members' effective roles are free of conflicts. */
  lemma SameGroup(d: Directory, g: string)
    requires g in d.groups
    ensures d.(groups := d.groups[g := d.groups[g]]) == d
  {
  }

  lemma NewGroup(d: Directory, g: string, active: bool, u: string)
    requires g !in d.groups
    ensures GroupRoles(d.(groups := d.groups[g := Group(active, {}, {})]), u, "") == GroupRoles(d, u, "")
  {
    var d' := d.(groups := d.groups[g := Group(active, {}, {})]);
    forall r | r in GroupRoles(d, u, "") ensures r in GroupRoles(d', u, "") {
      var h :| h in d.groups && h != "" && d.groups[h].active && u in d.groups[h].members && r in d.groups[h].roles;
      assert h in d'.groups && d'.groups[h] == d.groups[h];
    }
  }

  lemma NewUserHasNoGroups(rules: set<Rule>, d: Directory, u: string)
    requires Inv(rules, d) && u !in d.direct
    ensures GroupRoles(d, u, "") == {}
  {
  }

  lemma SameGroupsSameRoles(a: Directory, b: Directory, u: string)
    requires a.groups == b.groups
    ensures GroupRoles(a, u, "") == GroupRoles(b, u, "")
  {
  }

  lemma StepKeeps(rules: set<Rule>, temporary: string -> set<string>, d: Directory, ch: Change)
    requires Inv(rules, d) && Admitted(rules, temporary, d, ch)
    ensures Inv(rules, Apply(d, ch))
  {
    var d' := Apply(d, ch);
    forall u | u in d'.direct ensures !Conflict(rules, Effective(d', u)) {
      match ch
      case CreateUser(user, roles) =>
        SameGroupsSameRoles(d, d', u);
        if u == user { NewUserHasNoGroups(rules, d, u); }
      case SetUserRoles(user, roles) => SameGroupsSameRoles(d, d', u);
      case CreateGroup(g, active) => NewGroup(d, g, active, u);
      case SetGroupStatus(g, active) =>
        if active && d.groups[g].active { SameGroup(d, g); }
        else { GroupChangeKeeps(rules, temporary, d, g, d.groups[g].(active := active), u); }
      case SetMembers(g, members) => GroupChangeKeeps(rules, temporary, d, g, d.groups[g].(members := members), u);
      case SetGroupRoles(g, roles) => GroupChangeKeeps(rules, temporary, d, g, d.groups[g].(roles := roles), u);
    }
  }

  ghost predicate Run(rules: set<Rule>, changes: seq<(Change, string -> set<string>)>, d: Directory)
    decreases |changes|
  {
    if changes == [] then d == EMPTY
    else
      var n := |changes| - 1;
      exists b :: Run(rules, changes[..n], b) && Admitted(rules, changes[n].1, b, changes[n].0) && d == Apply(b, changes[n].0)
  }

  /** In every serial run no user's direct and active-group roles contain a forbidden pair, whatever
  temporary grants come and go meanwhile. */
  lemma NoConflictInAnyRun(rules: set<Rule>, changes: seq<(Change, string -> set<string>)>, d: Directory)
    requires Run(rules, changes, d)
    ensures Inv(rules, d)
    ensures forall u, r :: u in d.direct && r in rules ==>
              !(InForce(d, u, d.direct[u], r.a) && InForce(d, u, d.direct[u], r.b))
  {
    RunKeepsInv(rules, changes, d);
    forall u | u in d.direct
      ensures forall r :: r in rules ==> !(InForce(d, u, d.direct[u], r.a) && InForce(d, u, d.direct[u], r.b))
    {
      InForceIsConflict(rules, d, u, d.direct[u]);
    }
  }

  /** The role is among `roles` or comes from an active group the user is in. */
  predicate InForce(d: Directory, user: string, roles: set<string>, role: string) {
    role in roles || exists g :: g in d.groups && d.groups[g].active && user in d.groups[g].members && role in d.groups[g].roles
  }

  /** What a member of group `g` could hold if the group gave `roles`: those, the temporary grants, direct roles and
  the roles of other active groups. */
  predicate CouldHold(d: Directory, g: string, user: string, roles: set<string>, temporary: set<string>, role: string) {
    || role in roles || role in temporary || (user in d.direct && role in d.direct[user])
    || exists h :: h in d.groups && h != g && d.groups[h].active && user in d.groups[h].members && role in d.groups[h].roles
  }

  predicate NoPair(rules: set<Rule>, d: Directory, g: string, user: string, roles: set<string>, temporary: set<string>) {
    forall r :: r in rules ==> !(CouldHold(d, g, user, roles, temporary, r.a) && CouldHold(d, g, user, roles, temporary, r.b))
  }

  lemma FitsMeansNoPair(rules: set<Rule>, d: Directory, g: string, roles: set<string>, temporary: string -> set<string>)
    ensures forall u :: MemberFits(rules, d, g, u, roles, temporary(u)) <==> NoPair(rules, d, g, u, roles, temporary(u))
  {
    forall u ensures MemberFits(rules, d, g, u, roles, temporary(u)) <==> NoPair(rules, d, g, u, roles, temporary(u)) {
      forall x ensures CouldHold(d, g, u, roles, temporary(u), x) <==>
        x in DirectRoles(d, u) + GroupRoles(d, u, g) + temporary(u) + roles
      {
      }
    }
  }

  lemma InForceIsConflict(rules: set<Rule>, d: Directory, user: string, roles: set<string>)
    requires "" !in d.groups
    ensures !Conflict(rules, roles + GroupRoles(d, user, "")) <==>
            forall r :: r in rules ==> !(InForce(d, user, roles, r.a) && InForce(d, user, roles, r.b))
  {
    forall x ensures InForce(d, user, roles, x) <==> x in roles + GroupRoles(d, user, "") {
      if g :| g in d.groups && d.groups[g].active && user in d.groups[g].members && x in d.groups[g].roles { assert g != ""; }
    }
  }

  lemma {:induction false} RunKeepsInv(rules: set<Rule>, changes: seq<(Change, string -> set<string>)>, d: Directory)
    requires Run(rules, changes, d)
    ensures Inv(rules, d)
    decreases |changes|
  {
    if changes != [] {
      var n := |changes| - 1;
      var b :| Run(rules, changes[..n], b) && Admitted(rules, changes[n].1, b, changes[n].0) && d == Apply(b, changes[n].0);
      RunKeepsInv(rules, changes[..n], b);
      StepKeeps(rules, changes[n].1, b, changes[n].0);
    }
  }

  /** A query's rows, in some order. */
  method Rows(s: set<string>) returns (rows: seq<string>)
    ensures (set k | k in rows) == s
  {
    var rest := s;
    rows := [];
    while rest != {}
      invariant rest <= s && (set k | k in rows) == s - rest
      decreases |rest|
    {
      var k :| k in rest;
      assert (set x | x in rows + [k]) == (set x | x in rows) + {k};
      rows := rows + [k];
      rest := rest - {k};
    }
  }

  /** The roles a new user may be given directly. */
  const BUILT_IN: set<string> := {"system_admin", "security_admin", "auditor", "user"}

  /** A request without roles asks for the role "user". */
  function OrUser(requested: set<string>): set<string> {
    if requested == {} then {"user"} else requested
  }

  /** The service over its repository. Every method checks first and then replaces one row. */
  class Service {
    var direct: map<string, set<string>>
    var groups: map<string, Group>
    const rules: seq<Rule>

    function State(): Directory reads this { Directory(direct, groups) }
    function RuleSet(): set<Rule> { set r | r in rules }
    ghost predicate Valid() reads this { Inv(RuleSet(), State()) }

    constructor (rules: seq<Rule>)
      ensures Valid() && State() == EMPTY && this.rules == rules
    {
      this.rules := rules;
      direct, groups := map[], map[];
    }

    method ValidateGroupMembers(temporary: string -> set<string>, g: string, roles: set<string>, members: seq<string>) returns (ok: bool)
      ensures ok <==> forall u :: u in members ==> MemberFits(RuleSet(), State(), g, u, roles, temporary(u))
    {
      for i := 0 to |members|
        invariant forall k :: 0 <= k < i ==> MemberFits(RuleSet(), State(), g, members[k], roles, temporary(members[k]))
      {
        var u := members[i];
        var other := Rows(DirectRoles(State(), u) + GroupRoles(State(), u, g) + temporary(u) + roles);
        var conflict := HasRoleConflict(other, rules);
        if conflict {
          assert members[i] in members;
          return false;
        }
      }
      return true;
    }

    method CreateUser(user: string, requested: set<string>) returns (ok: bool)
      requires Valid()
      modifies this
      ensures Valid()
      ensures var roles := OrUser(requested);
        && (ok <==> roles <= BUILT_IN && Admitted(RuleSet(), _ => {}, old(State()), Change.CreateUser(user, roles)))
        && State() == if ok then Apply(old(State()), Change.CreateUser(user, roles)) else old(State())
      ensures var roles := if requested == {} then {"user"} else requested;
        && (ok <==> user !in old(direct) && roles <= {"system_admin", "security_admin", "auditor", "user"}
                    && forall r :: r in rules ==> !(r.a in roles && r.b in roles))
        && groups == old(groups) && direct == if ok then old(direct)[user := roles] else old(direct)
    {
      var roles := OrUser(requested);
      if !(roles <= BUILT_IN) { return false; }
      var listed := Rows(roles);
      var conflict := HasRoleConflict(listed, rules);
      if conflict || user in direct { return false; }
      StepKeeps(RuleSet(), _ => {}, State(), Change.CreateUser(user, roles));
      direct := direct[user := roles];
      return true;
    }

    /** `known` are the organisation's roles. */
    method UpdateUserRoles(known: set<string>, user: string, requested: set<string>) returns (ok: bool)
      requires Valid()
      modifies this
      ensures Valid()
      ensures var roles := OrUser(requested);
        && (ok <==> roles <= known && Admitted(RuleSet(), _ => {}, old(State()), SetUserRoles(user, roles)))
        && State() == if ok then Apply(old(State()), SetUserRoles(user, roles)) else old(State())
      ensures var roles := if requested == {} then {"user"} else requested;
        && (ok <==> user in old(direct) && roles <= known && forall r :: r in rules ==>
              !(InForce(old(State()), user, roles, r.a) && InForce(old(State()), user, roles, r.b)))
        && groups == old(groups) && direct == if ok then old(direct)[user := roles] else old(direct)
    {
      var roles := OrUser(requested);
      InForceIsConflict(RuleSet(), State(), user, roles);
      if !(roles <= known) { return false; }
      if user !in direct { return false; }
      var combined := Rows(roles + GroupRoles(State(), user, ""));
      var conflict := HasRoleConflict(combined, rules);
      if conflict { return false; }
      StepKeeps(RuleSet(), _ => {}, State(), SetUserRoles(user, roles));
      direct := direct[user := roles];
      return true;
    }

    method UpdateUserGroup(temporary: string -> set<string>, g: string, active: bool) returns (ok: bool)
      requires Valid()
      modifies this
      ensures Valid()
      ensures ok <==> Admitted(RuleSet(), temporary, old(State()), SetGroupStatus(g, active))
      ensures State() == if ok then Apply(old(State()), SetGroupStatus(g, active)) else old(State())
      ensures ok <==>
        && g in old(groups)
        && (active && !old(groups)[g].active ==> forall u :: u in old(groups)[g].members ==>
              u in old(direct) && NoPair(RuleSet(), old(State()), g, u, old(groups)[g].roles, temporary(u)))
      ensures direct == old(direct) && groups == if ok then old(groups)[g := old(groups)[g].(active := active)] else old(groups)
    {
      if g in groups { FitsMeansNoPair(RuleSet(), State(), g, groups[g].roles, temporary); }
      if g !in groups { return false; }
      if active && !groups[g].active {
        var members := Rows(groups[g].members);
        var fits := ValidateGroupMembers(temporary, g, groups[g].roles, members);
        if !fits { return false; }
      }
      StepKeeps(RuleSet(), temporary, State(), SetGroupStatus(g, active));
      groups := groups[g := groups[g].(active := active)];
      return true;
    }

    method UpdateUserGroupMembers(temporary: string -> set<string>, g: string, members: seq<string>) returns (ok: bool)
      requires Valid()
      modifies this
      ensures Valid()
      ensures ok <==> Admitted(RuleSet(), temporary, old(State()), SetMembers(g, (set u | u in members)))
      ensures State() == if ok then Apply(old(State()), SetMembers(g, (set u | u in members))) else old(State())
      ensures ok <==>
        && g in old(groups)
        && (forall u :: u in members ==> u in old(direct) && NoPair(RuleSet(), old(State()), g, u, old(groups)[g].roles, temporary(u)))
      ensures direct == old(direct) && groups == if ok then old(groups)[g := old(groups)[g].(members := set u | u in members)] else old(groups)
    {
      if g in groups { FitsMeansNoPair(RuleSet(), State(), g, groups[g].roles, temporary); }
      if g !in groups { return false; }
      var fits := ValidateGroupMembers(temporary, g, groups[g].roles, members);
      if !fits { return false; }
      for i := 0 to |members|
        invariant unchanged(this) && forall k :: 0 <= k < i ==> members[k] in direct
      {
        if members[i] !in direct {
          assert members[i] in (set u | u in members);
          return false;
        }
      }
      StepKeeps(RuleSet(), temporary, State(), SetMembers(g, (set u | u in members)));
      groups := groups[g := groups[g].(members := set u | u in members)];
      return true;
    }

    method UpdateUserGroupRoles(known: set<string>, temporary: string -> set<string>, g: string, roles: set<string>) returns (ok: bool)
      requires Valid()
      modifies this
      ensures Valid()
      ensures ok <==> roles <= known && "system_admin" !in roles && Admitted(RuleSet(), temporary, old(State()), SetGroupRoles(g, roles))
      ensures State() == if ok then Apply(old(State()), SetGroupRoles(g, roles)) else old(State())
      ensures ok <==>
        && g in old(groups) && roles <= known && "system_admin" !in roles
        && (forall u :: u in old(groups)[g].members ==> u in old(direct) && NoPair(RuleSet(), old(State()), g, u, roles, temporary(u)))
      ensures direct == old(direct) && groups == if ok then old(groups)[g := old(groups)[g].(roles := roles)] else old(groups)
    {
      FitsMeansNoPair(RuleSet(), State(), g, roles, temporary);
      if g !in groups { return false; }
      if "system_admin" in roles || !(roles <= known) { return false; }
      var members := Rows(groups[g].members);
      var fits := ValidateGroupMembers(temporary, g, roles, members);
      if !fits { return false; }
      StepKeeps(RuleSet(), temporary, State(), SetGroupRoles(g, roles));
      groups := groups[g := groups[g].(roles := roles)];
      return true;
    }
  }

  /** Temporary grants are outside the guarantee: replacing a user's roles does not look at them. The
  roles in force afterwards are free of conflicts exactly when no rule pairs a temporary grant with
  another grant, one of the new roles or an active group's role, which could be checked beforehand. */
  lemma TemporaryGrantsNotChecked(rules: set<Rule>, temporary: string -> set<string>, d: Directory, user: string, roles: set<string>)
    requires Inv(rules, d) && Admitted(rules, temporary, d, SetUserRoles(user, roles))
    ensures var given := temporary(user);
            var all := given + roles + GroupRoles(d, user, "");
            !Conflict(rules, Effective(Apply(d, SetUserRoles(user, roles)), user) + given) <==>
            forall r :: r in rules ==> !(r.a in given && r.b in all) && !(r.b in given && r.a in all)
  {
  }

  lemma TemporaryGrantCounterexample()
    ensures var rules := {Rule("maker", "checker")};
            var d := Directory(map["u" := {}], map[]);
            var temporary := (u: string) => {"checker"};
            && Inv(rules, d) && Admitted(rules, temporary, d, SetUserRoles("u", {"maker"}))
            && Conflict(rules, Effective(Apply(d, SetUserRoles("u", {"maker"})), "u") + temporary("u"))
  {
  }
}
