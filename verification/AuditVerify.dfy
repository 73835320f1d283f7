/** What VerifyIntegrity answers in the reachable states: for every organisation, and for rows and
anchor that are read by two separate statements. */
module AuditVerify {
  import opened AuditChain
  import opened AuditRuns

  predicate Numbered(chain: seq<Event>) {
    forall i :: 0 <= i < |chain| ==> chain[i].seqNo == i + 1
  }

  predicate SortedRows(rows: seq<Event>) {
    forall i, j :: 0 <= i < j < |rows| ==> rows[i] != rows[j] && rows[i].seqNo <= rows[j].seqNo
  }

  lemma FirstOfTail(chain: seq<Event>, a: nat, rows: seq<Event>)
    requires a < |chain| && Numbered(chain) && SortedRows(rows) && forall e :: e in rows <==> e in chain[a..]
    ensures rows != [] && rows[0] == chain[a]
  {
    assert chain[a..][0] in rows && rows[0] in rows;
    var i :| 0 <= i < |chain| - a && chain[a..][i] == rows[0];
    assert rows[0] == chain[a + i];
  }

  lemma RestOfTail(chain: seq<Event>, a: nat, rows: seq<Event>, e: Event)
    requires a < |chain| && Numbered(chain) && SortedRows(rows) && (e in rows <==> e in chain[a..])
    requires rows != [] && rows[0] == chain[a]
    ensures e in rows[1..] <==> e in chain[a + 1..]
  {
    assert rows == [rows[0]] + rows[1..] && chain[a..] == [chain[a]] + chain[a + 1..];
    if e in rows[1..] {
      var i :| 0 <= i < |rows| - 1 && rows[1..][i] == e;
      assert rows[i + 1] == e;
    }
    if e in chain[a + 1..] {
      var i :| 0 <= i < |chain| - a - 1 && chain[a + 1..][i] == e;
      assert chain[a + 1 + i] == e;
    }
  }

  /** Rows with the numbers of a chain tail, sorted by number, are that tail. */
  lemma {:induction false} SortedTail(chain: seq<Event>, a: nat, rows: seq<Event>)
    requires a <= |chain| && Numbered(chain) && SortedRows(rows) && forall e :: e in rows <==> e in chain[a..]
    ensures rows == chain[a..]
    decreases |chain| - a
  {
    assert rows == [] || rows[0] in rows;
    if a < |chain| {
      FirstOfTail(chain, a, rows);
      forall e ensures e in rows[1..] <==> e in chain[a + 1..] { RestOfTail(chain, a, rows, e); }
      SortedTail(chain, a + 1, rows[1..]);
      assert rows == [rows[0]] + rows[1..] && chain[a..] == [chain[a]] + chain[a + 1..];
    }
  }

  /** All live rows of a scope in sequence order, whatever their organisation. */
  ghost predicate OrderedScope(rows: seq<Event>, logs: set<Event>, s: string) {
    (forall e :: e in rows <==> e in logs && Scope(e.f.org) == s) && SortedRows(rows)
  }

  /** What the invariant says about one scope: `chain` is its history, unbroken and numbered, and its live
  rows are those after position `a`. */
  ghost predicate View(env: Env, chain: seq<Event>, a: nat, logs: set<Event>, s: string) {
    && Linked(env, chain, Head(0, "")) && Numbered(chain) && a <= |chain|
    && (forall e :: e in logs && Scope(e.f.org) == s <==> e in chain[a..])
  }

  lemma TailRow(chain: seq<Event>, a: nat, e: Event)
    requires Numbered(chain) && a <= |chain|
    ensures e in chain[a..] <==> a < e.seqNo <= |chain| && chain[e.seqNo - 1] == e
  {
    if e in chain[a..] {
      var i :| 0 <= i < |chain| - a && chain[a..][i] == e;
      assert e == chain[a + i];
    }
    if a < e.seqNo <= |chain| && chain[e.seqNo - 1] == e { assert chain[a..][e.seqNo - 1 - a] == e; }
  }

  lemma InvView(env: Env, w: World, s: string)
    requires Inv(env, w)
    ensures var a := At(w.db.anchors, s);
            a.seqNo >= 0 && View(env, Hist(w, s), a.seqNo, w.db.logs, s) && a == Head(a.seqNo, HashAt(Hist(w, s), a.seqNo))
  {
    assert ChainOk(env, w, s);
    var chain, a := Hist(w, s), At(w.db.anchors, s).seqNo;
    forall e ensures e in w.db.logs && Scope(e.f.org) == s <==> e in chain[a..] {
      TailRow(chain, a, e);
      if e in w.db.logs { assert LiveRow(w, e); }
    }
  }

  /** The live rows of a scope, in sequence order, are its chain after the anchor. */
  lemma LiveRowsAreTheTail(env: Env, w: World, s: string, rows: seq<Event>)
    requires Inv(env, w) && OrderedScope(rows, w.db.logs, s)
    ensures 0 <= At(w.db.anchors, s).seqNo <= |Hist(w, s)|
    ensures rows == Hist(w, s)[At(w.db.anchors, s).seqNo..]
  {
    InvView(env, w, s);
    SortedTail(Hist(w, s), At(w.db.anchors, s).seqNo, rows);
  }

  /** Rows taken from a chain verify from position `b` exactly when they are numbered from b + 1 on. */
  lemma LinkedIffNumbered(env: Env, chain: seq<Event>, b: nat, rows: seq<Event>)
    requires Linked(env, chain, Head(0, "")) && b <= |chain|
    requires forall i :: 0 <= i < |rows| ==> 1 <= rows[i].seqNo <= |chain| && chain[rows[i].seqNo - 1] == rows[i]
    ensures Linked(env, rows, Head(b, HashAt(chain, b))) <==> forall i :: 0 <= i < |rows| ==> rows[i].seqNo == b + 1 + i
  {
    var from := Head(b, HashAt(chain, b));
    if Linked(env, rows, from) {
      forall i | 0 <= i < |rows| ensures rows[i].seqNo == b + 1 + i { assert LinkAt(env, rows, from, i); }
    }
    if forall i :: 0 <= i < |rows| ==> rows[i].seqNo == b + 1 + i {
      forall i | 0 <= i < |rows| ensures LinkAt(env, rows, from, i) {
        assert rows[i].seqNo == b + 1 + i;
        assert LinkAt(env, chain, Head(0, ""), b + i);
        assert i > 0 ==> rows[i - 1] == chain[b + i - 1];
      }
    }
  }

  /** No live row of another organisation in the same scope comes before one of `org`. */
  ghost predicate ComesFirst(logs: set<Event>, org: string) {
    forall e, d :: e in logs && d in logs && e.f.org == org && d.f.org != org && Scope(d.f.org) == Scope(org) ==>
      e.seqNo < d.seqNo
  }

  lemma RowsAreInChain(env: Env, chain: seq<Event>, a: nat, logs: set<Event>, org: string, rows: seq<Event>)
    requires View(env, chain, a, logs, Scope(org)) && Ordered(rows, logs, org)
    ensures forall i :: 0 <= i < |rows| ==> a < rows[i].seqNo <= |chain| && chain[rows[i].seqNo - 1] == rows[i]
  {
    forall i | 0 <= i < |rows| ensures a < rows[i].seqNo <= |chain| && chain[rows[i].seqNo - 1] == rows[i] {
      assert rows[i] in rows;
      TailRow(chain, a, rows[i]);
    }
  }

  lemma PartRow(env: Env, chain: seq<Event>, a: nat, logs: set<Event>, org: string, rows: seq<Event>, e: Event)
    requires View(env, chain, a, logs, Scope(org)) && Ordered(rows, logs, org) && ComesFirst(logs, org)
    requires rows != [] && a < rows[|rows| - 1].seqNo <= |chain|
    ensures e in rows <==> e in chain[..rows[|rows| - 1].seqNo][a..]
  {
    assert rows[|rows| - 1] in rows;
    TailRow(chain, a, e);
    TailRow(chain[..rows[|rows| - 1].seqNo], a, e);
    if e in rows {
      var i :| 0 <= i < |rows| && rows[i] == e;
    }
  }

  /** If nothing else comes first, the rows are the beginning of the live chain. */
  lemma FirstRowsAreConsecutive(env: Env, chain: seq<Event>, a: nat, logs: set<Event>, org: string, rows: seq<Event>)
    requires View(env, chain, a, logs, Scope(org)) && Ordered(rows, logs, org) && ComesFirst(logs, org)
    ensures forall i :: 0 <= i < |rows| ==> rows[i].seqNo == a + 1 + i
  {
    if rows != [] {
      RowsAreInChain(env, chain, a, logs, org, rows);
      var last := rows[|rows| - 1];
      assert last in rows;
      var part := chain[..last.seqNo];
      forall e ensures e in rows <==> e in part[a..] { PartRow(env, chain, a, logs, org, rows, e); }
      SortedTail(part, a, rows);
    }
  }

  lemma ConsecutiveRowsComeFirst(env: Env, chain: seq<Event>, a: nat, logs: set<Event>, org: string, rows: seq<Event>, e: Event, d: Event)
    requires View(env, chain, a, logs, Scope(org)) && Ordered(rows, logs, org)
    requires forall i :: 0 <= i < |rows| ==> rows[i].seqNo == a + 1 + i
    requires e in logs && d in logs && e.f.org == org && d.f.org != org && Scope(d.f.org) == Scope(org)
    ensures e.seqNo < d.seqNo
  {
    RowsAreInChain(env, chain, a, logs, org, rows);
    TailRow(chain, a, d);
    assert e in rows;
    if d.seqNo <= e.seqNo { NumberedRow(chain, a, rows, d.seqNo); }
  }

  lemma NumberedRow(chain: seq<Event>, a: nat, rows: seq<Event>, n: int)
    requires a < n <= a + |rows| && n <= |chain|
    requires forall i :: 0 <= i < |rows| ==> rows[i].seqNo == a + 1 + i && rows[i].seqNo <= |chain| && chain[rows[i].seqNo - 1] == rows[i]
    ensures chain[n - 1] in rows
  {
    assert rows[n - 1 - a] in rows;
  }

  /** The verifier accepts an organisation if and only if no live row of another one in its scope comes
  before one of its rows. */
  lemma VerifyIffFirst(env: Env, w: World, org: string, rows: seq<Event>)
    requires Inv(env, w) && Ordered(rows, w.db.logs, org)
    ensures Linked(env, rows, At(w.db.anchors, Scope(org))) <==> ComesFirst(w.db.logs, org)
  {
    var s := Scope(org);
    var chain, a := Hist(w, s), At(w.db.anchors, s).seqNo;
    InvView(env, w, s);
    RowsAreInChain(env, chain, a, w.db.logs, org, rows);
    LinkedIffNumbered(env, chain, a, rows);
    if ComesFirst(w.db.logs, org) { FirstRowsAreConsecutive(env, chain, a, w.db.logs, org, rows); }
    if forall i :: 0 <= i < |rows| ==> rows[i].seqNo == a + 1 + i {
      forall e, d | e in w.db.logs && d in w.db.logs && e.f.org == org && d.f.org != org && Scope(d.f.org) == s
        ensures e.seqNo < d.seqNo
      {
        ConsecutiveRowsComeFirst(env, chain, a, w.db.logs, org, rows, e, d);
      }
    }
  }

  /** In every reachable state. Organisation ids are UUIDs, and then the answer is always yes: only events
  without organisation and events of an organisation called "global" share a scope. */
  lemma VerifyAcceptsEveryRun(env: Env, steps: seq<Step>, w: World, org: string, rows: seq<Event>)
    requires Injective(env.sha) && Run(env, steps, w) && Ordered(rows, w.db.logs, org)
    ensures Linked(env, rows, At(w.db.anchors, Scope(org))) <==> ComesFirst(w.db.logs, org)
    ensures org != "" && org != "global" ==> Linked(env, rows, At(w.db.anchors, Scope(org)))
  {
    RunKeeps(env, steps, w);
    VerifyIffFirst(env, w, org, rows);
  }

  /** Events without organisation and those of "global" both verify if and only if the live rows of their
  common scope all belong to one of the two. */
  lemma BothVerifyIffOneOrganisation(env: Env, steps: seq<Step>, w: World, none: seq<Event>, global: seq<Event>)
    requires Injective(env.sha) && Run(env, steps, w)
    requires Ordered(none, w.db.logs, "") && Ordered(global, w.db.logs, "global")
    ensures Linked(env, none, At(w.db.anchors, "global")) && Linked(env, global, At(w.db.anchors, "global")) <==>
            forall e, d :: e in w.db.logs && d in w.db.logs && Scope(e.f.org) == "global" && Scope(d.f.org) == "global" ==>
              e.f.org == d.f.org
  {
    VerifyAcceptsEveryRun(env, steps, w, "", none);
    VerifyAcceptsEveryRun(env, steps, w, "global", global);
  }

  /** A run after which "global" is refused: an event without organisation, then one of "global". */
  lemma GlobalOrganisationBreaksVerify(env: Env, f: Fields, g: Fields) returns (steps: seq<Step>, w: World, rows: seq<Event>)
    requires f.org == "" && g.org == "global" && env.store(1) == 1 && env.store(2) == 2
    ensures Run(env, steps, w) && Ordered(rows, w.db.logs, "global") && !Linked(env, rows, At(w.db.anchors, "global"))
  {
    steps := [Write(f, "a", 1), Write(g, "b", 2)];
    var v := Apply(env, EMPTY, steps[0]);
    w := Apply(env, v, steps[1]);
    assert Run(env, [], EMPTY);
    Snoc(env, [], EMPTY, steps[0], v);
    Snoc(env, [steps[0]], v, steps[1], w);
    assert steps == [] + [steps[0]] + [steps[1]];
    var e := NewRow(env, Head(0, ""), f, "a", 1);
    var d := NewRow(env, Head(1, e.hash), g, "b", 2);
    assert w.db.logs == {e, d};
    rows := [d];
    assert !LinkAt(env, rows, Head(0, ""), 0);
  }

  // ------------------------------------------------------------------ rows and anchor read separately

  ghost predicate Leads(env: Env, w: World, steps: seq<Step>, w': World)
    decreases |steps|
  {
    if steps == [] then w' == w
    else Enabled(env, w, steps[0]) && Leads(env, Apply(env, w, steps[0]), steps[1..], w')
  }

  lemma StepGrows(env: Env, w: World, step: Step, s: string)
    ensures Hist(w, s) <= Hist(Apply(env, w, step), s)
  {
  }

  lemma {:induction false} LeadsKeeps(env: Env, w: World, steps: seq<Step>, w': World, s: string)
    requires Injective(env.sha) && Inv(env, w) && Leads(env, w, steps, w')
    ensures Inv(env, w') && Hist(w, s) <= Hist(w', s)
    decreases |steps|
  {
    if steps != [] {
      StepKeeps(env, w, steps[0]);
      StepGrows(env, w, steps[0], s);
      LeadsKeeps(env, Apply(env, w, steps[0]), steps[1..], w', s);
    }
  }

  /** The same from the two histories and anchors alone. */
  lemma TornViews(env: Env, chain: seq<Event>, a: Head, chain': seq<Event>, a': Head, logs: set<Event>, org: string, rows: seq<Event>)
    requires a.seqNo >= 0 && View(env, chain, a.seqNo, logs, Scope(org)) && a == Head(a.seqNo, HashAt(chain, a.seqNo))
    requires Linked(env, chain', Head(0, "")) && 0 <= a'.seqNo <= |chain'| && a' == Head(a'.seqNo, HashAt(chain', a'.seqNo))
    requires chain <= chain' && Ordered(rows, logs, org) && Linked(env, rows, a)
    ensures Linked(env, rows, a') <==> rows == [] || a' == a
  {
    RowsAreInChain(env, chain, a.seqNo, logs, org, rows);
    LinkedIffNumbered(env, chain, a.seqNo, rows);
    LinkedIffNumbered(env, chain', a'.seqNo, rows);
    assert rows != [] ==> rows[0].seqNo == a.seqNo + 1;
  }

  /** VerifyIntegrity queries the rows first and the anchor afterwards, and a purge may commit in between.
  What verifies in one look is then accepted if and only if there are no rows or the anchor did not move. */
  lemma TornVerify(env: Env, before: seq<Step>, w: World, between: seq<Step>, w': World, org: string, rows: seq<Event>)
    requires Injective(env.sha) && Run(env, before, w) && Leads(env, w, between, w')
    requires Ordered(rows, w.db.logs, org) && Linked(env, rows, At(w.db.anchors, Scope(org)))
    ensures Linked(env, rows, At(w'.db.anchors, Scope(org))) <==>
            rows == [] || At(w'.db.anchors, Scope(org)) == At(w.db.anchors, Scope(org))
  {
    RunKeeps(env, before, w);
    var s := Scope(org);
    LeadsKeeps(env, w, between, w', s);
    InvView(env, w, s);
    InvView(env, w', s);
    TornViews(env, Hist(w, s), At(w.db.anchors, s), Hist(w', s), At(w'.db.anchors, s), w.db.logs, org, rows);
  }

  /** One event, selected and archived. */
  lemma ArchivedRun(env: Env, f: Fields, e: Event, receipt: Receipt) returns (steps: seq<Step>, w: World)
    requires env.store(1) == 1 && env.sha(env.json([e])) != "" && e == NewRow(env, Head(0, ""), f, "a", 1)
    requires receipt == Receipt("worm", "k", "v", env.sha(env.json([e])), 1, 4)
    ensures Run(env, steps, w) && w.db.logs == {e} && At(w.db.anchors, Scope(f.org)) == Head(0, "")
    ensures w.purge == Archived([e], 2, receipt)
  {
    var s0, s1, s2 := Write(f, "a", 1), Select([e], 2, 3), Archive(receipt, map["k" := env.json([e])], 3);
    assert Run(env, [], EMPTY);
    var v1 := Apply(env, EMPTY, s0);
    Snoc(env, [], EMPTY, s0, v1);
    var v2 := Apply(env, v1, s1);
    Snoc(env, [] + [s0], v1, s1, v2);
    w := Apply(env, v2, s2);
    Snoc(env, [] + [s0] + [s1], v2, s2, w);
    steps := [] + [s0] + [s1] + [s2];
  }

  lemma DeleteOne(env: Env, w: World, e: Event, s: string)
    requires w.purge.Archived? && w.purge.batch == [e] && s == Scope(e.f.org)
    ensures Enabled(env, w, Delete(map[s := e]))
    ensures At(Apply(env, w, Delete(map[s := e])).db.anchors, s) == Head(e.seqNo, e.hash)
  {
  }

  /** A run in which it matters: the row is read, the purge that archived it commits, the anchor is read. */
  lemma PurgeTearsVerify(env: Env, f: Fields) returns (before: seq<Step>, w: World, between: seq<Step>, w': World, rows: seq<Event>)
    requires env.store(1) == 1 && forall x :: env.sha(x) != ""
    ensures Run(env, before, w) && Leads(env, w, between, w')
    ensures Ordered(rows, w.db.logs, f.org) && Linked(env, rows, At(w.db.anchors, Scope(f.org)))
    ensures !Linked(env, rows, At(w'.db.anchors, Scope(f.org)))
  {
    var s, e := Scope(f.org), NewRow(env, Head(0, ""), f, "a", 1);
    before, w := ArchivedRun(env, f, e, Receipt("worm", "k", "v", env.sha(env.json([e])), 1, 4));
    between := [Delete(map[s := e])];
    rows := [e];
    w' := Apply(env, w, between[0]);
    DeleteOne(env, w, e, s);
    assert between[1..] == [];
    assert LinkAt(env, rows, Head(0, ""), 0);
    assert !LinkAt(env, rows, Head(1, e.hash), 0);
  }

  lemma Snoc(env: Env, steps: seq<Step>, v: World, step: Step, w: World)
    requires Run(env, steps, v) && Enabled(env, v, step) && w == Apply(env, v, step)
    ensures Run(env, steps + [step], w)
  {
    assert (steps + [step])[..|steps|] == steps;
  }
}
