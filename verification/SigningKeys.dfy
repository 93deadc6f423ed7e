/** The signing_keys table: bootstrap by racing replicas, rotation, and publication
    (pkg/controlplane/keys.go). */
module SigningKeys {
  import opened Wrappers
  import opened KeyCache

  /** A row; `pair` stands for the key pair, whose two halves never part. */
  datatype KeyRow = KeyRow(pair: int, active: bool, retiredAt: Option<int>)

  type Table = map<string, KeyRow>

  predicate Live(r: KeyRow) {
    r.active && r.retiredAt.None?
  }

  predicate HasActive(t: Table) {
    exists k :: k in t && Live(t[k])
  }

  /** The partial unique index: at most one active, unretired row. */
  ghost predicate OneActive(t: Table) {
    forall j, k :: j in t && k in t && Live(t[j]) && Live(t[k]) ==> j == k
  }

  /** INSERT ... ON CONFLICT DO NOTHING: refused by the primary key or by the partial index. */
  function InsertActive(t: Table, kid: string, pair: int): Table {
    if kid in t || HasActive(t) then t else t[kid := KeyRow(pair, true, None)]
  }

  function JwkOf(pair: int): Jwk {
    Jwk("OKP", "Ed25519", Some("sig"), pair)
  }

  /** What the JWKS endpoint serves: every unretired public key. */
  function Published(t: Table): KeySet {
    map kid | kid in t && t[kid].retiredAt.None? :: JwkOf(t[kid].pair)
  }

  class Store {
    var rows: Table

    constructor ()
      ensures rows == map[]
    {
      rows := map[];
    }

    method PublicJwks() returns (keys: KeySet)
      ensures keys == Published(rows)
    {
      keys := map[];
      var todo := set kid | kid in rows && rows[kid].retiredAt.None?;
      ghost var all := todo;
      while todo != {}
        invariant todo <= all
        invariant keys == map kid | kid in all - todo :: JwkOf(rows[kid].pair)
        decreases |todo|
      {
        var kid :| kid in todo;
        keys := keys[kid := JwkOf(rows[kid].pair)];
        todo := todo - {kid};
      }
    }

    method ActiveSigningKey() returns (kid: Option<string>)
      ensures kid.None? <==> !HasActive(rows)
      ensures kid.Some? ==> kid.value in rows && Live(rows[kid.value])
    {
      if HasActive(rows) {
        var k :| k in rows && Live(rows[k]);
        return Some(k);
      }
      return None;
    }

    /** True when an active key exists afterwards. */
    method EnsureSigningKey(kid: string, pair: int) returns (ok: bool)
      requires OneActive(rows)
      modifies this
      ensures rows == InsertActive(old(rows), kid, pair) && OneActive(rows)
      ensures ok <==> HasActive(rows)
      ensures !ok <==> kid in old(rows) && !HasActive(old(rows))
    {
      if !HasActive(rows) && kid !in rows {
        rows := rows[kid := KeyRow(pair, true, None)];
        assert Live(rows[kid]);
        return true;
      }
      var active := ActiveSigningKey();
      return active.Some?;
    }
  }

  // ---- Racing replicas and rotation -------------------------------------------------------

  /** Where a replica's EnsureSigningKey call stands: the existence check and the insert it guards
      may be separated by anything. */
  datatype Progress =
    | Checked(kid: string, pair: int, free: bool)
    | Conflicted
    | Returned(saw: string)
    | Failed

  datatype State = State(table: Table, replicas: map<nat, Progress>)

  datatype Step =
    | Check(r: nat, kid: string, pair: int)
    | TryInsert(r: nat)
    | Reread(r: nat)
    | OperatorInsert(kid: string, pair: int, active: bool)
    | OperatorSetActive(kid: string, active: bool)
    | OperatorRetire(kid: string, at: int)

  /** An operator's statement; one that would break a constraint fails. */
  function Operate(t: Table, step: Step): Table {
    match step
    case OperatorInsert(kid, pair, active) =>
      if kid in t || (active && HasActive(t)) then t else t[kid := KeyRow(pair, active, None)]
    case OperatorSetActive(kid, active) =>
      if kid !in t || (active && t[kid].retiredAt.None? && HasActive(t) && !Live(t[kid])) then t
      else t[kid := t[kid].(active := active)]
    case OperatorRetire(kid, at) =>
      if kid !in t || t[kid].retiredAt.Some? then t else t[kid := t[kid].(retiredAt := Some(at))]
    case _ => t
  }

  /** The active row's kid, if there is one. */
  ghost function ActiveKid(t: Table): string
    requires HasActive(t)
    ensures ActiveKid(t) in t && Live(t[ActiveKid(t)])
  {
    var k :| k in t && Live(t[k]);
    k
  }

  ghost function Apply(s: State, step: Step): State {
    match step
    case Check(r, kid, pair) =>
      if r in s.replicas then s else s.(replicas := s.replicas[r := Checked(kid, pair, !HasActive(s.table))])
    case TryInsert(r) =>
      if r !in s.replicas || !s.replicas[r].Checked? then s
      else
        var p := s.replicas[r];
        if p.free && InsertActive(s.table, p.kid, p.pair) != s.table then
          State(InsertActive(s.table, p.kid, p.pair), s.replicas[r := Returned(p.kid)])
        else s.(replicas := s.replicas[r := Conflicted])
    case Reread(r) =>
      if r !in s.replicas || !s.replicas[r].Conflicted? then s
      else s.(replicas := s.replicas[r := if HasActive(s.table) then Returned(ActiveKid(s.table)) else Failed])
    case _ => s.(table := Operate(s.table, step))
  }

  const COLD := State(map[], map[])

  ghost function Exec(steps: seq<Step>): State {
    if steps == [] then COLD else Apply(Exec(steps[..|steps| - 1]), steps[|steps| - 1])
  }

  lemma {:induction false} NeverTwoActiveKeys(steps: seq<Step>)
    ensures OneActive(Exec(steps).table)
  {
    if steps != [] {
      var front, step := steps[..|steps| - 1], steps[|steps| - 1];
      NeverTwoActiveKeys(front);
      StepKeepsOneActive(Exec(front), step);
    }
  }

  lemma StepKeepsOneActive(s: State, step: Step)
    requires OneActive(s.table)
    ensures OneActive(Apply(s, step).table)
  {
    var t, t' := s.table, Apply(s, step).table;
    forall j, k | j in t' && k in t' && Live(t'[j]) && Live(t'[k])
      ensures j == k
    {
      assert j in t && k in t && Live(t[j]) && Live(t[k]) ==> j == k;
      assert j in t && Live(t[j]) ==> HasActive(t);
      assert k in t && Live(t[k]) ==> HasActive(t);
    }
  }

  /** A table later in the life of an earlier one: no row is lost, none changes its key material,
      and retirement is final. */
  ghost predicate Later(t: Table, t': Table) {
    forall kid :: kid in t ==> kid in t' && t'[kid].pair == t[kid].pair
                               && (t[kid].retiredAt.Some? ==> t'[kid].retiredAt == t[kid].retiredAt)
  }

  /** No kid's key material ever changes. */
  lemma {:induction false} MaterialNeverChanges(before: seq<Step>, after: seq<Step>)
    ensures Later(Exec(before).table, Exec(before + after).table)
  {
    if after == [] {
      assert before + after == before;
    } else {
      MaterialNeverChanges(before, after[..|after| - 1]);
      assert (before + after)[..|before + after| - 1] == before + after[..|after| - 1];
    }
  }

  lemma ReturningStep(s: State, step: Step, r: nat)
    requires r in Apply(s, step).replicas && Apply(s, step).replicas[r].Returned?
    ensures (r in s.replicas && s.replicas[r] == Apply(s, step).replicas[r])
            || (var t, saw := Apply(s, step).table, Apply(s, step).replicas[r].saw; saw in t && Live(t[saw]))
  {
  }

  /** In every run, a call that has returned without error saw a kid that was active and unretired
      at some moment of the run, and whose key pair is still the one it saw. */
  lemma {:induction false} ReturningSawActiveKey(steps: seq<Step>, r: nat) returns (n: nat)
    requires r in Exec(steps).replicas && Exec(steps).replicas[r].Returned?
    ensures n <= |steps|
    ensures var saw, earlier, later := Exec(steps).replicas[r].saw, Exec(steps[..n]).table, Exec(steps).table;
            && saw in earlier && Live(earlier[saw])
            && saw in later && later[saw].pair == earlier[saw].pair
  {
    hide Apply, InsertActive, Operate;
    var front, step := steps[..|steps| - 1], steps[|steps| - 1];
    ReturningStep(Exec(front), step, r);
    if r in Exec(front).replicas && Exec(front).replicas[r] == Exec(steps).replicas[r] {
      n := ReturningSawActiveKey(front, r);
      assert steps[..n] == front[..n];
    } else {
      n := |steps|;
      assert steps[..n] == steps;
    }
    assert steps == steps[..n] + steps[n..];
    MaterialNeverChanges(steps[..n], steps[n..]);
  }

  predicate IsBoot(step: Step) {
    step.Check? || step.TryInsert? || step.Reread?
  }

  /** Before the first insert nobody has met a conflict; after it the table holds one live key,
      the one every finished replica saw. */
  ghost predicate Booting(s: State) {
    && (forall r :: r in s.replicas ==> !s.replicas[r].Failed?)
    && (s.table == map[] ==>
          forall r :: r in s.replicas ==> s.replicas[r].Checked? && s.replicas[r].free)
    && (s.table != map[] ==>
          exists k :: s.table.Keys == {k} && Live(s.table[k])
                      && forall r :: r in s.replicas && s.replicas[r].Returned? ==> s.replicas[r].saw == k)
  }

  lemma BootStep(s: State, step: Step)
    requires Booting(s) && IsBoot(step)
    ensures Booting(Apply(s, step))
  {
    var s' := Apply(s, step);
    if s.table == map[] {
      assert !HasActive(s.table);
      if s'.table != map[] {
        var k := s.replicas[step.r].kid;
        assert s'.table == map[k := KeyRow(s.replicas[step.r].pair, true, None)];
        assert s'.table.Keys == {k};
      }
    } else {
      var k :| s.table.Keys == {k} && Live(s.table[k])
               && forall r :: r in s.replicas && s.replicas[r].Returned? ==> s.replicas[r].saw == k;
      assert k in s.table && HasActive(s.table);
      assert s'.table == s.table;
      assert ActiveKid(s.table) in s.table.Keys;
      assert forall r :: r in s'.replicas && s'.replicas[r].Returned? ==> s'.replicas[r].saw == k;
    }
  }

  lemma {:induction false} BootRun(steps: seq<Step>)
    requires forall step :: step in steps ==> IsBoot(step)
    ensures Booting(Exec(steps))
  {
    if steps != [] {
      var front, last := steps[..|steps| - 1], steps[|steps| - 1];
      assert steps == front + [last];
      BootRun(front);
      BootStep(Exec(front), last);
    }
  }

  /** From an empty table and without rotation, however many replicas race and whatever kids they
      bring, no call fails and all of them see the same kid, which stays the active one. */
  lemma ColdStartAgrees(steps: seq<Step>, a: nat, b: nat)
    requires forall step :: step in steps ==> IsBoot(step)
    requires var s := Exec(steps);
             a in s.replicas && b in s.replicas && s.replicas[a].Returned? && s.replicas[b].Returned?
    ensures forall r :: r in Exec(steps).replicas ==> !Exec(steps).replicas[r].Failed?
    ensures Exec(steps).replicas[a].saw == Exec(steps).replicas[b].saw
    ensures HasActive(Exec(steps).table) && ActiveKid(Exec(steps).table) == Exec(steps).replicas[a].saw
  {
    BootRun(steps);
    var s := Exec(steps);
    var k :| s.table.Keys == {k} && Live(s.table[k])
             && forall r :: r in s.replicas && s.replicas[r].Returned? ==> s.replicas[r].saw == k;
    assert k in s.table;
    assert ActiveKid(s.table) in s.table.Keys;
  }
}
