/** The Postgres migration runner (pkg/controlplane/migrate.go): each file's body and its ledger row
    commit together, replicas start together, and any of them may crash anywhere. */
module PgMigrate {
  import opened Wrappers

  /** Where a replica stands: waiting for the advisory lock; between files; in a transaction that has
      found its file unapplied; in one whose body has run, with the database as that transaction
      sees it; or gone. */
  datatype Progress =
    | Waiting
    | Ready(next: nat)
    | Opened(next: nat)
    | Applied(next: nat, view: seq<string>)
    | Finished
    | Failed(conflict: bool)
    | Crashed

  /** The committed database: the ledger, and the bodies that have taken effect in order. Any schema
      semantics is a fold over the latter. */
  datatype State = State(ledger: seq<string>, effects: seq<string>, holder: Option<nat>, replicas: map<nat, Progress>)

  /** `SkipLock` and `LoseLock` are what the lock is there to prevent: a replica proceeding without
      it, and its session ending under a running replica. */
  datatype Step =
    | Start(r: nat)
    | Lock(r: nat)
    | SkipLock(r: nat)
    | LoseLock
    | Begin(r: nat)
    | RunBody(r: nat, ok: bool)
    | Commit(r: nat)
    | Finish(r: nat)
    | Crash(r: nat)

  function Release(holder: Option<nat>, r: nat): Option<nat> {
    if holder == Some(r) then None else holder
  }

  function Move(s: State, r: nat, p: Progress): State {
    s.(replicas := s.replicas[r := p])
  }

  /** Leaving, for whatever reason, gives the lock back. */
  function Leave(s: State, r: nat, p: Progress): State {
    s.(replicas := s.replicas[r := p], holder := Release(s.holder, r))
  }

  predicate At(s: State, r: nat, p: Progress) {
    r in s.replicas && s.replicas[r] == p
  }

  function ApplyBegin(s: State, names: seq<string>, r: nat): State {
    if r !in s.replicas || !s.replicas[r].Ready? || s.replicas[r].next >= |names| then s
    else
      var i := s.replicas[r].next;
      Move(s, r, if names[i] in s.ledger then Ready(i + 1) else Opened(i))
  }

  function ApplyBody(s: State, names: seq<string>, r: nat, ok: bool): State {
    if r !in s.replicas || !s.replicas[r].Opened? || s.replicas[r].next >= |names| then s
    else if !ok then Leave(s, r, Failed(false))
    else Move(s, r, Applied(s.replicas[r].next, s.effects + [names[s.replicas[r].next]]))
  }

  /** The ledger's primary key decides. */
  function ApplyCommit(s: State, names: seq<string>, r: nat): State {
    if r !in s.replicas || !s.replicas[r].Applied? || s.replicas[r].next >= |names| then s
    else
      var p := s.replicas[r];
      if names[p.next] in s.ledger then Leave(s, r, Failed(true))
      else Move(s.(ledger := s.ledger + [names[p.next]], effects := p.view), r, Ready(p.next + 1))
  }

  function Apply(s: State, names: seq<string>, step: Step): State {
    match step
    case Start(r) => if r in s.replicas then s else Move(s, r, Waiting)
    case Lock(r) => if At(s, r, Waiting) && s.holder == None then Move(s, r, Ready(0)).(holder := Some(r)) else s
    case SkipLock(r) => if At(s, r, Waiting) then Move(s, r, Ready(0)) else s
    case LoseLock => s.(holder := None)
    case Begin(r) => ApplyBegin(s, names, r)
    case RunBody(r, ok) => ApplyBody(s, names, r, ok)
    case Commit(r) => ApplyCommit(s, names, r)
    case Finish(r) => if At(s, r, Ready(|names|)) then Leave(s, r, Finished) else s
    case Crash(r) => if r in s.replicas then Leave(s, r, Crashed) else s
  }

  const COLD := State([], [], None, map[])

  function Exec(names: seq<string>, steps: seq<Step>): State {
    if steps == [] then COLD else Apply(Exec(names, steps[..|steps| - 1]), names, steps[|steps| - 1])
  }

  /** How far a replica has got, and what an open transaction would install. */
  ghost predicate ReplicaOk(s: State, names: seq<string>, p: Progress) {
    match p
    case Ready(i) => i <= |s.ledger|
    case Opened(i) => i <= |s.ledger| && i < |names|
    case Applied(i, view) => i <= |s.ledger| && i < |names| && (i == |s.ledger| ==> view == s.effects + [names[i]])
    case Finished => |s.ledger| == |names|
    case _ => true
  }

  ghost predicate Inv(s: State, names: seq<string>) {
    && s.ledger <= names
    && s.effects == s.ledger
    && (forall r :: r in s.replicas ==> ReplicaOk(s, names, s.replicas[r]))
  }

  lemma PrefixMember(ledger: seq<string>, names: seq<string>, i: nat)
    requires Distinct(names) && ledger <= names && i < |names|
    ensures names[i] in ledger <==> i < |ledger|
  {
    if names[i] in ledger {
      var j :| 0 <= j < |ledger| && ledger[j] == names[i];
      assert names[j] == names[i];
    }
    if i < |ledger| {
      assert ledger[i] == names[i];
    }
  }

  lemma CommitKeepsInv(s: State, names: seq<string>, r: nat)
    requires Distinct(names) && Inv(s, names)
    ensures Inv(ApplyCommit(s, names, r), names)
  {
    if r in s.replicas && s.replicas[r].Applied? && s.replicas[r].next < |names| {
      PrefixMember(s.ledger, names, s.replicas[r].next);
      assert ReplicaOk(s, names, s.replicas[r]);
    }
  }

  lemma StepKeepsInv(s: State, names: seq<string>, step: Step)
    requires Distinct(names) && Inv(s, names)
    ensures Inv(Apply(s, names, step), names)
  {
    match step
    case Begin(r) =>
      if r in s.replicas && s.replicas[r].Ready? && s.replicas[r].next < |names| {
        PrefixMember(s.ledger, names, s.replicas[r].next);
      }
    case Commit(r) => CommitKeepsInv(s, names, r);
    case _ =>
  }

  lemma {:induction false} RunKeepsInv(names: seq<string>, steps: seq<Step>)
    requires Distinct(names)
    ensures Inv(Exec(names, steps), names)
  {
    if steps != [] {
      RunKeepsInv(names, steps[..|steps| - 1]);
      StepKeepsInv(Exec(names, steps[..|steps| - 1]), names, steps[|steps| - 1]);
    }
  }

  /** With or without the lock, for any number of replicas, any interleaving and crashes anywhere:
      the ledger is always a prefix of the sorted names, exactly the bodies of that prefix have
      taken effect, once each and in order, and a replica that returns without error leaves none
      out. */
  lemma EachFileTakesEffectOnce(names: seq<string>, steps: seq<Step>)
    requires Distinct(names)
    ensures var s := Exec(names, steps);
            && s.ledger <= names
            && s.effects == names[..|s.ledger|]
            && Distinct(s.effects)
            && ((exists r :: r in s.replicas && s.replicas[r].Finished?) ==> s.ledger == names)
  {
    RunKeepsInv(names, steps);
    var s := Exec(names, steps);
    if r :| r in s.replicas && s.replicas[r].Finished? {
      assert ReplicaOk(s, names, s.replicas[r]);
    }
  }

  // ---- What the lock is for ---------------------------------------------------------------

  predicate Working(p: Progress) {
    p.Ready? || p.Opened? || p.Applied?
  }

  /** Only the holder works, on the next unapplied file. */
  ghost predicate Serial(s: State) {
    forall r :: r in s.replicas ==>
      && (Working(s.replicas[r]) ==> s.holder == Some(r))
      && (s.replicas[r].Opened? || s.replicas[r].Applied? ==> s.replicas[r].next == |s.ledger|)
      && s.replicas[r] != Failed(true)
  }

  predicate RespectsLock(step: Step) {
    !step.SkipLock? && !step.LoseLock?
  }

  lemma StepStaysSerial(s: State, names: seq<string>, step: Step)
    requires Distinct(names) && Inv(s, names) && Serial(s) && RespectsLock(step)
    ensures Serial(Apply(s, names, step))
  {
    match step
    case Begin(r) =>
      if r in s.replicas && s.replicas[r].Ready? && s.replicas[r].next < |names| {
        assert ReplicaOk(s, names, s.replicas[r]);
        PrefixMember(s.ledger, names, s.replicas[r].next);
      }
    case Commit(r) =>
      if r in s.replicas && s.replicas[r].Applied? && s.replicas[r].next < |names| {
        PrefixMember(s.ledger, names, s.replicas[r].next);
      }
    case _ =>
  }

  /** While the lock is respected, no replica ever fails because another one was faster. */
  lemma {:induction false} LockRemovesRaceErrors(names: seq<string>, steps: seq<Step>)
    requires Distinct(names) && forall step :: step in steps ==> RespectsLock(step)
    ensures Serial(Exec(names, steps))
    ensures forall r :: r in Exec(names, steps).replicas ==> Exec(names, steps).replicas[r] != Failed(true)
  {
    if steps != [] {
      var front, last := steps[..|steps| - 1], steps[|steps| - 1];
      assert steps == front + [last];
      LockRemovesRaceErrors(names, front);
      RunKeepsInv(names, front);
      StepStaysSerial(Exec(names, front), names, last);
    }
  }

  /** A held lock is held by a replica still at work: whoever leaves, for whatever reason, has given
      it back. */
  ghost predicate HolderWorks(s: State) {
    s.holder.Some? ==> s.holder.value in s.replicas && Working(s.replicas[s.holder.value])
  }

  lemma StepKeepsHolderWorking(s: State, names: seq<string>, step: Step)
    requires HolderWorks(s)
    ensures HolderWorks(Apply(s, names, step))
  {
  }

  /** In every run the lock belongs to a replica that is still working, so it is free as soon as none
      is, and then a waiting replica can take it. */
  lemma {:induction false} LockIsGivenBack(names: seq<string>, steps: seq<Step>)
    ensures var s := Exec(names, steps);
            && (s.holder.Some? ==> s.holder.value in s.replicas && Working(s.replicas[s.holder.value]))
            && ((forall q :: q in s.replicas ==> !Working(s.replicas[q])) ==>
                  forall r :: r in s.replicas && s.replicas[r].Waiting? ==>
                    Apply(s, names, Lock(r)).holder == Some(r) && Apply(s, names, Lock(r)).replicas[r] == Ready(0))
  {
    if steps != [] {
      var front, last := steps[..|steps| - 1], steps[|steps| - 1];
      LockIsGivenBack(names, front);
      StepKeepsHolderWorking(Exec(names, front), names, last);
    }
  }

  /** Without it they do: of two replicas that have both run the body of the next file, whoever
      commits second fails on the ledger's primary key. */
  lemma WithoutLockTheLoserFails(s: State, names: seq<string>, a: nat, b: nat)
    requires Distinct(names) && Inv(s, names) && a != b && a in s.replicas && b in s.replicas
    requires s.replicas[a].Applied? && s.replicas[b].Applied?
    requires s.replicas[a].next == s.replicas[b].next == |s.ledger|
    ensures var s' := Apply(Apply(s, names, Commit(a)), names, Commit(b));
            s'.replicas[a].Ready? && s'.replicas[b] == Failed(true)
  {
    assert ReplicaOk(s, names, s.replicas[a]);
    PrefixMember(s.ledger, names, |s.ledger|);
    var s1 := Apply(s, names, Commit(a));
    assert s1.replicas[b] == s.replicas[b];
    assert s1.ledger == s.ledger + [names[|s.ledger|]];
    assert s1.ledger[|s.ledger|] == names[|s.ledger|];
  }

  // ---- The runner as written, alone -------------------------------------------------------

  class Database {
    var ledger: seq<string>
    var effects: seq<string>

    constructor ()
      ensures ledger == [] && effects == []
    {
      ledger, effects := [], [];
    }

    /** One call of Migrate; the parameters say which files' statements and commits go well. A failure
        rolls its file back and ends the run; without one every file takes effect. */
    method Migrate(names: seq<string>, bodyWorks: nat -> bool, commitWorks: nat -> bool) returns (ok: bool)
      requires Distinct(names) && ledger <= names && effects == ledger
      modifies this
      ensures old(ledger) <= ledger <= names && effects == ledger
      ensures ok ==> ledger == names
      ensures !ok ==> exists i: nat :: i < |names| && ledger == names[..i] && !(bodyWorks(i) && commitWorks(i))
    {
      for i := 0 to |names|
        invariant old(ledger) <= ledger <= names && effects == ledger
        invariant i <= |ledger|
      {
        PrefixMember(ledger, names, i);
        if names[i] in ledger {
          continue;
        }
        assert |ledger| == i && ledger == names[..i];
        if !bodyWorks(i) {
          return false;
        }
        var view := effects + [names[i]];
        if !commitWorks(i) {
          return false;
        }
        effects := view;
        ledger := ledger + [names[i]];
        assert |ledger| == i + 1 && names[..i + 1] == names[..i] + [names[i]];
      }
      return true;
    }
  }
}
