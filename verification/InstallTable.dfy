/** Install identities: a write-once upsert over two partial unique indexes
    (pkg/controlplane/store.go, IssueInstall, and migrations/postgres/0001_control_plane.sql). */
module InstallTable {
  import opened Wrappers
  import opened Keys

  /** Who an install row is for: the two partial unique indexes of the installs table. */
  datatype Identity = Attested(tenant: string, subject: string) | Unattested(tenant: string, deviceKey: string)

  /** An installs row. */
  datatype Install = Install(id: InstallId, who: Identity, platform: string, tier: nat, deviceKey: string)

  type Byte = b: int | 0 <= b < 256

  const NUL := '\0'

  const HEX := "0123456789abcdef"

  function Hex(bytes: seq<Byte>): (s: string)
    ensures |s| == 2 * |bytes| && forall i :: 0 <= i < |s| ==> s[i] in HEX
  {
    if bytes == [] then "" else [HEX[bytes[0] / 16], HEX[bytes[0] % 16]] + Hex(bytes[1..])
  }

  /** A freshly drawn identity; it never holds a colon. */
  function CandidateId(entropy: seq<Byte>): InstallId {
    "ins_" + Hex(entropy)
  }

  lemma {:induction false} HexInjective(a: seq<Byte>, b: seq<Byte>)
    requires |a| == |b| && Hex(a) == Hex(b)
    ensures a == b
  {
    if a != [] {
      HexDigits(a[0], b[0], Hex(a)[..2], Hex(b)[..2]);
      assert Hex(a)[2..] == Hex(a[1..]) && Hex(b)[2..] == Hex(b[1..]);
      HexInjective(a[1..], b[1..]);
    }
  }

  lemma HexDigits(x: Byte, y: Byte, hx: string, hy: string)
    requires hx == [HEX[x / 16], HEX[x % 16]] && hy == [HEX[y / 16], HEX[y % 16]] && hx == hy
    ensures x == y
  {
    assert hx[0] == hy[0] && hx[1] == hy[1];
    HexDigit(x / 16, y / 16);
    HexDigit(x % 16, y % 16);
  }

  lemma HexDigit(i: nat, j: nat)
    requires i < 16 && j < 16 && HEX[i] == HEX[j]
    ensures i == j
  {
  }

  /** Different draws of the same length are different identities. */
  lemma CandidatesDiffer(a: seq<Byte>, b: seq<Byte>)
    requires |a| == |b|
    ensures CandidateId(a) == CandidateId(b) <==> a == b
  {
    if CandidateId(a) == CandidateId(b) {
      assert CandidateId(a)[4..] == Hex(a) && CandidateId(b)[4..] == Hex(b);
      HexInjective(a, b);
    }
  }

  /** Only a non-empty subject makes an attested row. */
  function IdentityFor(tenant: string, subject: string, deviceKey: string): Identity {
    if subject != "" then Attested(tenant, subject) else Unattested(tenant, deviceKey)
  }

  /** The row an index lookup finds. */
  function Find(rows: seq<Install>, who: Identity): Option<nat> {
    if rows == [] then None
    else if rows[|rows| - 1].who == who then Some(|rows| - 1)
    else Find(rows[..|rows| - 1], who)
  }

  function IdOf(rows: seq<Install>, who: Identity): Option<string> {
    var i := Find(rows, who);
    if i.Some? && i.value < |rows| then Some(rows[i.value].id) else None
  }

  predicate IdTaken(rows: seq<Install>, id: string) {
    exists i :: 0 <= i < |rows| && rows[i].id == id
  }

  /** A Postgres text column refuses a NUL; the digest of a device key never holds one. */
  predicate HoldsNul(who: Identity, platform: string) {
    NUL in platform || (who.Attested? && NUL in who.subject)
  }

  /** The upsert: an existing identity only has its tier refreshed; a new one gets the candidate id
      unless the primary key refuses it. */
  function UpsertInstall(rows: seq<Install>, who: Identity, platform: string, deviceKey: string, tier: nat, candidate: InstallId): Option<seq<Install>> {
    var i := Find(rows, who);
    if HoldsNul(who, platform) then None
    else if i.Some? && i.value < |rows| then Some(rows[i.value := rows[i.value].(tier := tier)])
    else if IdTaken(rows, candidate) then None
    else Some(rows + [Install(candidate, who, platform, tier, deviceKey)])
  }

  /** An identity with a row always gets it back, its tier refreshed and nothing else changed; one
      without a row gets one under the candidate id; refused are text with a NUL and, for a newcomer,
      a candidate that is taken. */
  lemma UpsertMeaning(rows: seq<Install>, who: Identity, platform: string, deviceKey: string, tier: nat, candidate: InstallId)
    ensures var r := UpsertInstall(rows, who, platform, deviceKey, tier, candidate);
            var known := exists i :: 0 <= i < |rows| && rows[i].who == who;
            && (r.None? <==>
                  NUL in platform || (who.Attested? && NUL in who.subject)
                  || (!known && exists i :: 0 <= i < |rows| && rows[i].id == candidate))
            && (r.Some? && !known ==> r.value == rows + [Install(candidate, who, platform, tier, deviceKey)])
            && (r.Some? && known ==>
                  && |r.value| == |rows|
                  && exists i :: 0 <= i < |rows| && rows[i].who == who && r.value[i] == rows[i].(tier := tier)
                                 && forall j :: 0 <= j < |rows| && j != i ==> r.value[j] == rows[j])
  {
    FindFacts(rows, who);
  }

  lemma {:induction false} FindFacts(rows: seq<Install>, who: Identity)
    ensures Find(rows, who).Some? ==> Find(rows, who).value < |rows| && rows[Find(rows, who).value].who == who
    ensures Find(rows, who).None? ==> forall i :: 0 <= i < |rows| ==> rows[i].who != who
  {
    if rows != [] {
      FindFacts(rows[..|rows| - 1], who);
    }
  }

  /** Both kinds of uniqueness: one row per identity, one identity per id. */
  ghost predicate InstallInv(rows: seq<Install>) {
    forall i, j :: 0 <= i < j < |rows| ==> rows[i].who != rows[j].who && rows[i].id != rows[j].id
  }

  lemma IssueKeepsIds(rows: seq<Install>, who: Identity, platform: string, deviceKey: string, tier: nat, candidate: InstallId, other: Identity)
    requires InstallInv(rows)
    ensures var r := UpsertInstall(rows, who, platform, deviceKey, tier, candidate);
            r.Some? ==>
              && InstallInv(r.value)
              && IdOf(r.value, who).Some?
              && (IdOf(rows, other).Some? ==> IdOf(r.value, other) == IdOf(rows, other))
  {
    FindFacts(rows, who);
    FindFacts(rows, other);
    var r := UpsertInstall(rows, who, platform, deviceKey, tier, candidate);
    if r.Some? {
      FindFacts(r.value, who);
      FindFacts(r.value, other);
      if Find(rows, who).None? {
        assert r.value[|rows|].who == who;
      } else {
        assert r.value[Find(rows, who).value].who == who;
      }
      if Find(rows, other).Some? {
        assert r.value[Find(rows, other).value].who == other;
      }
    }
  }

  lemma NoSharedIds(rows: seq<Install>, a: Identity, b: Identity)
    requires InstallInv(rows) && IdOf(rows, a).Some?
    ensures IdOf(rows, a) == IdOf(rows, b) <==> a == b
  {
    FindFacts(rows, a);
    FindFacts(rows, b);
  }

  /** The installs table behind Store.IssueInstall; `fault` is how the statement goes. */
  class Installs {
    var rows: seq<Install>

    constructor ()
      ensures rows == []
    {
      rows := [];
    }

    method IssueInstall(tenant: string, platform: string, subject: string, deviceKey: string, tier: nat, entropy: seq<Byte>, fault: Fault)
      returns (id: Option<string>)
      modifies this
      ensures var who := IdentityFor(tenant, subject, deviceKey);
              var issued := UpsertInstall(old(rows), who, platform, deviceKey, tier, CandidateId(entropy));
              && rows == (if fault.NoEffect? || issued.None? then old(rows) else issued.value)
              && id == (if fault.NoFault? && issued.Some? then IdOf(rows, who) else None)
              && (id.None? <==> !fault.NoFault? || issued.None?)
      ensures IdOf(old(rows), IdentityFor(tenant, subject, deviceKey)).Some? && id.Some? ==>
                id == IdOf(old(rows), IdentityFor(tenant, subject, deviceKey))
      ensures id.Some? && subject != "" ==> exists i :: 0 <= i < |rows| && rows[i].id == id.value && rows[i].who == Attested(tenant, subject)
      ensures id.Some? && subject == "" ==> exists i :: 0 <= i < |rows| && rows[i].id == id.value && rows[i].who == Unattested(tenant, deviceKey)
    {
      var candidate := CandidateId(entropy);
      var who := if subject != "" then Attested(tenant, subject) else Unattested(tenant, deviceKey);
      if fault.NoEffect? || HoldsNul(who, platform) {
        return None;
      }
      var i := Find(rows, who);
      FindFacts(rows, who);
      if i.Some? {
        rows := rows[i.value := rows[i.value].(tier := tier)];
        SameRowFound(old(rows), i.value, tier, who);
        id := Some(rows[i.value].id);
      } else if IdTaken(rows, candidate) {
        return None;
      } else {
        rows := rows + [Install(candidate, who, platform, tier, deviceKey)];
        id := Some(candidate);
      }
      if !fault.NoFault? {
        id := None;
      }
    }
  }

  /** Refreshing a tier does not change which row an identity finds. */
  lemma {:induction false} SameRowFound(rows: seq<Install>, i: nat, tier: nat, who: Identity)
    requires i < |rows|
    ensures Find(rows[i := rows[i].(tier := tier)], who) == Find(rows, who)
    decreases |rows|
  {
    var rows' := rows[i := rows[i].(tier := tier)];
    if i < |rows| - 1 {
      assert rows'[..|rows| - 1] == rows[..|rows| - 1][i := rows[i].(tier := tier)];
      SameRowFound(rows[..|rows| - 1], i, tier, who);
    } else {
      assert rows'[..|rows| - 1] == rows[..|rows| - 1];
    }
  }
}
