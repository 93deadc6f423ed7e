/** One-shot attestation nonces in Redis (services/ingest/internal/attest/attest.go). */
module Challenges {
  import opened Wrappers
  import opened Clock
  import opened Keys

  const CHALLENGE_TTL := 5 * 60 * NS_PER_SEC

  /** A nonce bound to the Redis key of the client and platform that asked for it. */
  datatype Challenge = Challenge(key: string, nonce: string)

  datatype Outstanding = Outstanding(nonce: string, expireAt: int)

  /** The nonces in Redis, at most one per key. */
  type Nonces = map<string, Outstanding>

  function Store(n: Nonces, key: string, nonce: string, at: int): Nonces {
    n[key := Outstanding(nonce, at + CHALLENGE_TTL)]
  }

  /** GETDEL: the outstanding nonce is gone afterwards whether or not it was the one presented. An
      error counts as a wrong nonce, whether or not the command ran. */
  function Take(n: Nonces, key: string, challenge: string, at: int, fault: Fault): (Nonces, bool) {
    if challenge == "" || fault.NoEffect? then (n, false)
    else (n - {key}, fault.NoFault? && key in n && at < n[key].expireAt && n[key].nonce == challenge)
  }

  /** A command that takes effect uses the outstanding nonce up, whatever was presented, and nothing
      else; it succeeds exactly when its reply arrives and the nonce was alive and the one presented. */
  lemma TakeMeaning(n: Nonces, key: string, challenge: string, at: int, fault: Fault)
    ensures var (n', ok) := Take(n, key, challenge, at, fault);
            && (challenge == "" || fault.NoEffect? ==> n' == n)
            && (challenge != "" && !fault.NoEffect? ==>
                  key !in n' && forall k :: k != key ==> (k in n' <==> k in n) && (k in n ==> n'[k] == n[k]))
            && (ok <==> challenge != "" && fault.NoFault? && key in n && at < n[key].expireAt && n[key].nonce == challenge)
  {
  }

  /** The production challenge store; `fault` is how the Redis command goes. */
  class RedisChallenges {
    var nonces: Nonces

    constructor ()
      ensures nonces == map[]
    {
      nonces := map[];
    }

    method Issue(client: string, platform: string, nonce: string, at: int, fault: Fault) returns (ok: bool)
      modifies this
      ensures ok <==> fault.NoFault?
      ensures nonces == if fault.NoEffect? then old(nonces) else Store(old(nonces), AttestKey(client, platform), nonce, at)
    {
      if fault.NoEffect? {
        return false;
      }
      nonces := nonces[AttestKey(client, platform) := Outstanding(nonce, at + CHALLENGE_TTL)];
      return fault.NoFault?;
    }

    method Consume(client: string, platform: string, challenge: string, at: int, fault: Fault) returns (ok: bool)
      modifies this
      ensures (nonces, ok) == Take(old(nonces), AttestKey(client, platform), challenge, at, fault)
      ensures challenge != "" && !fault.NoEffect? ==> nonces == old(nonces) - {AttestKey(client, platform)}
      ensures challenge == "" || fault.NoEffect? ==> nonces == old(nonces)
      ensures var key := AttestKey(client, platform);
              ok <==> challenge != "" && fault.NoFault? && key in old(nonces)
                      && at < old(nonces)[key].expireAt && old(nonces)[key].nonce == challenge
    {
      if challenge == "" {
        return false;
      }
      var key := AttestKey(client, platform);
      if fault.NoEffect? {
        return false;
      }
      var got := if key in nonces && at < nonces[key].expireAt then Some(nonces[key].nonce) else None;
      nonces := nonces - {key};
      return fault.NoFault? && got == Some(challenge);
    }
  }
}
