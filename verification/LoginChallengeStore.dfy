/** One-time login challenges and their atomic store steps (src/models.rs,
    src/stores.rs, src/tests.rs). */
module LoginChallengeStore {
  import opened Common

  datatype Challenge = Challenge(
    id: Id,
    principal: string,
    codeHash: string,
    createdAt: Time,
    expiresAt: Time,
    attempts: nat,
    maxAttempts: nat,
    consumedAt: Option<Time>,
    channel: Option<string>)
  {
    predicate ExpiredAt(now: Time) {
      expiresAt <= now
    }

    predicate Consumed() {
      consumedAt.Some?
    }

    predicate Exhausted() {
      attempts >= maxAttempts
    }
  }

  type Challenges = map<Id, Challenge>

  datatype ChallengeError = Invalid | Replayed | Expired | AttemptsExhausted

  /** Why `reserve_login_challenge_attempt` refuses, if it does. */
  function ReserveRefusal(challenges: Challenges, id: Id, at: Time): Option<ChallengeError> {
    if id !in challenges then Some(Invalid)
    else if challenges[id].Consumed() then Some(Replayed)
    else if challenges[id].ExpiredAt(at) then Some(Expired)
    else if challenges[id].Exhausted() then Some(AttemptsExhausted)
    else None
  }

  /** The committed effect of an admission. */
  function Admit(challenges: Challenges, id: Id): Challenges {
    if id in challenges then challenges[id := challenges[id].(attempts := challenges[id].attempts + 1)] else challenges
  }

  predicate CanConsume(challenges: Challenges, id: Id, at: Time) {
    id in challenges && !challenges[id].Consumed() && !challenges[id].ExpiredAt(at) && challenges[id].attempts > 0
  }

  /** The committed effect of `consume_login_challenge`. */
  function Consume(challenges: Challenges, id: Id, at: Time): Challenges {
    if CanConsume(challenges, id, at) then challenges[id := challenges[id].(consumedAt := Some(at))] else challenges
  }

  /** The in-memory store of src/tests.rs. */
  class MemoryLoginChallengeStore {
    var challenges: Challenges

    constructor ()
      ensures challenges == map[]
    {
      challenges := map[];
    }

    method InsertLoginChallenge(challenge: Challenge) returns (inserted: bool)
      modifies this
      ensures inserted == (challenge.id !in old(challenges))
      ensures challenges == if inserted then old(challenges)[challenge.id := challenge] else old(challenges)
    {
      if challenge.id in challenges {
        return false;
      }
      challenges := challenges[challenge.id := challenge];
      return true;
    }

    method FindLoginChallenge(id: Id) returns (found: Option<Challenge>)
      ensures found == if id in challenges then Some(challenges[id]) else None
    {
      found := if id in challenges then Some(challenges[id]) else None;
    }

    method ReserveLoginChallengeAttempt(id: Id, at: Time) returns (result: Result<Challenge, ChallengeError>)
      modifies this
      ensures var refusal := old(ReserveRefusal(challenges, id, at));
              && (refusal.Some? ==> result == Failure(refusal.value) && challenges == old(challenges))
              && (refusal.None? ==>
                    && challenges == Admit(old(challenges), id) && id in challenges
                    && result == Success(challenges[id]) && challenges[id].attempts <= challenges[id].maxAttempts)
      ensures result.Success? <==>
                && id in old(challenges) && old(challenges)[id].consumedAt == None
                && at < old(challenges)[id].expiresAt && old(challenges)[id].attempts < old(challenges)[id].maxAttempts
      ensures result.Success? ==>
                var before := old(challenges)[id];
                challenges == old(challenges)[id := before.(attempts := before.attempts + 1)]
    {
      if id !in challenges {
        return Failure(Invalid);
      }
      var challenge := challenges[id];
      if challenge.consumedAt.Some? {
        return Failure(Replayed);
      }
      if challenge.expiresAt <= at {
        return Failure(Expired);
      }
      if challenge.attempts >= challenge.maxAttempts {
        return Failure(AttemptsExhausted);
      }
      challenge := challenge.(attempts := challenge.attempts + 1);
      challenges := challenges[id := challenge];
      return Success(challenge);
    }

    method ConsumeLoginChallenge(id: Id, at: Time) returns (consumed: bool)
      modifies this
      ensures consumed == old(CanConsume(challenges, id, at))
      ensures challenges == Consume(old(challenges), id, at)
      ensures consumed <==>
                && id in old(challenges) && old(challenges)[id].consumedAt == None
                && at < old(challenges)[id].expiresAt && old(challenges)[id].attempts > 0
      ensures consumed ==> challenges == old(challenges)[id := old(challenges)[id].(consumedAt := Some(at))]
      ensures !consumed ==> challenges == old(challenges)
    {
      if id !in challenges {
        return false;
      }
      var challenge := challenges[id];
      if challenge.consumedAt.Some? || challenge.expiresAt <= at || challenge.attempts == 0 {
        return false;
      }
      challenges := challenges[id := challenge.(consumedAt := Some(at))];
      return true;
    }
  }
}
