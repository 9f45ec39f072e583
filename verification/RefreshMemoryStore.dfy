/** The in-memory refresh store of src/tests.rs, updated in place, against the
    atomic steps that the protocol is built on. */
module RefreshMemoryStore {
  import opened Common
  import opened RefreshRecords

  /** The loop of family revocation, with the records in `pending` still to visit. */
  function FamilyRevokedExcept(tokens: Tokens, family: Id, at: Time, pending: set<Id>): Tokens {
    map id | id in tokens ::
      if tokens[id].familyId == family && id !in pending then tokens[id].(revokedAt := Some(at)) else tokens[id]
  }

  lemma RevokedOneMore(tokens: Tokens, family: Id, at: Time, pending: set<Id>, id: Id)
    requires id in pending && pending <= tokens.Keys
    ensures var now := FamilyRevokedExcept(tokens, family, at, pending);
            && now[id] == tokens[id]
            && FamilyRevokedExcept(tokens, family, at, pending - {id}) ==
               if tokens[id].familyId == family then now[id := tokens[id].(revokedAt := Some(at))] else now
  {
  }

  class MemoryRefreshTokenStore {
    var tokens: Tokens
    var hashToId: map<string, Id>

    function View(): Store
      reads this
    {
      Store(tokens, hashToId)
    }

    ghost predicate Valid()
      reads this
    {
      IndexedStore(View())
    }

    constructor ()
      ensures Valid() && View() == EmptyStore
    {
      tokens, hashToId := map[], map[];
    }

    method InsertRefreshToken(token: RefreshToken)
      requires Valid() && Fresh(View(), token)
      modifies this
      ensures Valid() && View() == Insert(old(View()), token)
    {
      hashToId := hashToId[token.tokenHash := token.id];
      tokens := tokens[token.id := token];
    }

    method FindRefreshTokenByHash(hash: string) returns (found: Option<RefreshToken>)
      requires Valid()
      ensures found == FindByHash(View(), hash)
      ensures found.Some? <==> exists id :: id in tokens && tokens[id].tokenHash == hash
      ensures found.Some? ==> found.value.id in tokens && tokens[found.value.id] == found.value
      ensures found.Some? ==> found.value.tokenHash == hash
    {
      if hash !in hashToId {
        return None;
      }
      var id := hashToId[hash];
      return if id in tokens then Some(tokens[id]) else None;
    }

    method RevokeRefreshToken(id: Id, at: Time)
      requires Valid()
      modifies this
      ensures Valid() && View() == RevokeOne(old(View()), id, at)
    {
      if id in tokens && tokens[id].revokedAt.None? {
        tokens := tokens[id := tokens[id].(revokedAt := Some(at), replacedBy := None)];
      }
    }

    /** Overwrites the time of records that were revoked before. */
    method RevokeRefreshTokenFamily(family: Id, at: Time)
      requires Valid()
      modifies this
      ensures Valid() && View() == RevokeFamily(old(View()), family, at, {})
    {
      var pending := tokens.Keys;
      while pending != {}
        invariant pending <= old(tokens).Keys && hashToId == old(hashToId)
        invariant tokens == FamilyRevokedExcept(old(tokens), family, at, pending)
        decreases pending
      {
        var id :| id in pending;
        RevokedOneMore(old(tokens), family, at, pending, id);
        pending := pending - {id};
        if tokens[id].familyId == family {
          tokens := tokens[id := tokens[id].(revokedAt := Some(at))];
        }
      }
    }

    method RotateRefreshToken(currentId: Id, replacement: RefreshToken, at: Time, client: ClientMetadata)
      returns (rotated: bool)
      requires Valid() && Fresh(View(), replacement)
      modifies this
      ensures Valid()
      ensures rotated == old(CanRotate(View(), currentId))
      ensures View() == Rotate(old(View()), currentId, replacement, at, client)
    {
      if currentId !in tokens {
        return false;
      }
      var current := tokens[currentId];
      if current.revokedAt.Some? {
        return false;
      }
      current := current.(lastUsedAt := Some(at), client := client,
                          revokedAt := Some(at), replacedBy := Some(replacement.id));
      tokens := tokens[currentId := current];
      hashToId := hashToId[replacement.tokenHash := replacement.id];
      tokens := tokens[replacement.id := replacement];
      return true;
    }

    /** Returns each unrevoked record of the family once, in no particular order. */
    method FindLiveRefreshTokensInFamily(family: Id) returns (live: seq<RefreshToken>)
      requires Valid()
      ensures |live| == |LiveInFamily(tokens, family)|
      ensures forall i :: 0 <= i < |live| ==> live[i].id in LiveInFamily(tokens, family) && tokens[live[i].id] == live[i]
      ensures forall id :: id in LiveInFamily(tokens, family) ==> tokens[id] in live
    {
      live := CollectLive(tokens, family);
    }
  }

  /** The filter over the stored values. */
  method CollectLive(tokens: Tokens, family: Id) returns (live: seq<RefreshToken>)
    requires forall id :: id in tokens ==> tokens[id].id == id
    ensures |live| == |LiveInFamily(tokens, family)|
    ensures forall i :: 0 <= i < |live| ==> live[i].id in LiveInFamily(tokens, family) && tokens[live[i].id] == live[i]
    ensures forall id :: id in LiveInFamily(tokens, family) ==> tokens[id] in live
  {
    live := [];
    var pending := tokens.Keys;
    ghost var target, seen: set<Id> := LiveInFamily(tokens, family), {};
    while pending != {}
      invariant pending <= tokens.Keys
      invariant seen <= target <= seen + pending && seen !! pending
      invariant |live| == |seen|
      invariant forall i :: 0 <= i < |live| ==> live[i].id in seen && tokens[live[i].id] == live[i]
      invariant forall id :: id in seen ==> tokens[id] in live
      decreases pending
    {
      var id :| id in pending;
      pending := pending - {id};
      if tokens[id].familyId == family && tokens[id].revokedAt.None? {
        AppendedLive(tokens, seen, live, id);
        seen := seen + {id};
        live := live + [tokens[id]];
      }
    }
    assert seen == target;
  }

  lemma AppendedLive(tokens: Tokens, seen: set<Id>, live: seq<RefreshToken>, id: Id)
    requires seen <= tokens.Keys && id in tokens && id !in seen && tokens[id].id == id
    requires |live| == |seen|
    requires forall i :: 0 <= i < |live| ==> live[i].id in seen && tokens[live[i].id] == live[i]
    requires forall x :: x in seen ==> tokens[x] in live
    ensures var seen', live' := seen + {id}, live + [tokens[id]];
            && |live'| == |seen'|
            && (forall i :: 0 <= i < |live'| ==> live'[i].id in seen' && tokens[live'[i].id] == live'[i])
            && (forall x :: x in seen' ==> tokens[x] in live')
  {
  }
}
