/** Which counters a request is charged to (src/service.rs). The hash of a bucket's value
    is taken as injective, so a key carries the normalized value itself. */
module RateLimitKeys {
  import opened Common
  import opened Text
  import opened RateLimitPolicy
  import opened RateLimitProtocol

  function NonEmpty(value: string): Option<string> {
    if value == "" then None else Some(value)
  }

  /** `normalize_principal_bucket`: principals are compared without case. */
  function PrincipalValue(principal: string): Option<string> {
    NonEmpty(Lower(Trim(principal)))
  }

  /** `normalize_client_bucket`. */
  function ClientValue(address: string): Option<string> {
    NonEmpty(Trim(address))
  }

  function BucketKey(flow: Flow, bucket: Bucket, value: Option<string>): seq<Key> {
    if value.Some? then [Key(flow, bucket, value.value)] else []
  }

  /** `rate_limit_keys`: the principal's counter, then the client's. */
  function KeysFor(flow: Flow, principal: Option<string>, address: Option<string>): seq<Key> {
    BucketKey(flow, PrincipalBucket, if principal.Some? then PrincipalValue(principal.value) else None)
    + BucketKey(flow, ClientBucket, if address.Some? then ClientValue(address.value) else None)
  }

  /** Every key of a request is of its flow, and no counter is charged twice. */
  lemma KeysAreOfOneFlow(flow: Flow, principal: Option<string>, address: Option<string>)
    ensures forall key :: key in KeysFor(flow, principal, address) ==> key.flow == flow
    ensures OneKind(KeysFor(flow, principal, address), IsRequestFlow(flow))
    ensures NoDuplicates(KeysFor(flow, principal, address))
  {
  }

  // ----- Which requests share a counter ----------------------------------------------------------

  /** Writing a principal in another case, or with white space around it, does not
      reach another counter. */
  lemma SpellingSharesCounter(
    flow: Flow, principal: string, other: string, before: string, after: string, address: Option<string>)
    requires SameButCase(principal, other) && Blank(before) && Blank(after)
    ensures KeysFor(flow, Some(before + other + after), address) == KeysFor(flow, Some(principal), address)
  {
    SurroundingSpaceIsTrimmed(before, other, after);
    CaseSurvivesTrimStart(principal, other);
    CaseSurvivesTrimEnd(TrimStart(principal), TrimStart(other));
    LoweredAreEqualExactly(Trim(principal), Trim(other));
  }

  /** The counter of a principal, if it has one. */
  predicate ChargesPrincipal(keys: seq<Key>, key: Key) {
    key in keys && key.bucket == PrincipalBucket
  }

  /** Two requests share a principal's counter exactly when they are of one flow and the
      principals, trimmed, are visible and the same but for case. */
  lemma PrincipalsShareExactly(
    flow: Flow, principal: string, address: Option<string>, flow': Flow, other: string, address': Option<string>)
    ensures (exists key :: ChargesPrincipal(KeysFor(flow, Some(principal), address), key)
                      && ChargesPrincipal(KeysFor(flow', Some(other), address'), key))
            <==> flow == flow' && Trim(principal) != "" && SameButCase(Trim(principal), Trim(other))
  {
    var mine, theirs := KeysFor(flow, Some(principal), address), KeysFor(flow', Some(other), address');
    LoweredAreEqualExactly(Trim(principal), Trim(other));
    if flow == flow' && Trim(principal) != "" && SameButCase(Trim(principal), Trim(other)) {
      var key := Key(flow, PrincipalBucket, Lower(Trim(principal)));
      assert mine[0] == key && theirs[0] == key;
      assert ChargesPrincipal(mine, key) && ChargesPrincipal(theirs, key);
    }
  }

  /** The counter of a client, if it has one. */
  predicate ChargesClient(keys: seq<Key>, key: Key) {
    key in keys && key.bucket == ClientBucket
  }

  /** Two requests share a client's counter exactly when they are of one flow and the
      addresses, trimmed, are visible and the same, letter by letter. */
  lemma ClientsShareExactly(
    flow: Flow, principal: Option<string>, address: string, flow': Flow, principal': Option<string>, other: string)
    ensures (exists key :: ChargesClient(KeysFor(flow, principal, Some(address)), key)
                      && ChargesClient(KeysFor(flow', principal', Some(other)), key))
            <==> flow == flow' && Trim(address) != "" && Trim(address) == Trim(other)
  {
    var mine, theirs := KeysFor(flow, principal, Some(address)), KeysFor(flow', principal', Some(other));
    if flow == flow' && Trim(address) != "" && Trim(address) == Trim(other) {
      var key := Key(flow, ClientBucket, Trim(address));
      assert mine[|mine| - 1] == key && theirs[|theirs| - 1] == key;
      assert ChargesClient(mine, key) && ChargesClient(theirs, key);
    }
  }
}
