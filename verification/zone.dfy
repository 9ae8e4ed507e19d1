/** The DNS zone as the provider's record API presents it: a sequence of
    records, each with an opaque identifier, a type, a fully-qualified name
    and a content value. The reconciler only ever lists records filtered by
    name and updates one record, keyed by its identifier.
 */
module Zone {

  /** One DNS record of the zone. `name` is fully qualified. */
  datatype ZoneRecord = ZoneRecord(id: string, recordType: string, name: string, content: string)

  type Store = seq<ZoneRecord>

  /** The body of an update call: the identifier selects the record, the
      type and content are written. `name` is the short name the caller
      passes; the provider resolves it relative to the zone. */
  datatype UpdateRequest = UpdateRequest(id: string, recordType: string, name: string, content: string)

  const Cname: string := "CNAME"

  /** The fully-qualified name a short record name stands for in a domain. */
  function Fqdn(name: string, domainName: string): string
  {
    name + "." + domainName
  }

  /** Two short names that expand to the same fully-qualified name in one
      domain are the same short name. */
  lemma FqdnInjective(a: string, b: string, domainName: string)
    requires Fqdn(a, domainName) == Fqdn(b, domainName)
    ensures a == b
  {
    assert |a| == |b|;
    assert a == Fqdn(a, domainName)[..|a|];
    assert b == Fqdn(b, domainName)[..|b|];
  }

  /** The records a name-filtered listing returns, in zone order. */
  function Matching(store: Store, fqdn: string): (r: Store)
    ensures |r| <= |store|
    decreases |store|
  {
    if |store| == 0 then []
    else if store[0].name == fqdn then [store[0]] + Matching(store[1..], fqdn)
    else Matching(store[1..], fqdn)
  }

  /** A record is listed under a name exactly when the zone holds it under
      that name. */
  lemma {:induction false} MatchingMembers(store: Store, fqdn: string, x: ZoneRecord)
    ensures x in Matching(store, fqdn) <==> x in store && x.name == fqdn
    decreases |store|
  {
    if |store| > 0 {
      MatchingMembers(store[1..], fqdn, x);
      assert store == [store[0]] + store[1..];
    }
  }

  /** One record after an update request reached the provider. */
  function Apply(x: ZoneRecord, req: UpdateRequest): ZoneRecord
  {
    if x.id == req.id then x.(recordType := req.recordType, content := req.content) else x
  }

  /** The zone after an update request: only the record carrying the
      request's identifier changes, and it keeps its identifier and name. */
  function ApplyUpdate(store: Store, req: UpdateRequest): (r: Store)
    ensures |r| == |store|
    ensures forall i :: 0 <= i < |store| ==> r[i].id == store[i].id && r[i].name == store[i].name
    ensures forall i :: 0 <= i < |store| && store[i].id == req.id ==>
              r[i].content == req.content && r[i].recordType == req.recordType
    ensures forall i :: 0 <= i < |store| && store[i].id != req.id ==> r[i] == store[i]
    ensures UniqueIds(store) ==> UniqueIds(r)
    decreases |store|
  {
    if |store| == 0 then []
    else [Apply(store[0], req)] + ApplyUpdate(store[1..], req)
  }

  /** The provider never gives two records of a zone the same identifier. */
  ghost predicate UniqueIds(store: Store)
  {
    forall i, j :: 0 <= i < |store| && 0 <= j < |store| && i != j ==> store[i].id != store[j].id
  }

  /** Listing by name after an update sees exactly the updated versions of
      the records it saw before: an update never moves a record into or out
      of a name's listing. */
  lemma {:induction false} MatchingAfterUpdate(store: Store, req: UpdateRequest, fqdn: string)
    ensures Matching(ApplyUpdate(store, req), fqdn) == ApplyUpdate(Matching(store, fqdn), req)
    decreases |store|
  {
    if |store| > 0 {
      var u := ApplyUpdate(store, req);
      assert u[0] == Apply(store[0], req);
      assert u[1..] == ApplyUpdate(store[1..], req);
      MatchingAfterUpdate(store[1..], req, fqdn);
      if store[0].name == fqdn {
        var m := Matching(store[1..], fqdn);
        assert ([store[0]] + m)[1..] == m;
      }
    }
  }

  /** An update aimed at a record of one name leaves the listing of every
      other name exactly as it was, provided identifiers are unique. */
  lemma UpdateFramesOtherNames(store: Store, req: UpdateRequest, target: ZoneRecord, fqdn: string)
    requires UniqueIds(store)
    requires target in store && target.id == req.id && target.name != fqdn
    ensures Matching(ApplyUpdate(store, req), fqdn) == Matching(store, fqdn)
  {
    MatchingAfterUpdate(store, req, fqdn);
    var m := Matching(store, fqdn);
    forall i | 0 <= i < |m|
      ensures m[i].id != req.id
    {
      MatchingMembers(store, fqdn, m[i]);
      var k :| 0 <= k < |store| && store[k] == m[i];
      var t :| 0 <= t < |store| && store[t] == target;
      assert k != t;
    }
  }
}
