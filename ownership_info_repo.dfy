/**
 * The ownership-info store: who owns which good (an account, say) and
 * during which interval. Records are upserted by identifier and searched by
 * good type, identifier, owner and an instant of ownership.
 */
module OwnershipInfoRepo {
  import opened Wrappers
  import opened Factory
  import opened Seqs

  datatype GoodType = AccountGood | OtherGood(name: string)

  datatype Good = Good(typeOf: GoodType, accountType: Option<AccountType>, accountNumber: Option<string>)

  datatype OwnershipInfo = OwnershipInfo(
    identifier: string,
    ownedBy: Party,
    typeOfGood: Good,
    ownedFrom: Time,
    ownedThrough: Time)

  /** A search: the good type is required, every other condition applies only when given. */
  datatype SearchConditions = SearchConditions(
    goodType: GoodType,
    identifier: Option<string>,
    ownedBy: Option<string>,
    ownedAt: Option<Time>)

  /** Owned at the instant `at`: the validity interval includes both its ends. */
  predicate OwnedAt(o: OwnershipInfo, at: Time) {
    o.ownedFrom <= at <= o.ownedThrough
  }

  predicate MatchesSearch(o: OwnershipInfo, c: SearchConditions) {
    && o.typeOfGood.typeOf == c.goodType
    && (c.identifier.Some? ==> o.identifier == c.identifier.value)
    && (c.ownedBy.Some? ==> o.ownedBy.id == Some(c.ownedBy.value))
    && (c.ownedAt.Some? ==> OwnedAt(o, c.ownedAt.value))
  }

  function OwnedFromKey(o: OwnershipInfo): int { o.ownedFrom }

  /** No two records share an identifier. */
  ghost predicate UniqueIdentifiers(infos: seq<OwnershipInfo>) {
    forall i, j :: 0 <= i < j < |infos| ==> infos[i].identifier != infos[j].identifier
  }

  /**
   * The store after upserting `o`: the first record with its identifier is
   * replaced by it, or it is appended when there is none.
   */
  function Upserted(infos: seq<OwnershipInfo>, o: OwnershipInfo): (r: seq<OwnershipInfo>)
    ensures o in r
    ensures (forall i :: 0 <= i < |infos| ==> infos[i].identifier != o.identifier) ==> r == infos + [o]
    ensures !(forall i :: 0 <= i < |infos| ==> infos[i].identifier != o.identifier) ==>
              exists k: nat :: k < |infos| && infos[k].identifier == o.identifier && r == infos[k := o]
  {
    match FirstIndex(infos, (x: OwnershipInfo) => x.identifier == o.identifier)
    case None => infos + [o]
    case Some(k) =>
      assert infos[k := o][k] == o;
      infos[k := o]
  }

  /**
   * Upserting keeps identifiers unique; afterwards `o` is the only record
   * with its identifier and every record with another identifier is kept.
   */
  lemma UpsertKeepsUnique(infos: seq<OwnershipInfo>, o: OwnershipInfo)
    requires UniqueIdentifiers(infos)
    ensures UniqueIdentifiers(Upserted(infos, o))
    ensures forall x :: x in Upserted(infos, o) && x.identifier == o.identifier ==> x == o
    ensures forall x :: x in infos && x.identifier != o.identifier ==> x in Upserted(infos, o)
  {
    var r := Upserted(infos, o);
    if k :| 0 <= k < |infos| && infos[k].identifier == o.identifier {
      assert r == infos[k := o] by {
        var k': nat :| k' < |infos| && infos[k'].identifier == o.identifier && r == infos[k' := o];
        assert k' == k;
      }
      forall x | x in infos && x.identifier != o.identifier ensures x in r {
        var i :| 0 <= i < |infos| && infos[i] == x;
        assert r[i] == x;
      }
    } else {
      assert r == infos + [o];
    }
  }

  /** Saving the same record twice leaves the store as saving it once. */
  lemma {:induction false} UpsertIdempotent(infos: seq<OwnershipInfo>, o: OwnershipInfo)
    ensures Upserted(Upserted(infos, o), o) == Upserted(infos, o)
  {
    var p := (x: OwnershipInfo) => x.identifier == o.identifier;
    var r := Upserted(infos, o);
    match FirstIndex(infos, p)
    case None =>
      assert r == infos + [o];
      assert r[|infos|] == o && forall j :: 0 <= j < |infos| ==> r[j] == infos[j];
      assert FirstIndex(r, p) == Some(|infos|);
    case Some(k) =>
      assert r == infos[k := o];
      assert r[k] == o && forall j :: 0 <= j < k ==> r[j] == infos[j];
      assert FirstIndex(r, p) == Some(k);
  }

  class OwnershipInfoRepository {
    var infos: seq<OwnershipInfo>

    ghost predicate Valid()
      reads this
    {
      UniqueIdentifiers(infos)
    }

    constructor ()
      ensures Valid() && infos == []
    {
      infos := [];
    }

    /** Stores `o` over the record with the same identifier, or as a new one; identifiers stay unique. */
    method Save(o: OwnershipInfo)
      requires Valid()
      modifies this
      ensures Valid()
      ensures infos == Upserted(old(infos), o)
    {
      UpsertKeepsUnique(infos, o);
      var k := FirstIndex(infos, (x: OwnershipInfo) => x.identifier == o.identifier);
      if k.None? {
        infos := infos + [o];
      } else {
        infos := infos[k.value := o];
      }
    }

    /**
     * The records meeting every given condition, earliest start of
     * ownership first; the store is only read.
     */
    function Search(c: SearchConditions): (r: seq<OwnershipInfo>)
      reads this
      ensures forall o :: o in r <==> o in infos && MatchesSearch(o, c)
      ensures forall o :: o in r ==> o.typeOfGood.typeOf == c.goodType
      ensures c.ownedAt.Some? ==> forall o :: o in r ==> o.ownedFrom <= c.ownedAt.value <= o.ownedThrough
      ensures SortedBy(r, OwnedFromKey)
      ensures multiset(r) == multiset(Filter(infos, (o: OwnershipInfo) => MatchesSearch(o, c)))
    {
      var found := Filter(infos, (o: OwnershipInfo) => MatchesSearch(o, c));
      SortByMembers(found, OwnedFromKey);
      SortBy(found, OwnedFromKey)
    }
  }
}
