/**
 The service controller's identifier source. `getUUID(count)` asks the remote
 identifier service for `count` ids and keeps the first; whenever the service
 cannot deliver one (the call throws, the body or its data list is null, or
 the list is empty) it synthesises a degraded-mode id locally.

 The remote service is a parameter: a function from the requested count to
 the reply. The two random draws of the fallback are parameters as well.
 */
module CoreUuidGen {
  import opened Wrappers
  import opened Decimal

  /** The body of the service's reply (`model.resource.UUID`): a possibly null list of ids. */
  datatype UuidBody = UuidBody(data: Option<seq<string>>)

  /** What the HTTP call to the identifier service yields. */
  datatype RemoteReply =
    | CallThrows                       // connection refused, error status, unreadable body, ...
    | Replied(body: Option<UuidBody>)  // a response entity whose body may be null

  /**
   The two random draws behind a fallback id: `nanoSeeded` from a generator
   seeded with the clock, `defaultSeeded` from a generator created with
   Java's default seeding.
   */
  datatype Draws = Draws(nanoSeeded: int, defaultSeeded: int)

  /** The ranges `Random.nextInt(1000000000)` and `Random.nextInt(100)` draw from. */
  predicate ValidDraws(d: Draws) {
    0 <= d.nanoSeeded < 1000000000 && 0 <= d.defaultSeeded < 100
  }

  const FallbackPrefix: string := "123-345-456"
  const FallbackSuffix: string := "2"

  /**
   The id the remote service delivered, if it delivered any: the first element
   of a non-null, non-empty data list in a non-null body. Further ids are ignored.
   */
  function FirstIssued(reply: RemoteReply): (r: Option<string>)
    ensures r.Some? <==>
      reply.Replied? && reply.body.Some? && reply.body.value.data.Some?
      && |reply.body.value.data.value| > 0
    ensures r.Some? ==> r.value == reply.body.value.data.value[0]
  {
    match reply
    case CallThrows => None
    case Replied(None) => None
    case Replied(Some(UuidBody(None))) => None
    case Replied(Some(UuidBody(Some(ids)))) => if |ids| == 0 then None else Some(ids[0])
  }

  /** Shape of every degraded-mode id: prefix, then only digits, ending in the suffix. */
  predicate IsFallbackShape(id: string) {
    && |FallbackPrefix| + |FallbackSuffix| < |id|
    && id[..|FallbackPrefix|] == FallbackPrefix
    && id[|id| - |FallbackSuffix|..] == FallbackSuffix
    && AllDigits(id[|FallbackPrefix|..])
  }

  /**
   `generateId()`: the prefix, the decimal form of the clock-seeded draw, the
   decimal form of the second draw, then the literal 2.
   */
  function GenerateId(d: Draws): (id: string)
    requires ValidDraws(d)
    ensures IsFallbackShape(id)
    ensures 14 <= |id| <= 23
  {
    ToDecimalLengthBound(d.nanoSeeded, 9);
    ToDecimalLengthBound(d.defaultSeeded, 2);
    var id := FallbackPrefix + ToDecimal(d.nanoSeeded) + ToDecimal(d.defaultSeeded) + FallbackSuffix;
    assert id[|FallbackPrefix|..] == ToDecimal(d.nanoSeeded) + ToDecimal(d.defaultSeeded) + FallbackSuffix;
    id
  }

  /**
   `getUUID(count)`: the first id the remote service delivers for `count`,
   or a fallback id built from `d` when it delivers none.
   */
  function GetUuid(count: int, remote: int -> RemoteReply, d: Draws): (id: string)
    requires ValidDraws(d)
    ensures FirstIssued(remote(count)).Some? ==> id == FirstIssued(remote(count)).value
    ensures FirstIssued(remote(count)).None? ==> id == GenerateId(d)
  {
    match remote(count)
    case CallThrows => GenerateId(d)
    case Replied(None) => GenerateId(d)                    // getBody() is null: NullPointerException, caught
    case Replied(Some(UuidBody(None))) => GenerateId(d)    // null data: generate locally
    case Replied(Some(UuidBody(Some(ids)))) =>
      if |ids| == 0 then GenerateId(d)                     // get(0) throws, caught
      else ids[0]
  }

  /** `getUUID()`: one id requested; the reply to a request for one decides. */
  function GetUuidDefault(remote: int -> RemoteReply, d: Draws): (id: string)
    requires ValidDraws(d)
    ensures id == GetUuid(1, remote, d)
    ensures FirstIssued(remote(1)).Some? ==> id == FirstIssued(remote(1)).value
    ensures FirstIssued(remote(1)).None? ==> IsFallbackShape(id)
  {
    GetUuid(1, remote, d)
  }

  /**
   Every way the remote path can fail to deliver an id (the call throws, the
   body is null, the data list is null or empty) ends in a non-empty fallback id.
   */
  lemma FallbackWhenNothingDelivered(count: int, remote: int -> RemoteReply, d: Draws)
    requires ValidDraws(d)
    requires || remote(count).CallThrows?
             || remote(count) == Replied(None)
             || remote(count) == Replied(Some(UuidBody(None)))
             || remote(count) == Replied(Some(UuidBody(Some([]))))
    ensures GetUuid(count, remote, d) == GenerateId(d)
    ensures GetUuid(count, remote, d) != ""
    ensures GetUuid(count, remote, d)[..|FallbackPrefix|] == FallbackPrefix
  {
  }

  /** A non-empty list decides the id by its first element alone. */
  lemma FirstOfManyWins(count: int, remote: int -> RemoteReply, d: Draws, ids: seq<string>)
    requires ValidDraws(d)
    requires remote(count) == Replied(Some(UuidBody(Some(ids)))) && |ids| > 0
    ensures GetUuid(count, remote, d) == ids[0]
  {
  }

  /** The empty string comes back only when the service itself issued it. */
  lemma EmptyOnlyWhenIssued(count: int, remote: int -> RemoteReply, d: Draws)
    requires ValidDraws(d)
    ensures GetUuid(count, remote, d) == "" ==> FirstIssued(remote(count)) == Some("")
  {
  }

  /**
   The digits between the prefix and the final 2 of a fallback id denote the
   first draw shifted past the decimal digits of the second.
   */
  lemma FallbackIdDigits(d: Draws)
    requires ValidDraws(d)
    ensures var id := GenerateId(d);
      && AllDigits(id[|FallbackPrefix|..|id| - 1])
      && ParseDecimal(id[|FallbackPrefix|..|id| - 1])
         == d.nanoSeeded * Pow10(|ToDecimal(d.defaultSeeded)|) + d.defaultSeeded
    ensures |GenerateId(d)|
      == |FallbackPrefix| + |ToDecimal(d.nanoSeeded)| + |ToDecimal(d.defaultSeeded)| + |FallbackSuffix|
  {
    var first, second := ToDecimal(d.nanoSeeded), ToDecimal(d.defaultSeeded);
    var id := GenerateId(d);
    assert id == FallbackPrefix + first + second + FallbackSuffix;
    assert id[|FallbackPrefix|..|id| - 1] == first + second;
    ParseConcat(first, second);
    ParseToDecimal(d.nanoSeeded);
    ParseToDecimal(d.defaultSeeded);
  }

  /**
   Between the prefix and the final 2 a fallback id holds exactly two decimal
   texts as Java writes them, without leading zeros: the first reads back as
   the clock-seeded draw, the second as the default-seeded one.
   */
  lemma FallbackIdSplits(d: Draws)
    requires ValidDraws(d)
    ensures var id := GenerateId(d);
      var k := |FallbackPrefix| + |ToDecimal(d.nanoSeeded)|;
      && |FallbackPrefix| < k < |id| - 1
      && CanonicalDecimal(id[|FallbackPrefix|..k])
      && ParseDecimal(id[|FallbackPrefix|..k]) == d.nanoSeeded
      && CanonicalDecimal(id[k..|id| - 1])
      && ParseDecimal(id[k..|id| - 1]) == d.defaultSeeded
  {
    var first, second := ToDecimal(d.nanoSeeded), ToDecimal(d.defaultSeeded);
    var id := GenerateId(d);
    var k := |FallbackPrefix| + |first|;
    assert id == FallbackPrefix + first + second + FallbackSuffix;
    assert id[|FallbackPrefix|..k] == first;
    assert id[k..|id| - 1] == second;
    ParseToDecimal(d.nanoSeeded);
    ParseToDecimal(d.defaultSeeded);
  }

  /**
   Different draws can give the same fallback id, since the two decimal forms
   are written without a separator: (1, 23) and (12, 3) both give "123-345-4561232".
   */
  lemma FallbackIdsCollide()
    ensures ValidDraws(Draws(1, 23)) && ValidDraws(Draws(12, 3))
    ensures GenerateId(Draws(1, 23)) == GenerateId(Draws(12, 3)) == "123-345-4561232"
  {
  }
}
