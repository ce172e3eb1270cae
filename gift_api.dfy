/**
 * The client-side gift rules: validation of a paid gift request, the price
 * label, the rarity display mappings, and the queries of the gift-list
 * requests.
 */
module GiftApi {
  import opened Wrappers
  import opened JsText
  import opened QueryString
  import opened ErrorLists

  const MinQuantity: int := 1
  const MaxQuantity: int := 100
  const MaxGiftMessageLength: nat := 200

  /** What `sendGift` posts (the optional stream id plays no part in validation). */
  datatype SendGiftData = SendGiftData(
    giftId: string, receiverId: string, streamId: Option<string>, quantity: int, message: Option<string>)

  datatype GiftError = GiftIdRequired | ReceiverIdRequired | QuantityTooSmall | QuantityTooLarge | MessageTooLong

  function Text(e: GiftError): string {
    match e
    case GiftIdRequired => "Gift ID is required"
    case ReceiverIdRequired => "Receiver ID is required"
    case QuantityTooSmall => "Quantity must be at least 1"
    case QuantityTooLarge => "Quantity cannot exceed 100"
    case MessageTooLong => "Message cannot exceed 200 characters"
  }

  /** The position of each check in `validateGiftData`. */
  function Rank(e: GiftError): nat {
    match e
    case GiftIdRequired => 0
    case ReceiverIdRequired => 1
    case QuantityTooSmall => 2
    case QuantityTooLarge => 3
    case MessageTooLong => 4
  }

  predicate LongMessage(message: Option<string>) {
    message.Some? && |message.value| > MaxGiftMessageLength
  }

  /** The checks `validateGiftData` runs, in order, each with the error it pushes. */
  function GiftChecks(data: SendGiftData): seq<(bool, GiftError)> {
    [ (data.giftId == "", GiftIdRequired),
      (data.receiverId == "", ReceiverIdRequired),
      (data.quantity < MinQuantity, QuantityTooSmall),
      (data.quantity > MaxQuantity, QuantityTooLarge),
      (LongMessage(data.message), MessageTooLong) ]
  }

  /** `validateGiftData`: pushes the error of each failing check, in order. */
  method ValidateGiftData(data: SendGiftData) returns (errors: seq<GiftError>)
    ensures errors == Failures(GiftChecks(data))
  {
    ghost var c := GiftChecks(data);
    errors := [];
    if data.giftId == "" {
      errors := errors + [GiftIdRequired];
    }
    if data.receiverId == "" {
      errors := errors + [ReceiverIdRequired];
    }
    assert errors == When(c[0].0, c[0].1) + When(c[1].0, c[1].1);
    if data.quantity == 0 || data.quantity < MinQuantity {
      errors := errors + [QuantityTooSmall];
    }
    if data.quantity > MaxQuantity {
      errors := errors + [QuantityTooLarge];
    }
    assert errors == When(c[0].0, c[0].1) + When(c[1].0, c[1].1) + When(c[2].0, c[2].1) +
                     When(c[3].0, c[3].1);
    if data.message.Some? && data.message.value != "" && |data.message.value| > MaxGiftMessageLength {
      errors := errors + [MessageTooLong];
    }
    Failures5(c);
  }

  /** A gift request is accepted exactly when both ids are given, 1 <= quantity <= 100 and any message is short. */
  lemma GiftErrorsExact(data: SendGiftData)
    ensures var errors := Failures(GiftChecks(data));
            && (errors == [] <==>
                  data.giftId != "" && data.receiverId != "" &&
                  MinQuantity <= data.quantity <= MaxQuantity && !LongMessage(data.message))
            && (GiftIdRequired in errors <==> data.giftId == "")
            && (ReceiverIdRequired in errors <==> data.receiverId == "")
            && (QuantityTooSmall in errors <==> data.quantity < MinQuantity)
            && (QuantityTooLarge in errors <==> data.quantity > MaxQuantity)
            && (MessageTooLong in errors <==> LongMessage(data.message))
            && Ascending(errors, Rank)
  {
    var c := GiftChecks(data);
    FailuresSorted(c, Rank);
    FailedExactly(c, Rank);
    assert c[0].1 == GiftIdRequired && c[1].1 == ReceiverIdRequired && c[2].1 == QuantityTooSmall;
    assert c[3].1 == QuantityTooLarge && c[4].1 == MessageTooLong;
  }

  /** A quantity of zero is reported as too small, never as too large. */
  lemma ZeroQuantity(data: SendGiftData)
    requires data.quantity == 0
    ensures QuantityTooSmall in Failures(GiftChecks(data))
    ensures QuantityTooLarge !in Failures(GiftChecks(data))
  {
    GiftErrorsExact(data);
  }

  /** What `Intl.NumberFormat` is asked to format (the locale's rendering is not modelled). */
  datatype PriceLabel = Free | Price(vnd: int)

  /** `formatGiftPrice`. */
  function FormatGiftPrice(price: int): (shown: PriceLabel)
    ensures shown == Free <==> price == 0
    ensures shown.Price? ==> shown.vnd == price
  {
    if price == 0 then Free else Price(price)
  }

  /** The text of a label, where the formatter's output is the `currency` argument. */
  function PriceText(shown: PriceLabel, currency: string): string {
    if shown.Free? then "Free" else currency
  }

  const Rarities: seq<string> := ["common", "rare", "epic", "legendary"]

  const CommonColor := "text-gray-500"
  const CommonBadge := "bg-gray-100 text-gray-800"

  /** `getGiftRarityColor`: anything that is not a known rarity is shown as common. */
  function GiftRarityColor(rarity: string): (c: string)
    ensures rarity == "common" || rarity !in Rarities ==> c == CommonColor
  {
    match rarity
    case "common" => CommonColor
    case "rare" => "text-blue-500"
    case "epic" => "text-purple-500"
    case "legendary" => "text-yellow-500"
    case _ => CommonColor
  }

  /** `getGiftRarityBadge`: likewise. */
  function GiftRarityBadge(rarity: string): (b: string)
    ensures rarity == "common" || rarity !in Rarities ==> b == CommonBadge
  {
    match rarity
    case "common" => CommonBadge
    case "rare" => "bg-blue-100 text-blue-800"
    case "epic" => "bg-purple-100 text-purple-800"
    case "legendary" => "bg-yellow-100 text-yellow-800"
    case _ => CommonBadge
  }

  /** The four rarities look different from one another, in colour and in badge. */
  lemma RarityMappingsDistinct()
    ensures forall i, j :: 0 <= i < j < |Rarities| ==>
              GiftRarityColor(Rarities[i]) != GiftRarityColor(Rarities[j]) &&
              GiftRarityBadge(Rarities[i]) != GiftRarityBadge(Rarities[j])
  {
    assert Rarities[0] == "common" && Rarities[1] == "rare";
    assert Rarities[2] == "epic" && Rarities[3] == "legendary";
  }

  datatype GiftQuery = GiftQuery(
    page: Option<int>, limit: Option<int>, category: Option<string>, status: Option<string>,
    rarity: Option<string>)

  function GiftQueryCandidates(p: GiftQuery): seq<Candidate> {
    [ ("page", NumberValue(p.page)), ("limit", NumberValue(p.limit)), ("category", p.category),
      ("status", p.status), ("rarity", p.rarity) ]
  }

  /** `getAllGifts`'s query: only the truthy parameters, page, limit, category, status, rarity in that order. */
  method AllGiftsQuery(p: GiftQuery) returns (query: seq<Param>, url: string)
    ensures query == Present(GiftQueryCandidates(p))
    ensures url == "/gifts?" + Serialize(query)
  {
    ghost var c := GiftQueryCandidates(p);
    query := [];
    if p.page.Some? && p.page.value != 0 {
      query := query + [Param("page", IntToString(p.page.value))];
    }
    if p.limit.Some? && p.limit.value != 0 {
      query := query + [Param("limit", IntToString(p.limit.value))];
    }
    assert query == Head(c[0]) + Head(c[1]);
    if p.category.Some? && p.category.value != "" {
      query := query + [Param("category", p.category.value)];
    }
    if p.status.Some? && p.status.value != "" {
      query := query + [Param("status", p.status.value)];
    }
    assert query == Head(c[0]) + Head(c[1]) + Head(c[2]) + Head(c[3]);
    if p.rarity.Some? && p.rarity.value != "" {
      query := query + [Param("rarity", p.rarity.value)];
    }
    url := "/gifts?" + Serialize(query);
    Present5(c);
  }

  /** The gift lists that take only paging: reward gifts, premium gifts, and the sent and received history. */
  datatype PagedList = RewardGifts | PremiumGifts | SentHistory | ReceivedHistory

  function Endpoint(list: PagedList): string {
    match list
    case RewardGifts => "/gifts/rewards"
    case PremiumGifts => "/gifts/premium"
    case SentHistory => "/gifts/history/sent"
    case ReceivedHistory => "/gifts/history/received"
  }

  /** The four paged requests: only the truthy paging parameters, page before limit. */
  method PagedListQuery(list: PagedList, page: Option<int>, limit: Option<int>) returns (query: seq<Param>, url: string)
    ensures query == Present([("page", NumberValue(page)), ("limit", NumberValue(limit))])
    ensures url == Endpoint(list) + "?" + Serialize(query)
  {
    query := [];
    if page.Some? && page.value != 0 {
      query := query + [Param("page", IntToString(page.value))];
    }
    if limit.Some? && limit.value != 0 {
      query := query + [Param("limit", IntToString(limit.value))];
    }
    url := Endpoint(list) + "?" + Serialize(query);
    PresentAppend([("page", NumberValue(page))], [("limit", NumberValue(limit))]);
    PresentOne("page", NumberValue(page));
    PresentOne("limit", NumberValue(limit));
  }
}
