/** Adding a price as the handler runs it on the engine's price object: checks, setters, the view
    for the response, then the price database. */
module PriceEdits {
  import opened Options
  import opened Errors
  import opened Numerics
  import opened Books
  import opened Transactions
  import opened Handlers

  class EnginePrice {
    const guid: Guid
    var commodity: CommodityId
    var currency: CommodityId
    var time: Seconds
    var value: Value
    var source: string

    /** gnc_price_create. */
    constructor (guid: Guid)
      ensures this.guid == guid
    {
      this.guid := guid;
      commodity, currency, time, value, source := CommodityId("", ""), CommodityId("", ""), 0, ZERO, "";
    }

    function Content(): Price
      reads this
    {
      Price(commodity, currency, time, value, source)
    }

    /** The setters, in order; a price without a source is marked as this daemon's. */
    method SetFrom(s: PriceSpec, day: Day, value: Value)
      modifies this
      ensures Content() == Price(s.commodity, s.currency, NeutralTime(day), value, if s.source == "" then "shim:api" else s.source)
    {
      commodity := s.commodity;
      currency := s.currency;
      time := NeutralTime(day);
      this.value := value;
      source := if s.source == "" then "shim:api" else s.source;
    }
  }

  /** What the handler's run must amount to: refused with nothing changed, or the response with
      the prices that are committed. */
  ghost predicate Does(spec: Result<Verdict, ShimError>, r: Result<Response, ShimError>,
                       before: map<Guid, Price>, after: map<Guid, Price>) {
    match spec
    case Err(e) => r == Err(e) && after == before
    case Ok(Reject(_)) => false
    case Ok(Commit(response, post)) => r == Ok(response) && after == post.prices
  }

  /** The engine's price database. */
  class EnginePrices {
    var prices: map<Guid, EnginePrice>

    constructor ()
      ensures prices == map[]
    {
      prices := map[];
    }

    function Shown(): map<Guid, Price>
      reads this, prices.Values
    {
      map g | g in prices :: prices[g].Content()
    }

    method Insert(price: EnginePrice)
      requires price.guid !in prices
      modifies this
      ensures Shown() == old(Shown())[price.guid := price.Content()]
    {
      prices := prices[price.guid := price];
    }

    method AddPrice(b: Book, s: PriceSpec, env: Env) returns (r: Result<Response, ShimError>)
      requires Shown() == b.prices && Fresh(b, Request.AddPrice(s), env)
      modifies this
      ensures Does(DoAddPrice(Some(b), s, env), r, b.prices, Shown())
    {
      assert env.entity !in Shown();
      if !s.guid.NoGuid? {
        return Err(Invalid(GuidMustBeEmpty, Field("price.guid")));
      }
      var commodity :- FindCommodity(b, s.commodity, Field("price.commodity"));
      var currency :- FindCommodity(b, s.currency, Field("price.currency"));
      if !b.commodities[currency] {
        return Err(ShimError(CurrencyMismatch, NotACurrency, Field("price.currency")));
      }
      var day :- DateFromProto(s.date, DateRequired, Field("price.date"));
      var value :- NumericFromProto(s.value, Field("price.value"));
      var price := new EnginePrice(env.entity);
      price.SetFrom(s, day, value);
      var view := PriceToProto(env.entity, price.Content());
      Insert(price);
      return Ok(PriceReply(view));
    }
  }
}
