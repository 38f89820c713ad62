/**
 * CambioService: the USD-BRL quote from a primary provider, a fallback provider tried once
 * when anything on the primary path throws, and the single-entry @Cacheable slot 'latest'.
 * Provider replies are inputs; the outbound calls a lookup makes are reported as a trace.
 */
module Cambio {
  import opened Wrappers
  import opened Decimals

  /** A JSON value as Jackson hands it over. */
  datatype Json =
    | JNull
    | JBool(b: bool)
    | JNumber(n: Decimal)    // the number whose Java toString is Format(n)
    | JString(s: string)
    | JArray(items: seq<Json>)
    | JObject(fields: map<string, Json>)

  /** The outcome of one GET: a transport failure or error status, or a body, possibly empty. */
  datatype Reply = TransportError | Body(content: Option<Json>)

  datatype Provider = Primary | Fallback

  /** Why the fallback threw; these propagate to the caller. */
  datatype RateError =
    | Unreachable             // WebClient exception: network failure or non-2xx status
    | NotAMap                 // the body is empty, null or not a JSON object
    | NoRates                 // "rates" is absent, null or not an object
    | NoBrlRate               // rates["BRL"] is absent or null
    | NotNumeric(text: string) // toString of rates["BRL"] is not a decimal numeral

  /** Object.toString of a deserialized value; None where the source would dereference null. */
  function ToText(j: Json): Option<string>
  {
    match j
    case JNull => None
    case JBool(b) => Some(if b then "true" else "false")
    case JNumber(n) => Some(Format(n))
    case JString(s) => Some(s)
    // a List or Map prints as "[...]" or "{...}"; only the bracket matters to the parse that follows
    case JArray(_) => Some("[...]")
    case JObject(_) => Some("{...}")
  }

  /** bodyToMono(Map[].class) succeeds on a JSON array whose elements are all objects or null. */
  predicate IsMapArray(j: Json)
  {
    j.JArray? && forall i :: 0 <= i < |j.items| ==> j.items[i].JObject? || j.items[i].JNull?
  }

  /**
   * The primary path: new BigDecimal((String) body[0].get("bid")). None stands for any
   * exception on the way (transport, null body, empty array, null element, missing or
   * non-string bid, non-numeric text), all of which the catch-all turns into the fallback.
   */
  function PrimaryQuote(reply: Reply): (r: Option<Decimal>)
    ensures r.Some? <==>
      && reply.Body? && reply.content.Some? && IsMapArray(reply.content.value)
      && |reply.content.value.items| > 0
      && var first := reply.content.value.items[0];
         first.JObject? && "bid" in first.fields && first.fields["bid"].JString?
         && ParseDecimal(first.fields["bid"].s).Some?
    ensures r.Some? ==> r == ParseDecimal(reply.content.value.items[0].fields["bid"].s)
  {
    match reply
    case TransportError => None
    case Body(None) => None
    case Body(Some(body)) =>
      if !IsMapArray(body) || |body.items| == 0 then None
      else
        match body.items[0]
        case JObject(fields) =>
          if "bid" in fields && fields["bid"].JString? then ParseDecimal(fields["bid"].s) else None
        case _ => None
  }

  /**
   * getCotacaoDolarBRLFallback: new BigDecimal(body.get("rates").get("BRL").toString()), so a
   * numeric rate and a textual one are both accepted. Nothing here is caught.
   */
  function FallbackQuote(reply: Reply): (r: Result<Decimal, RateError>)
    ensures r.Success? <==>
      && reply.Body? && reply.content.Some? && reply.content.value.JObject?
      && var body := reply.content.value.fields;
         "rates" in body && body["rates"].JObject? && "BRL" in body["rates"].fields
         && ToText(body["rates"].fields["BRL"]).Some?
         && ParseDecimal(ToText(body["rates"].fields["BRL"]).value).Some?
    ensures r.Success? ==>
      Some(r.value) == ParseDecimal(ToText(reply.content.value.fields["rates"].fields["BRL"]).value)
    ensures reply.TransportError? ==> r == Failure(Unreachable)
    ensures reply.Body? && (reply.content.None? || !reply.content.value.JObject?) ==> r == Failure(NotAMap)
  {
    match reply
    case TransportError => Failure(Unreachable)
    case Body(None) => Failure(NotAMap)
    case Body(Some(body)) =>
      if !body.JObject? then Failure(NotAMap)
      else if "rates" !in body.fields || !body.fields["rates"].JObject? then Failure(NoRates)
      else
        var rates := body.fields["rates"].fields;
        if "BRL" !in rates then Failure(NoBrlRate)
        else
          match ToText(rates["BRL"])
          case None => Failure(NoBrlRate)
          case Some(text) =>
            match ParseDecimal(text)
            case Some(d) => Success(d)
            case None => Failure(NotNumeric(text))
  }

  /** The result of one uncached call and the providers it called, in order. */
  datatype Fetched = Fetched(result: Result<Decimal, RateError>, calls: seq<Provider>)

  /**
   * The body of getCotacaoDolarBRL: the primary exactly once and, only if it failed, the
   * fallback exactly once, whose result (or failure) is the call's.
   */
  function Fetch(primary: Reply, fallback: Reply): (o: Fetched)
    ensures 1 <= |o.calls| <= 2 && o.calls[0] == Primary
    ensures |o.calls| == 2 ==> o.calls[1] == Fallback
    ensures |o.calls| == 2 <==> PrimaryQuote(primary).None?
    ensures PrimaryQuote(primary).Some? ==> o.result == Success(PrimaryQuote(primary).value)
    ensures PrimaryQuote(primary).None? ==> o.result == FallbackQuote(fallback)
  {
    match PrimaryQuote(primary)
    case Some(rate) => Fetched(Success(rate), [Primary])
    case None => Fetched(FallbackQuote(fallback), [Primary, Fallback])
  }

  /** One call through the cache: the result, the slot afterwards and the providers called. */
  datatype Looked = Looked(result: Result<Decimal, RateError>, slot: Option<Decimal>, calls: seq<Provider>)

  /**
   * @Cacheable(key = "'latest'", unless = "#result == null"): a filled slot answers without any
   * call; otherwise Fetch runs, and a value it returns (from either provider) fills the slot. A
   * thrown failure is not cached. No entry ever expires.
   */
  function Lookup(slot: Option<Decimal>, primary: Reply, fallback: Reply): (o: Looked)
    ensures slot.Some? ==> o.result == Success(slot.value) && o.slot == slot && o.calls == []
    ensures slot.None? ==> o.result == Fetch(primary, fallback).result && o.calls == Fetch(primary, fallback).calls
    ensures o.result.Success? ==> o.slot == Some(o.result.value)
    ensures o.result.Failure? ==> o.slot == slot
  {
    if slot.Some? then Looked(Success(slot.value), slot, [])
    else
      var f := Fetch(primary, fallback);
      Looked(f.result, if f.result.Success? then Some(f.result.value) else None, f.calls)
  }

  /** Once a lookup has returned a rate, every later lookup returns that same rate without a call. */
  lemma LookupStable(slot: Option<Decimal>, p1: Reply, f1: Reply, p2: Reply, f2: Reply)
    requires Lookup(slot, p1, f1).result.Success?
    ensures var first := Lookup(slot, p1, f1);
            Lookup(first.slot, p2, f2) == Looked(first.result, first.slot, [])
  {
    var first := Lookup(slot, p1, f1);
    assert first.slot == Some(first.result.value);
  }

  /** A cache miss makes exactly one primary call and at most one fallback call, never a retry. */
  lemma LookupCallsBounded(slot: Option<Decimal>, primary: Reply, fallback: Reply)
    ensures var calls := Lookup(slot, primary, fallback).calls;
            |calls| <= 2
            && (slot.None? ==> |calls| >= 1 && calls[0] == Primary)
            && (forall i :: 1 <= i < |calls| ==> calls[i] == Fallback)
  {
    if slot.None? {
      var f := Fetch(primary, fallback);
      assert |f.calls| == 2 ==> f.calls[1] == Fallback;
    }
  }

  /** The primary provider's sample reply [{"bid": "5.25"}] gives 5.25, at scale 2. */
  lemma PrimaryBidSample()
    ensures PrimaryQuote(Body(Some(JArray([JObject(map["bid" := JString("5.25")])])))) == Some(Decimal(525, 2))
  {
    assert ParseDecimal("5.25") == Some(Decimal(525, 2)) by {
      ParseFormat(Decimal(525, 2));
      assert Format(Decimal(525, 2)) == "5.25" by {
        assert Digits(525, 3) == "525" by {
          assert Digits(5, 1) == "5";
          assert Digits(52, 2) == Digits(5, 1) + [DigitChar(2)];
        }
      }
    }
  }

  /** Each way the primary path can throw leaves the call's result to the fallback. */
  lemma PrimaryFailuresUseFallback(fallback: Reply, fields: map<string, Json>, bid: Json, text: string)
    requires "bid" !in fields
    requires !bid.JString?
    requires ParseDecimal(text).None?
    ensures Fetch(TransportError, fallback).result == FallbackQuote(fallback)
    ensures Fetch(Body(None), fallback).result == FallbackQuote(fallback)
    ensures Fetch(Body(Some(JArray([]))), fallback).result == FallbackQuote(fallback)
    ensures Fetch(Body(Some(JArray([JNull]))), fallback).result == FallbackQuote(fallback)
    ensures Fetch(Body(Some(JArray([JObject(fields)]))), fallback).result == FallbackQuote(fallback)
    ensures Fetch(Body(Some(JArray([JObject(map["bid" := bid])]))), fallback).result == FallbackQuote(fallback)
    ensures Fetch(Body(Some(JArray([JObject(map["bid" := JString(text)])]))), fallback).result == FallbackQuote(fallback)
  {
  }

  /** The fallback reply {"rates": {"BRL": brl}}. */
  function BrlReply(brl: Json): Reply
  {
    Body(Some(JObject(map["rates" := JObject(map["BRL" := brl])])))
  }

  /**
   * From any fallback body whose "rates" is a map holding "BRL", whatever other keys either
   * level carries, the outcome is exactly what the text of rates["BRL"] spells.
   */
  lemma FallbackReadsBrl(body: map<string, Json>, rates: map<string, Json>)
    requires "rates" in body && body["rates"] == JObject(rates) && "BRL" in rates
    ensures FallbackQuote(Body(Some(JObject(body)))) == match ToText(rates["BRL"])
      case None => Failure(NoBrlRate)
      case Some(text) => if ParseDecimal(text).Some? then Success(ParseDecimal(text).value) else Failure(NotNumeric(text))
  {
  }

  /** The fallback's rates["BRL"] is accepted as a JSON number and as the same numeral in text. */
  lemma FallbackAcceptsNumberOrText(rate: Decimal)
    ensures FallbackQuote(BrlReply(JNumber(rate))) == Success(rate)
    ensures FallbackQuote(BrlReply(JString(Format(rate)))) == Success(rate)
  {
    ParseFormat(rate);
    FallbackReadsBrl(map["rates" := JObject(map["BRL" := JNumber(rate)])], map["BRL" := JNumber(rate)]);
    FallbackReadsBrl(map["rates" := JObject(map["BRL" := JString(Format(rate))])], map["BRL" := JString(Format(rate))]);
  }

  /** With the primary down, the fallback's 5.50 is the answer, after one call to each provider. */
  lemma FallbackSample()
    ensures var o := Fetch(TransportError, BrlReply(JString("5.50")));
            o.result == Success(Decimal(550, 2)) && o.calls == [Primary, Fallback]
  {
    var rate := Decimal(550, 2);
    assert Format(rate) == "5.50" by {
      assert Digits(550, 3) == "550" by {
        assert Digits(5, 1) == "5";
        assert Digits(55, 2) == Digits(5, 1) + [DigitChar(5)];
      }
    }
    FallbackAcceptsNumberOrText(rate);
    assert FallbackQuote(BrlReply(JString("5.50"))) == Success(rate);
    assert PrimaryQuote(TransportError).None?;
  }

  /** The bean with its cache: 'latest' is the one slot, empty at start-up. */
  class CambioService {
    var latest: Option<Decimal>

    constructor ()
      ensures latest == None
    {
      latest := None;
    }

    /** getCotacaoDolarBRL as seen through its cache. */
    method GetCotacaoDolarBRL(primary: Reply, fallback: Reply)
      returns (r: Result<Decimal, RateError>, calls: seq<Provider>)
      modifies this
      ensures Looked(r, latest, calls) == Lookup(old(latest), primary, fallback)
    {
      if latest.Some? {
        return Success(latest.value), [];
      }
      var f := Fetch(primary, fallback);
      r, calls := f.result, f.calls;
      if r.Success? {
        latest := Some(r.value);
      }
    }
  }
}
