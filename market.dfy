/**
  The intraday price fetch: `GetImPriceE` as an oracle that records each call,
  the price-extraction loop of `extractPricesFromGetImPriceE`, and the
  orchestration of `getElectrictyPrices`, which issues one fetch for a window
  inside one calendar day and two fetches, split at midnight, otherwise.

  The HTTP exchange (`sendRequest`) and the XML decoding are outside the
  model: the service's answer to what is posted (header and body) is given by
  `respond`, already classified as a transport failure, a decoding failure, or
  the decoded items.
*/
module Market {
  import opened Decimal
  import opened TimeRange
  import opened Soap

  /** One hourly quotation of the intraday market. */
  datatype Item = Item(date: string, hour: int, price: real, volume: real)

  /** The four arguments of a `GetImPriceE` call. */
  datatype Request = Request(startDate: string, endDate: string, startHour: string, endHour: string)

  /**
    What a call produces: `HttpFail` when `sendRequest` returns nil (the
    request could not be built or sent, or the status was not `200 OK`),
    `DecodeFail` when the body does not decode, otherwise the items in document
    order.
  */
  datatype Response = HttpFail | DecodeFail | Decoded(items: seq<Item>)

  /** What a call posts: the `GetImPriceE` header and the envelope carrying the request's arguments. */
  function Sent(r: Request): Post
  {
    ImPricePost(r.startDate, r.endDate, r.startHour, r.endHour)
  }

  /** The posts of a sequence of calls, in order. */
  function SentAll(rs: seq<Request>): seq<Post>
  {
    seq(|rs|, i requires 0 <= i < |rs| => Sent(rs[i]))
  }

  /** The service's answer to a call. */
  function Answer(respond: Post -> Response, r: Request): Response
  {
    respond(Sent(r))
  }

  /** The market service as the program sees it: a fixed answer per post and the log of posts made. */
  class MarketClient {
    const respond: Post -> Response
    var posts: seq<Post>

    constructor (respond: Post -> Response)
      ensures this.respond == respond && posts == []
    {
      this.respond := respond;
      posts := [];
    }

    /**
      `GetImPriceE`: build the envelope around the four arguments, post it
      with the header `urn:GetImPriceE`, and hand back the service's answer.
    */
    method GetImPriceE(startDate: string, endDate: string, startHour: string, endHour: string) returns (res: Response)
      modifies this
      ensures posts == old(posts) + [ImPricePost(startDate, endDate, startHour, endHour)]
      ensures posts[|posts| - 1].action == "urn:GetImPriceE"
      ensures res == respond(ImPricePost(startDate, endDate, startHour, endHour))
    {
      var post := ImPricePost(startDate, endDate, startHour, endHour);
      posts := posts + [post];
      res := respond(post);
    }
  }

  /** The prices a response yields: those of its items in order, none when decoding failed. */
  function PricesOf(res: Response): seq<real>
  {
    if res.Decoded? then seq(|res.items|, i requires 0 <= i < |res.items| => res.items[i].price) else []
  }

  /**
    `extractPricesFromGetImPriceE` on a response that arrived: on a decoding
    error no prices and a failure flag; otherwise the price of every item, in
    item order.
  */
  method ExtractPrices(res: Response) returns (prices: seq<real>, ok: bool)
    requires !res.HttpFail?
    ensures ok == res.Decoded?
    ensures !ok ==> prices == []
    ensures ok ==> |prices| == |res.items| && forall i :: 0 <= i < |prices| ==> prices[i] == res.items[i].price
    ensures prices == PricesOf(res)
  {
    prices := [];
    if res.DecodeFail? {
      return prices, false;
    }
    var items := res.items;
    for i := 0 to |items|
      invariant |prices| == i
      invariant forall k :: 0 <= k < i ==> prices[k] == items[k].price
    {
      prices := prices + [items[i].price];
    }
    ok := true;
  }

  /** The first fetch of a window that crosses midnight: the rest of the earlier day. */
  function EarlierDay(times: Times): Request
  {
    Request(times.startDate, times.startDate, times.startHour, "24")
  }

  /** The second fetch of a window that crosses midnight: the later day up to the end hour. */
  function LaterDay(times: Times): Request
  {
    Request(times.endDate, times.endDate, "0", times.endHour)
  }

  /** The single fetch of a window inside one day. */
  function WholeWindow(times: Times): Request
  {
    Request(times.startDate, times.endDate, times.startHour, times.endHour)
  }

  /** The calls `getElectrictyPrices` makes, given the service's answers. */
  function IssuedRequests(times: Times, respond: Post -> Response): seq<Request>
  {
    if times.startDate == times.endDate then [WholeWindow(times)]
    else if Answer(respond, EarlierDay(times)).HttpFail? then [EarlierDay(times)]
    else [EarlierDay(times), LaterDay(times)]
  }

  /** The price series `getElectrictyPrices` returns, given the service's answers. */
  function FetchedPrices(times: Times, respond: Post -> Response): seq<real>
  {
    if times.startDate == times.endDate then PricesOf(Answer(respond, WholeWindow(times)))
    else if Answer(respond, EarlierDay(times)).HttpFail? then []
    else if !Answer(respond, LaterDay(times)).Decoded? then []
    else PricesOf(Answer(respond, EarlierDay(times))) + PricesOf(Answer(respond, LaterDay(times)))
  }

  /**
    `getElectrictyPrices`: a transport failure of the first (or only) fetch
    returns at once; a decoding failure of the earlier day's fetch is
    tolerated and contributes no prices; any failure of the later day's fetch,
    or of the single fetch, returns an empty series.
  */
  method GetElectricityPrices(client: MarketClient, times: Times) returns (prices: seq<real>)
    modifies client
    ensures client.posts == old(client.posts) + SentAll(IssuedRequests(times, client.respond))
    ensures prices == FetchedPrices(times, client.respond)
  {
    prices := [];
    if times.startDate != times.endDate {
      var htr := client.GetImPriceE(times.startDate, times.startDate, times.startHour, "24");
      assert SentAll([EarlierDay(times)]) == [Sent(EarlierDay(times))];
      if htr.HttpFail? {
        return prices;
      }
      var prices1, ok1 := ExtractPrices(htr);
      htr := client.GetImPriceE(times.endDate, times.endDate, "0", times.endHour);
      assert SentAll([EarlierDay(times), LaterDay(times)]) == [Sent(EarlierDay(times)), Sent(LaterDay(times))];
      if htr.HttpFail? {
        return prices;
      }
      var prices2, ok2 := ExtractPrices(htr);
      if !ok2 {
        return prices;
      }
      prices := prices1 + prices2;
    } else {
      var htr := client.GetImPriceE(times.startDate, times.endDate, times.startHour, times.endHour);
      assert SentAll([WholeWindow(times)]) == [Sent(WholeWindow(times))];
      if htr.HttpFail? {
        return prices;
      }
      var ok;
      prices, ok := ExtractPrices(htr);
      if !ok {
        return prices;
      }
    }
  }

  // ---------------------------------------------------------------------------
  // Properties

  /**
    A window inside one day: exactly one fetch, with the window as given; the
    result is that fetch's prices in item order, empty on any failure.
  */
  lemma SameDayFetch(times: Times, respond: Post -> Response)
    requires times.startDate == times.endDate
    ensures IssuedRequests(times, respond) == [Request(times.startDate, times.endDate, times.startHour, times.endHour)]
    ensures var res := Answer(respond, WholeWindow(times));
      && (!res.Decoded? ==> FetchedPrices(times, respond) == [])
      && (res.Decoded? ==>
            |FetchedPrices(times, respond)| == |res.items| &&
            forall i :: 0 <= i < |res.items| ==> FetchedPrices(times, respond)[i] == res.items[i].price)
  {
  }

  /**
    A window across midnight: the earlier day is fetched first, from the start
    hour to hour 24, then the later day from hour 0 to the end hour, and the
    series is the earlier day's prices followed by the later day's.
  */
  lemma TwoDayFetch(times: Times, respond: Post -> Response)
    requires times.startDate != times.endDate
    requires !Answer(respond, EarlierDay(times)).HttpFail? && Answer(respond, LaterDay(times)).Decoded?
    ensures IssuedRequests(times, respond) == [
      Request(times.startDate, times.startDate, times.startHour, "24"),
      Request(times.endDate, times.endDate, "0", times.endHour)]
    ensures var later := Answer(respond, LaterDay(times)).items;
      var series := FetchedPrices(times, respond);
      var k := |series| - |later|;
      && k == (if Answer(respond, EarlierDay(times)).Decoded? then |Answer(respond, EarlierDay(times)).items| else 0)
      && series[..k] == PricesOf(Answer(respond, EarlierDay(times)))
      && forall i :: 0 <= i < |later| ==> series[k + i] == later[i].price
  {
    var series := FetchedPrices(times, respond);
    var first := PricesOf(Answer(respond, EarlierDay(times)));
    assert series == first + PricesOf(Answer(respond, LaterDay(times)));
    assert series[..|first|] == first;
  }

  /** A transport failure of the earlier day's fetch ends the run with no prices and no second call. */
  lemma FirstTransportFailureStops(times: Times, respond: Post -> Response)
    requires times.startDate != times.endDate && Answer(respond, EarlierDay(times)).HttpFail?
    ensures IssuedRequests(times, respond) == [EarlierDay(times)]
    ensures FetchedPrices(times, respond) == []
  {
  }

  /** A decoding failure of the earlier day's fetch is tolerated: the series is the later day's prices alone. */
  lemma FirstDecodeFailureTolerated(times: Times, respond: Post -> Response)
    requires times.startDate != times.endDate && Answer(respond, EarlierDay(times)).DecodeFail?
    ensures |IssuedRequests(times, respond)| == 2
    ensures FetchedPrices(times, respond) == PricesOf(Answer(respond, LaterDay(times)))
  {
    assert [] + PricesOf(Answer(respond, LaterDay(times))) == PricesOf(Answer(respond, LaterDay(times)));
  }

  /** Any failure of the later day's fetch discards the earlier day's prices too. */
  lemma SecondFailureEmpties(times: Times, respond: Post -> Response)
    requires times.startDate != times.endDate && !Answer(respond, LaterDay(times)).Decoded?
    ensures FetchedPrices(times, respond) == []
  {
  }

  /**
    On a window built from valid instants, the midnight split happens exactly
    when the two instants fall on different calendar days.
  */
  lemma SplitIffDifferentDays(before: CivilTime, now: CivilTime, respond: Post -> Response)
    requires ValidTime(before) && ValidTime(now)
    ensures |IssuedRequests(GetTimeRange(before, now), respond)| == 1 <==>
      SameDay(before, now) || Answer(respond, EarlierDay(GetTimeRange(before, now))).HttpFail?
    ensures SameDay(before, now) ==> IssuedRequests(GetTimeRange(before, now), respond) == [WholeWindow(GetTimeRange(before, now))]
    ensures !SameDay(before, now) ==> IssuedRequests(GetTimeRange(before, now), respond)[0] == EarlierDay(GetTimeRange(before, now))
  {
  }

  /** A request none of whose arguments contains `<`, the character that opens markup. */
  predicate Unmarked(r: Request)
  {
    '<' !in r.startDate && '<' !in r.endDate && '<' !in r.startHour && '<' !in r.endHour
  }

  /**
    Requests free of markup are told apart by what is posted: two such
    requests post the same thing exactly when they are the same request.
  */
  lemma SentInjective(r1: Request, r2: Request)
    requires Unmarked(r1) && Unmarked(r2)
    ensures Sent(r1) == Sent(r2) <==> r1 == r2
  {
    if Sent(r1) == Sent(r2) {
      ImPriceFrameWellFramed();
      FillInjective(ImPriceFrame, r1.startDate, r1.endDate, r1.startHour, r1.endHour,
                    r2.startDate, r2.endDate, r2.startHour, r2.endHour);
    }
  }

  /** Text of digits and dashes carries no markup. */
  lemma DigitsAndDashesUnmarked(s: string)
    requires DigitsAndDashes(s)
    ensures '<' !in s
  {
    forall i | 0 <= i < |s|
      ensures s[i] != '<'
    {
      assert IsDigit(s[i]) || s[i] == '-';
    }
  }

  /**
    Every request made for a window rendered by `getTimeRange` is free of
    markup, so its answer depends on the request alone (`SentInjective`).
  */
  lemma WindowRequestsUnmarked(before: CivilTime, now: CivilTime, respond: Post -> Response)
    ensures forall r :: r in IssuedRequests(GetTimeRange(before, now), respond) ==> Unmarked(r)
  {
    var times := GetTimeRange(before, now);
    DigitsAndDashesUnmarked(times.startDate);
    DigitsAndDashesUnmarked(times.endDate);
    DigitsAndDashesUnmarked(times.startHour);
    DigitsAndDashesUnmarked(times.endHour);
    RequestsUnmarked(times, respond);
  }

  /** When the window's four fields carry no markup, neither does any request made for it. */
  lemma RequestsUnmarked(times: Times, respond: Post -> Response)
    requires '<' !in times.startDate && '<' !in times.endDate && '<' !in times.startHour && '<' !in times.endHour
    ensures forall r :: r in IssuedRequests(times, respond) ==> Unmarked(r)
  {
    assert '<' !in "24" && '<' !in "0";
  }
}
