/**
 * `fetch_reel_url` (main.py:88-107): two download services tried in a fixed
 * order. Each is asked once; the decoded reply is inspected by that service's
 * own acceptance rule, and every exception (network failure, a reply that is
 * not JSON, a reply that is not an object, a missing key) makes that service
 * decline. The replies are inputs: the model does not perform the requests.
 */
module ProviderChain {
  import opened Common

  const DurgeshApi: string := "https://insta-dl-api.durgesh-024.workers.dev/?url="
  const HazexApi: string := "https://insta-dl.hazex.workers.dev/?url="

  /** What `resp.json()` of the first service yields: it raised, or an object with these keys. */
  datatype DurgeshReply =
    | DurgeshRaised
    | DurgeshObject(status: Option<Value>, video: Option<Value>)

  /** The value under the second service's `result` key: an object (with or without `url`), or anything else. */
  datatype HazexResult = ResultObject(url: Option<Value>) | ResultOther

  /** What `resp.json()` of the second service yields. */
  datatype HazexReply =
    | HazexRaised
    | HazexObject(error: Option<Value>, result: Option<HazexResult>)

  /** One service's verdict on its reply. */
  datatype Decision = Decline | Accept(locator: Value)

  /** `data.get("status") == "success" and data.get("video")`, then `data["video"]` (main.py:91-94). */
  function DurgeshDecision(r: DurgeshReply): (dec: Decision)
    ensures dec.Accept? <==>
      r.DurgeshObject? && r.status == Some(Str("success")) && TruthyField(r.video)
    ensures dec.Accept? ==> Truthy(dec.locator) && r.video == Some(dec.locator)
  {
    match r
    case DurgeshRaised => Decline
    case DurgeshObject(status, video) =>
      if status == Some(Str("success")) && TruthyField(video) then Accept(video.value) else Decline
  }

  /**
   * `not data.get("error") and "result" in data`, then `data["result"]["url"]`
   * (main.py:100-103). Indexing a `result` that is not an object, or one
   * without `url`, raises, and the exception makes the service decline. An
   * accepted `url` is returned as it is, even when it is falsy.
   */
  function HazexDecision(r: HazexReply): (dec: Decision)
    ensures dec.Accept? <==>
      r.HazexObject? && !TruthyField(r.error) && r.result.Some? &&
      r.result.value.ResultObject? && r.result.value.url.Some?
    ensures dec.Accept? ==> r.result == Some(ResultObject(Some(dec.locator)))
  {
    match r
    case HazexRaised => Decline
    case HazexObject(error, result) =>
      if TruthyField(error) then Decline
      else match result
        case Some(ResultObject(Some(url))) => Accept(url)
        case _ => Decline
  }

  /**
   * A chain runner over an ordered list of decisions: the locator of the
   * first service that accepts, or `None` (here `Null`) when all decline.
   */
  function RunChain(ds: seq<Decision>): (r: Value)
    ensures (forall i :: 0 <= i < |ds| ==> ds[i].Decline?) ==> r == Null
    ensures forall i :: 0 <= i < |ds| && ds[i].Accept? && (forall j :: 0 <= j < i ==> ds[j].Decline?) ==>
      r == ds[i].locator
  {
    if ds == [] then Null
    else match ds[0]
      case Accept(v) => v
      case Decline => RunChain(ds[1..])
  }

  /** The requests issued and the value returned by one call of `fetch_reel_url`. */
  datatype Fetch = Fetch(requests: seq<string>, locator: Value)

  /**
   * `fetch_reel_url(session, url)`: the first service is always asked, the
   * second only when the first declines; the result is `Null` (Python's
   * `None`) when both decline.
   */
  function FetchReelUrl(url: string, first: DurgeshReply, second: HazexReply): (f: Fetch)
    ensures 1 <= |f.requests| <= 2 && f.requests[0] == DurgeshApi + url
    ensures |f.requests| == 2 <==> DurgeshDecision(first).Decline?
    ensures |f.requests| == 2 ==> f.requests[1] == HazexApi + url
  {
    match DurgeshDecision(first)
    case Accept(v) => Fetch([DurgeshApi + url], v)
    case Decline =>
      match HazexDecision(second)
      case Accept(v) => Fetch([DurgeshApi + url, HazexApi + url], v)
      case Decline => Fetch([DurgeshApi + url, HazexApi + url], Null)
  }

  /** `fetch_reel_url` is the chain runner over the two services, in this order. */
  lemma FetchIsChain(url: string, first: DurgeshReply, second: HazexReply)
    ensures FetchReelUrl(url, first, second).locator ==
      RunChain([DurgeshDecision(first), HazexDecision(second)])
  {
    var ds := [DurgeshDecision(first), HazexDecision(second)];
    assert ds[1..] == [HazexDecision(second)];
    assert ds[1..][1..] == [];
  }

  /**
   * A locator is never returned without a validated success indicator: a
   * non-null result is the first service's truthy `video` under status
   * "success", or else the second service's `result.url` under a falsy `error`.
   */
  lemma LocatorIsValidated(url: string, first: DurgeshReply, second: HazexReply)
    ensures var v := FetchReelUrl(url, first, second).locator;
      v != Null ==>
        (first.DurgeshObject? && first.status == Some(Str("success")) && first.video == Some(v) && Truthy(v)) ||
        (DurgeshDecision(first).Decline? && second.HazexObject? && !TruthyField(second.error) &&
         second.result == Some(ResultObject(Some(v))))
  {
  }

  /** When the first service accepts, its locator is returned and the second is never asked. */
  lemma FirstAcceptWins(url: string, first: DurgeshReply, second: HazexReply)
    requires DurgeshDecision(first).Accept?
    ensures FetchReelUrl(url, first, second) == Fetch([DurgeshApi + url], first.video.value)
  {
  }

  /** A first service that raises is not surfaced: the second service's locator is returned. */
  lemma FailoverToSecond(url: string, second: HazexReply)
    requires HazexDecision(second).Accept?
    ensures FetchReelUrl(url, DurgeshRaised, second).locator == second.result.value.url.value
  {
  }

  /** Both declining yields `None`, and no exception crosses the boundary. */
  lemma BothDecline(url: string, first: DurgeshReply, second: HazexReply)
    requires DurgeshDecision(first).Decline? && HazexDecision(second).Decline?
    ensures FetchReelUrl(url, first, second).locator == Null
  {
  }

  /** Malformed first reply, second reply `{"result": {"url": "X"}}` without `error`: "X" is returned. */
  lemma MalformedThenSuccess(url: string)
    ensures FetchReelUrl(url, DurgeshRaised, HazexObject(None, Some(ResultObject(Some(Str("X")))))).locator ==
      Str("X")
  {
  }
}
