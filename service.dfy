/**
 Both handlers use the one process-wide record, so a client's attempts on the
 two endpoints add up under one key. Requests are taken one at a time.
 */
module Service {
  import opened JsText
  import opened ClientKey
  import opened Limiter
  import Route
  import Index

  /**
   Four requests from one client that sends the same `x-forwarded-for`
   header, on a fresh record: two to `POST`, then two to the placeholder
   handler. The first three pass the limiter (the third reports attempt 3)
   and the fourth is refused, although it is that endpoint's second request.
   */
  method SharedRecordScenario<V>(forwardedFor: string, body: Option<Route.Body>,
                                 generate: Route.Prompt -> Option<string>, parse: string -> Option<V>)
    returns (first: Route.Outcome<V>, second: Route.Outcome<V>, third: Index.Reply, fourth: Index.Reply)
    requires forwardedFor != ""
    ensures !first.TooMany? && !second.TooMany?
    ensures third == Index.Generated("Generated successfully! Attempt 3/3.", Index.SampleResult)
    ensures fourth == Index.LimitReached(Index.LimitError) && fourth.Status() == 429
  {
    var store := new UsageStore();
    var routeHeaders := RouteHeaders(Some(forwardedFor), None, None);
    var indexHeaders := IndexHeaders(Some(forwardedFor), None);
    var key := RouteKey(routeHeaders);
    EndpointsAgreeOnForwardedFor(routeHeaders, indexHeaders);

    first := Route.Post(store, routeHeaders, body, generate, parse);
    assert Count(store.usage, key) == 1;
    assert first == Route.Respond(1, body, generate, parse);
    second := Route.Post(store, routeHeaders, body, generate, parse);
    assert Count(store.usage, key) == 2;
    assert second == Route.Respond(2, body, generate, parse);
    third := Index.Handler(store, indexHeaders);
    assert Count(store.usage, key) == 3;
    assert third == Index.ReplyFor(3);
    Index.AttemptMessages();
    fourth := Index.Handler(store, indexHeaders);
    assert Count(store.usage, key) == 4;
    assert fourth == Index.ReplyFor(4);
  }
}
