/**
 The client key both handlers count attempts under: the first truthy address
 source, else the shared "unknown" bucket, cut at the first comma (a
 forwarded-address header lists the client first) and trimmed.
 */
module ClientKey {
  import opened JsText

  const Unknown: string := "unknown"

  /** `value || fallback` for an optional header value. */
  function Or(value: Option<string>, fallback: string): (s: string)
    ensures Truthy(value) ==> s == value.value
    ensures !Truthy(value) ==> s == fallback
  {
    if Truthy(value) then value.value else fallback
  }

  /** `source.split(",")[0].trim()`. */
  function KeyOf(source: string): (key: string)
    ensures ',' !in key
    ensures Trimmed(key)
    ensures |key| <= |source|
  {
    Trim(BeforeFirst(source, ','))
  }

  /** route.ts: `x-forwarded-for`, then `req.ip`, then `x-real-ip`. */
  datatype RouteHeaders = RouteHeaders(forwardedFor: Option<string>, ip: Option<string>, realIp: Option<string>)

  /** index.ts: `x-forwarded-for`, then the socket's remote address. */
  datatype IndexHeaders = IndexHeaders(forwardedFor: Option<string>, remoteAddress: Option<string>)

  /** route.ts:22-27. */
  function RouteKey(h: RouteHeaders): (key: string)
    ensures ',' !in key && Trimmed(key)
    ensures Truthy(h.forwardedFor) ==> key == KeyOf(h.forwardedFor.value)
    ensures !Truthy(h.forwardedFor) && Truthy(h.ip) ==> key == KeyOf(h.ip.value)
    ensures !Truthy(h.forwardedFor) && !Truthy(h.ip) && Truthy(h.realIp) ==> key == KeyOf(h.realIp.value)
    ensures !Truthy(h.forwardedFor) && !Truthy(h.ip) && !Truthy(h.realIp) ==> key == Unknown
  {
    UnknownIsItsOwnKey();
    KeyOf(Or(h.forwardedFor, Or(h.ip, Or(h.realIp, Unknown))))
  }

  /** index.ts:13-14. */
  function IndexKey(h: IndexHeaders): (key: string)
    ensures ',' !in key && Trimmed(key)
    ensures Truthy(h.forwardedFor) ==> key == KeyOf(h.forwardedFor.value)
    ensures !Truthy(h.forwardedFor) && Truthy(h.remoteAddress) ==> key == KeyOf(h.remoteAddress.value)
    ensures !Truthy(h.forwardedFor) && !Truthy(h.remoteAddress) ==> key == Unknown
  {
    UnknownIsItsOwnKey();
    KeyOf(Or(h.forwardedFor, Or(h.remoteAddress, Unknown)))
  }

  /** A bare, trimmed address without a comma is its own key. */
  lemma PlainAddressIsItsOwnKey(address: string)
    requires ',' !in address && Trimmed(address)
    ensures KeyOf(address) == address
  {
    BeforeFirstWithoutSeparator(address, ',');
    TrimOfTrimmed(address);
  }

  lemma UnknownIsItsOwnKey()
    ensures KeyOf(Unknown) == Unknown
  {
    assert Trimmed(Unknown);
    PlainAddressIsItsOwnKey(Unknown);
  }

  /** In a forwarded list `client, proxy, …` the key is the trimmed client entry, whatever follows. */
  lemma ForwardedListKey(client: string, rest: string)
    requires ',' !in client
    ensures KeyOf(client + "," + rest) == Trim(client)
  {
    assert client + "," + rest == client + [','] + rest;
    BeforeFirstOfList(client, ',', rest);
  }

  /**
   Both handlers read `x-forwarded-for` first, so a request to either
   endpoint with the same truthy forwarded header is counted under the same key.
   */
  lemma EndpointsAgreeOnForwardedFor(r: RouteHeaders, i: IndexHeaders)
    requires r.forwardedFor == i.forwardedFor && Truthy(r.forwardedFor)
    ensures RouteKey(r) == IndexKey(i)
  {
  }

  /** Every client without any address source shares the one "unknown" bucket. */
  lemma AnonymousClientsShareBucket(r: RouteHeaders, i: IndexHeaders)
    requires !Truthy(r.forwardedFor) && !Truthy(r.ip) && !Truthy(r.realIp)
    requires !Truthy(i.forwardedFor) && !Truthy(i.remoteAddress)
    ensures RouteKey(r) == IndexKey(i) == Unknown
  {
  }
}
