/**
 The placeholder API handler (index.ts:12-39): it counts the attempt on the
 same shared record as `POST`, refuses over the limit with an `error` body,
 and otherwise answers with a fixed sample result whose message reports the
 attempt number.
 */
module Index {
  import opened JsText
  import opened ClientKey
  import opened Limiter

  datatype Step = Step(step: string, details: string)

  /** The fixed part of the success body. */
  datatype Sample = Sample(ideaTitle: string, ideaDescription: string, steps: seq<Step>,
                           summaryTitle: string, points: seq<string>)

  const SampleResult: Sample := Sample(
    "Sample Title", "Your generated project idea will go here.",
    [Step("Step 1", "Do this"), Step("Step 2", "Then do this")],
    "Summary Title", ["Point 1", "Point 2"])

  /** The handler's two responses: 429 with an `error` field, or 200 with a message and the sample. */
  datatype Reply =
    | LimitReached(error: string)
    | Generated(message: string, sample: Sample)
  {
    function Status(): nat {
      if LimitReached? then 429 else 200
    }
  }

  const LimitError: string := "You’ve reached your 3-generation limit."

  /** `Generated successfully! Attempt ${n}/3.` */
  function AttemptMessage(n: nat): string {
    "Generated successfully! Attempt " + Decimal(n) + "/3."
  }

  /** The reply for the attempt count the limiter produced. */
  function ReplyFor(count: nat): (r: Reply)
    ensures r.LimitReached? <==> Refused(count)
    ensures r.Status() == 429 <==> Refused(count)
    ensures r.LimitReached? ==> r.error == LimitError
    ensures r.Generated? ==> r.sample == SampleResult && |r.sample.steps| == 2 && |r.sample.points| == 2
  {
    if Refused(count) then LimitReached(LimitError)
    else Generated(AttemptMessage(count), SampleResult)
  }

  /**
   A successful reply names its attempt as the single digit of the count,
   which is between 1 and 3, and two successful replies differ only there.
   */
  lemma SuccessReportsAttempt(count: nat)
    requires 1 <= count && !Refused(count)
    ensures ReplyFor(count) == Generated(
              "Generated successfully! Attempt " + [DigitChar(count)] + "/3.", SampleResult)
    ensures DigitsValue(Decimal(count)) == count
  {
    DecimalRoundTrip(count);
  }

  /** The three messages a client can see, one per allowed attempt. */
  lemma AttemptMessages()
    ensures AttemptMessage(1) == "Generated successfully! Attempt 1/3."
    ensures AttemptMessage(2) == "Generated successfully! Attempt 2/3."
    ensures AttemptMessage(3) == "Generated successfully! Attempt 3/3."
  {
    SuccessReportsAttempt(1);
    SuccessReportsAttempt(2);
    SuccessReportsAttempt(3);
    assert DigitChar(1) == '1' && DigitChar(2) == '2' && DigitChar(3) == '3';
  }

  /** The success body does not depend on the request or the attempt, apart from the message. */
  lemma SuccessBodyConstant(c1: nat, c2: nat)
    requires !Refused(c1) && !Refused(c2)
    ensures ReplyFor(c1).sample == ReplyFor(c2).sample
    ensures ReplyFor(c1).message == ReplyFor(c2).message <==> c1 == c2
  {
    if ReplyFor(c1).message == ReplyFor(c2).message {
      var prefix := "Generated successfully! Attempt ";
      var m1, m2 := AttemptMessage(c1), AttemptMessage(c2);
      assert m1[..|prefix| + |Decimal(c1)|] == prefix + Decimal(c1);
      assert |Decimal(c1)| == |Decimal(c2)|;
      assert Decimal(c1) == m1[|prefix|..|prefix| + |Decimal(c1)|];
      assert Decimal(c2) == m2[|prefix|..|prefix| + |Decimal(c2)|];
      DecimalRoundTrip(c1);
      DecimalRoundTrip(c2);
    }
  }

  /**
   The handler on the shared store: the attempt is counted under the client
   key, no other key changes, and the reply follows the new count.
   */
  method Handler(store: UsageStore, headers: IndexHeaders) returns (r: Reply)
    modifies store
    ensures store.usage == Bump(old(store.usage), IndexKey(headers))
    ensures r == ReplyFor(Count(store.usage, IndexKey(headers)))
  {
    var clientIP := IndexKey(headers);
    var count, allowed := store.Hit(clientIP);
    if !allowed {
      return LimitReached(LimitError);
    }
    return Generated(AttemptMessage(count), SampleResult);
  }
}
