/** What the two load generators share: the sample of error messages, and quotients in order. */
module LoadMetrics {
  const MAX_ERRORS := 20

  function AddError(errors: seq<string>, e: string): seq<string> {
    if |errors| < MAX_ERRORS then errors + [e] else errors
  }

  function AddErrors(errors: seq<string>, messages: seq<string>): seq<string>
    decreases |messages|
  {
    if messages == [] then errors else AddErrors(AddError(errors, messages[0]), messages[1..])
  }

  /** However many errors there are, the sample holds the first twenty, in their order. */
  lemma {:induction false} SampleIsFirstErrors(errors: seq<string>, messages: seq<string>)
    requires |errors| <= 20
    ensures var all := errors + messages;
      AddErrors(errors, messages) == if |all| < 20 then all else all[..20]
    decreases |messages|
  {
    if messages == [] {
      assert errors + messages == errors;
    } else {
      SampleIsFirstErrors(AddError(errors, messages[0]), messages[1..]);
      assert errors + messages == (errors + [messages[0]]) + messages[1..];
      if |errors| == MAX_ERRORS {
        assert (errors + messages[1..])[..MAX_ERRORS] == errors == (errors + messages)[..MAX_ERRORS];
      }
    }
  }

  lemma DividesInOrder(a: real, b: real, d: real)
    requires a <= b && d > 0.0
    ensures a / d <= b / d
  {}
}
