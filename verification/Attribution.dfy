/** Naming the cause of a timed-out call from its diagnostic record. */
module Attribution {
  import opened Text
  import opened Transport

  datatype Cause = ExpectedStall | PairingBroken | NoProducer | TransportError | Unknown

  const ERROR_WORDS: seq<string> := ["closed", "disconnect", "decode", "json", "broken pipe"]

  predicate NamesTransportError(error: string) {
    exists i | 0 <= i < |ERROR_WORDS| :: Contains(Lower(error), ERROR_WORDS[i])
  }

  function AttributeTimeout(record: Option<Record>): (cause: Cause) {
    match record
    case None => Unknown
    case Some(r) =>
      if r.stepping == Some(true) then ExpectedStall
      else if !r.timedOut then Unknown
      else if r.broadcastAt.Some? then PairingBroken
      else if NamesTransportError(r.error) then TransportError
      else NoProducer
  }

  /** Letters the error words need and a timeout text never has. */
  lemma TimeoutTextLetters(shown: string, c: char)
    requires NumeralText(shown) && c in "cdjb"
    ensures c !in Lower(TimeoutText(shown))
  {
    var text := TimeoutText(shown);
    var low := Lower(text);
    forall i | 0 <= i < |low| ensures low[i] != c {
      assert text[i] in "no response within " || text[i] in shown;
    }
  }

  /** The text the transport itself writes for a timeout never names a transport error. */
  lemma TimeoutTextIsNeutral(shown: string)
    requires NumeralText(shown)
    ensures !NamesTransportError(TimeoutText(shown))
  {
    var low := Lower(TimeoutText(shown));
    forall c | c in "cdjb" ensures c !in low { TimeoutTextLetters(shown, c); }
    ContainedCharacter(low, "closed", 'c');
    ContainedCharacter(low, "disconnect", 'd');
    ContainedCharacter(low, "decode", 'd');
    ContainedCharacter(low, "json", 'j');
    ContainedCharacter(low, "broken pipe", 'b');
    assert 'c' in "cdjb" && 'd' in "cdjb" && 'j' in "cdjb" && 'b' in "cdjb";
  }

  /** A call without a record is never blamed on anything. */
  lemma NoRecordNoCause()
    ensures AttributeTimeout(None) == Unknown
  {}

  /** Any text that contains one of five words, in any case, names a transport error. */
  lemma ErrorTextsNamed(before: string, word: string, after: string)
    requires Lower(word) in {"closed", "disconnect", "decode", "json", "broken pipe"}
    ensures NamesTransportError(before + word + after)
  {
    var low := Lower(before + word + after);
    var text, m, n := before + word + after, |before|, |before| + |word|;
    assert forall i | m <= i < n :: text[i] == word[i - m];
    assert low[m..n] == Lower(word);
    assert OccursAt(low, Lower(word), |before|);
    assert ERROR_WORDS[0] == "closed" && ERROR_WORDS[1] == "disconnect" && ERROR_WORDS[2] == "decode";
    assert ERROR_WORDS[3] == "json" && ERROR_WORDS[4] == "broken pipe";
  }
}
