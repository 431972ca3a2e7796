/** The reporting part of `main`: keep the records that pass the rule, in
    order, and build the one message sent to the notification channel. The
    channel itself is not part of this model; the message string is. */
module Report {
  import opened Screening

  /** Sent when no record passes. */
  const NoMatchMessage: string := "MVP条件を満たす銘柄はありませんでした"

  /** Starts the message when at least one record passes. */
  const MatchPrefix: string := "MVP条件を満たす銘柄: "

  /** Put between two symbols of the message. */
  const Separator: string := ", "

  /** The records that pass the rule, in their input order. */
  function Matching(records: seq<StockRecord>): (m: seq<StockRecord>)
    ensures |m| <= |records|
    ensures forall r :: r in m <==> r in records && Mvp(r)
  {
    if records == [] then []
    else
      var last := records[|records| - 1];
      Matching(records[..|records| - 1]) + (if Mvp(last) then [last] else [])
  }

  /** The `filter` of `main`: runs the rule on every record in turn. */
  method FilterMvp(records: seq<StockRecord>) returns (matches: seq<StockRecord>)
    ensures matches == Matching(records)
  {
    matches := [];
    for k := 0 to |records|
      invariant matches == Matching(records[..k])
    {
      var pass := CheckMvp(records[k]);
      assert records[..k + 1][..k] == records[..k];
      if pass {
        matches := matches + [records[k]];
      }
    }
    assert records[..|records|] == records;
  }

  /** The symbols of the records, in order. */
  function Symbols(records: seq<StockRecord>): (s: seq<string>)
    ensures |s| == |records|
    ensures forall k :: 0 <= k < |records| ==> s[k] == records[k].symbol
  {
    if records == [] then []
    else Symbols(records[..|records| - 1]) + [records[|records| - 1].symbol]
  }

  /** The symbols joined by the separator, with nothing after the last. */
  function Join(xs: seq<string>): string
  {
    if xs == [] then ""
    else if |xs| == 1 then xs[0]
    else Join(xs[..|xs| - 1]) + Separator + xs[|xs| - 1]
  }

  /** What the loop of `main` has built after pushing each symbol followed
      by the separator. */
  function Terminated(xs: seq<string>): string
  {
    if xs == [] then ""
    else Terminated(xs[..|xs| - 1]) + xs[|xs| - 1] + Separator
  }

  /** Pushing symbol-then-separator for each symbol leaves exactly the join
      followed by one trailing separator, so removing the last two
      characters yields the join. */
  lemma {:induction false} TerminatedIsJoinPlusSeparator(xs: seq<string>)
    requires xs != []
    ensures Terminated(xs) == Join(xs) + Separator
  {
    var init := xs[..|xs| - 1];
    if init != [] {
      TerminatedIsJoinPlusSeparator(init);
      calc {
        Terminated(xs);
        Terminated(init) + xs[|xs| - 1] + Separator;
        Join(init) + Separator + xs[|xs| - 1] + Separator;
        Join(xs) + Separator;
      }
    } else {
      assert Terminated(init) == "";
    }
  }

  /** Builds the message for the matching records as `main` does: the
      no-match text, or the prefix followed by every symbol and a separator,
      after which the last two characters are removed. */
  method BuildMessage(matches: seq<StockRecord>) returns (message: string)
    ensures matches == [] ==> message == NoMatchMessage
    ensures matches != [] ==> message == MatchPrefix + Join(Symbols(matches))
  {
    if matches == [] {
      return NoMatchMessage;
    }
    message := MatchPrefix;
    for k := 0 to |matches|
      invariant message == MatchPrefix + Terminated(Symbols(matches[..k]))
    {
      assert Symbols(matches[..k + 1])[..k] == Symbols(matches[..k]);
      message := message + matches[k].symbol;
      message := message + Separator;
    }
    assert matches[..|matches|] == matches;
    TerminatedIsJoinPlusSeparator(Symbols(matches));
    message := message[..|message| - 1];
    message := message[..|message| - 1];
  }

  /** The whole report: the message for the records that pass the rule. */
  method ReportMessage(records: seq<StockRecord>) returns (message: string)
    ensures Matching(records) == [] ==> message == NoMatchMessage
    ensures Matching(records) != [] ==> message == MatchPrefix + Join(Symbols(Matching(records)))
  {
    var matches := FilterMvp(records);
    message := BuildMessage(matches);
  }

  /** The no-match text is sent exactly when no record passes the rule. */
  lemma NoMatchIffNothingPasses(records: seq<StockRecord>)
    ensures (forall r :: r in records ==> !Mvp(r)) <==> Matching(records) == []
  {
  }

  /** A match message can never be mistaken for the no-match text: the two
      part ways right after the common words, at ':' against 'は'. */
  lemma MatchMessageIsNotNoMatch(symbols: seq<string>)
    ensures MatchPrefix + Join(symbols) != NoMatchMessage
  {
    assert (MatchPrefix + Join(symbols))[11] == ':';
    assert NoMatchMessage[11] == 'は';
  }
}
