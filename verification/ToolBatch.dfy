/** What each call of a batch became and why a batch stopped, told by the services alone. */
module ToolBatch {
  import opened Wrappers
  import opened ToolCalls

  /** The scan of what a call produced: the router's return for an allowed call, else the notice of its refusal. */
  ghost predicate ScanOf(sv: Services, call: ToolCall, before: seq<Message>, scan: Scan) {
    if !sv.allows(call) then scan == sv.scan(call, false, sv.refusal(call))
    else
      var returned := sv.execute(before, call);
      returned.Some? && scan == sv.scan(call, sv.trustsOutputOf(call), returned.value.content)
  }

  /** The invariant that the meta verifier checks: only output of trusted calls without a threat is called trusted. */
  ghost predicate Vetted(sv: Services, call: ToolCall, scan: Scan) {
    sv.metaHolds(call, sv.redact(scan.sanitized),
                 sv.allows(call) && sv.trustsOutputOf(call) && !scan.blockedThreat, scan.blockedThreat)
  }

  /** The result entered for a call, and whether it counts as blocked. */
  ghost predicate Reported(sv: Services, call: ToolCall, before: seq<Message>, message: Message, blocked: bool) {
    exists scan :: ReportedAs(sv, call, before, message, blocked, scan)
  }

  ghost predicate ReportedAs(
    sv: Services, call: ToolCall, before: seq<Message>, message: Message, blocked: bool, scan: Scan)
  {
    && ScanOf(sv, call, before, scan) && Vetted(sv, call, scan)
    && message.Tool? && message.name == call.name && message.content == sv.redact(scan.sanitized)
    && (sv.allows(call) ==> message.toolCallId == sv.execute(before, call).value.toolCallId)
    && (!sv.allows(call) ==> message.toolCallId == call.id)
    && (blocked <==> !sv.allows(call) || scan.blockedThreat)
  }

  /** Why a batch stops after the calls done so far. */
  ghost predicate StopsFor(
    sv: Services, calls: seq<ToolCall>, after: seq<Message>, done: nat, blocked: seq<bool>, stop: Option<Stop>)
    requires done <= |calls|
  {
    match stop
    case None => done == |calls|
    case Some(RouterThrew) => done < |calls| && sv.allows(calls[done]) && sv.execute(after, calls[done]).None?
    case Some(MetaViolated) =>
      done < |calls| && exists scan :: ScanOf(sv, calls[done], after, scan) && !Vetted(sv, calls[done], scan)
    case Some(StreakAborted) => blocked != [] && blocked[|blocked| - 1]
  }

  /** The calls done, each with its result at its place in the transcript, and the reason to go no further. */
  ghost predicate Explained(
    sv: Services, calls: seq<ToolCall>, before: seq<Message>, after: seq<Message>, blocked: seq<bool>,
    stop: Option<Stop>)
  {
    && |before| <= |after| && after[..|before|] == before
    && |after| - |before| == |blocked| <= |calls|
    && (forall k :: 0 <= k < |blocked| ==>
          Reported(sv, calls[k], after[..|before| + k], after[|before| + k], blocked[k]))
    && StopsFor(sv, calls, after, |blocked|, blocked, stop)
  }

  lemma ProcessReports(sv: Services, call: ToolCall, before: seq<Message>)
    ensures match Process(sv, before, call)
      case Appended(message, blocked) => Reported(sv, call, before, message, blocked)
      case Threw(RouterThrew) => sv.allows(call) && sv.execute(before, call).None?
      case Threw(MetaViolated) => exists scan :: ScanOf(sv, call, before, scan) && !Vetted(sv, call, scan)
      case Threw(StreakAborted) => false
  {
    var candidate := sv.allows(call) && sv.trustsOutputOf(call);
    var result := if sv.allows(call) then sv.execute(before, call) else Some(ToolResult(call.id, sv.refusal(call)));
    if result.Some? {
      var scan := sv.scan(call, candidate, result.value.content);
      assert ScanOf(sv, call, before, scan);
      if Vetted(sv, call, scan) {
        var message := Tool(result.value.toolCallId, call.name, sv.redact(scan.sanitized));
        assert ReportedAs(sv, call, before, message, !sv.allows(call) || scan.blockedThreat, scan);
      }
    }
  }

  lemma ExplainedCons(
    sv: Services, calls: seq<ToolCall>, before: seq<Message>, message: Message, wasBlocked: bool,
    after: seq<Message>, blocked: seq<bool>, stop: Option<Stop>)
    requires calls != [] && Reported(sv, calls[0], before, message, wasBlocked)
    requires Explained(sv, calls[1..], before + [message], after, blocked, stop)
    ensures Explained(sv, calls, before, after, [wasBlocked] + blocked, stop)
  {
    hide Reported, ScanOf, Vetted;
    var all, n := [wasBlocked] + blocked, |before|;
    assert after[..n] == (after[..n + 1])[..n] == before;
    forall k | 0 <= k < |all| ensures Reported(sv, calls[k], after[..n + k], after[n + k], all[k]) {
      if k > 0 {
        assert after[..n + 1 + (k - 1)] == after[..n + k];
      } else {
        assert after[n] == after[..n + 1][n] == message;
      }
    }
    assert calls[1..][..|blocked|] == calls[1..|all|];
  }

  /**
   * Every result of a batch is the redacted scan of what its call produced at that moment of the transcript, and
   * counts as blocked exactly if the call was refused or the scan reports a blocked threat; and the batch stops
   * for the reason given.
   */
  lemma {:induction false} BatchExplained(sv: Services, calls: seq<ToolCall>, messages: seq<Message>, streak: nat)
    ensures var batch := RunCalls(sv, calls, messages, streak);
      && Explained(sv, calls, messages, batch.messages, batch.blocked, batch.stop)
      && batch.completed == calls[..|batch.blocked|]
    decreases |calls|
  {
    hide Process, Explained, Reported, ScanOf, Vetted;
    if calls == [] {
      NothingDone(sv, messages);
    } else {
      ProcessReports(sv, calls[0], messages);
      match Process(sv, messages, calls[0]) {
        case Threw(stop) =>
          StoppedAtOnce(sv, calls, messages, stop);
        case Appended(message, blocked) =>
          var next := if blocked then streak + 1 else 0;
          if next >= 3 {
            DoneThenAborted(sv, calls, messages, message);
          } else {
            var rest := RunCalls(sv, calls[1..], messages + [message], next);
            BatchExplained(sv, calls[1..], messages + [message], next);
            BatchSizes(sv, calls[1..], messages + [message], rest);
            ExplainedCons(sv, calls, messages, message, blocked, rest.messages, rest.blocked, rest.stop);
            assert [calls[0]] + calls[1..][..|rest.blocked|] == calls[..1 + |rest.blocked|];
          }
      }
    }
  }

  lemma NothingDone(sv: Services, messages: seq<Message>)
    ensures Explained(sv, [], messages, messages, [], None)
  {
  }

  lemma BatchSizes(sv: Services, calls: seq<ToolCall>, before: seq<Message>, batch: Batch)
    requires Explained(sv, calls, before, batch.messages, batch.blocked, batch.stop)
    ensures |batch.blocked| <= |calls|
  {
  }

  lemma StoppedAtOnce(sv: Services, calls: seq<ToolCall>, messages: seq<Message>, stop: Stop)
    requires calls != [] && Process(sv, messages, calls[0]) == Threw(stop)
    ensures Explained(sv, calls, messages, messages, [], Some(stop))
  {
    ProcessReports(sv, calls[0], messages);
  }

  lemma DoneThenAborted(sv: Services, calls: seq<ToolCall>, messages: seq<Message>, message: Message)
    requires calls != [] && Reported(sv, calls[0], messages, message, true)
    ensures Explained(sv, calls, messages, messages + [message], [true], Some(StreakAborted))
  {
    hide Reported;
    assert (messages + [message])[..|messages|] == messages;
  }
}
