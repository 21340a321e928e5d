/**
 The test error monitor's message-matching state machine. A test states the
 messages it expects; every message the validation layer reports is matched
 against them; what is matched is consumed, and what is missing or
 unexpected is logged as a test failure.
 */
module ErrorMonitor {
  import opened Handles
  import opened Substrings
  import opened MessageFlags
  import opened ExpectedMessages

  /** A test failure (`ADD_FAILURE`) and what it reports. */
  datatype Failure =
    | UndesiredReceived(regex: string, message: string)
    | UnexpectedMessage(message: string)
    | NotReceived(expected: string)
    | ExpectedSuccessButGot(message: string)

  /** The optional atomic flag a test registers to learn that any message
      arrived. */
  datatype Bailout = NoBailout | BailoutFlag(raised: bool)

  /** `failures` stands for the test framework's failure log, which no reset
      clears. */
  datatype Monitor = Monitor(flags: Flags, bailout: Bailout, messageFound: bool,
                             failureStrings: seq<string>, desired: seq<Expected>,
                             ignore: seq<string>, allowed: seq<string>, failures: seq<Failure>)

  /** MonitorReset: back to matching errors only, with every list and the
      found flag cleared; failures already logged stay logged. */
  function MonitorReset(m: Monitor): (r: Monitor)
    ensures r.failures == m.failures
    ensures r.flags == ErrorBit && r.bailout == NoBailout && !r.messageFound
    ensures r.failureStrings == [] && r.desired == [] && r.ignore == [] && r.allowed == []
  {
    Monitor(ErrorBit, NoBailout, false, [], [], [], [], m.failures)
  }

  /** ExpectSuccess: no expected messages; report the given kinds. */
  function ExpectSuccess(m: Monitor, mask: Flags): (r: Monitor)
    ensures r.desired == [] && r.flags == mask
    ensures r == m.(desired := [], flags := mask)
  {
    m.(desired := [], flags := mask)
  }

  /** The constructor: a reset monitor expecting success for errors. */
  function NewMonitor(): (r: Monitor)
    ensures r.desired == [] && r.failures == [] && r.flags == ErrorBit && !r.messageFound
  {
    ExpectSuccess(MonitorReset(Monitor(0, NoBailout, false, [], [], [], [], [])), ErrorBit)
  }

  /** ExpectingSuccess (also NeedCheckSuccess): exactly one expected message,
      with an empty message string, and nothing ignored. */
  predicate ExpectingSuccess(m: Monitor) {
    |m.desired| == 1 && m.desired[0].pattern == "" && |m.ignore| == 0
  }

  /** The failures VerifyNotFound logs: one per recorded message, if any
      expected message was found. */
  function SuccessFailures(m: Monitor): (r: seq<Failure>)
    ensures !m.messageFound ==> r == []
    ensures m.messageFound ==> (|r| == |m.failureStrings| &&
              forall i :: 0 <= i < |r| ==> r[i] == ExpectedSuccessButGot(m.failureStrings[i]))
  {
    if m.messageFound then seq(|m.failureStrings|, i requires 0 <= i < |m.failureStrings| => ExpectedSuccessButGot(m.failureStrings[i]))
    else []
  }

  /** VerifyNotFound: every message recorded while a message was found is a
      failure; then the monitor is reset. */
  function VerifyNotFound(m: Monitor): (r: Monitor)
    ensures r == MonitorReset(m).(failures := m.failures + SuccessFailures(m))
  {
    MonitorReset(m.(failures := m.failures + SuccessFailures(m)))
  }

  /** The failures VerifyFound logs: one per expected message still pending,
      naming it as Print does. */
  function PendingFailures(desired: seq<Expected>): (r: seq<Failure>)
    ensures |r| == |desired|
    ensures forall i :: 0 <= i < |r| ==> r[i] == NotReceived(Print(desired[i]))
  {
    seq(|desired|, i requires 0 <= i < |desired| => NotReceived(Print(desired[i])))
  }

  /** VerifyFound: every pending expected message is a failure; then the
      monitor is reset and expects success for errors. */
  function VerifyFound(m: Monitor): (r: Monitor)
    ensures r.failures == m.failures + PendingFailures(m.desired)
    ensures r.desired == [] && r.ignore == [] && r.allowed == [] && r.failureStrings == []
    ensures !r.messageFound && r.flags == ErrorBit && r.bailout == NoBailout
  {
    ExpectSuccess(MonitorReset(m.(failures := m.failures + PendingFailures(m.desired))), ErrorBit)
  }

  /** Finish: VerifyNotFound, then Reset. */
  function Finish(m: Monitor): (r: Monitor)
    ensures r == VerifyNotFound(m)
  {
    MonitorReset(VerifyNotFound(m))
  }

  /** The state a SetDesired* or SetUnexpectedError call starts from: a
      monitor expecting success is verified first. */
  function Settled(m: Monitor): (r: Monitor)
    ensures !ExpectingSuccess(m) ==> r == m
    ensures ExpectingSuccess(m) ==> r == VerifyNotFound(m) && !ExpectingSuccess(r)
  {
    if ExpectingSuccess(m) then VerifyNotFound(m) else m
  }

  /** One expected message added with the message kinds it is reported as. */
  function AddDesired(m: Monitor, mask: Flags, e: Expected): (r: Monitor)
    ensures r == Settled(m).(desired := Settled(m).desired + [e], flags := Settled(m).flags | mask)
  {
    var b := Settled(m);
    b.(desired := b.desired + [e], flags := b.flags | mask)
  }

  /** SetDesiredFailureMsg: a plain expectation is appended to the settled
      monitor, whose mask gains every kind in `mask`. */
  function SetDesiredFailureMsg(m: Monitor, mask: Flags, msg: string): (r: Monitor)
    ensures r.desired == Settled(m).desired + [PlainExpected(msg)]
    ensures r.flags == Settled(m).flags | mask
    ensures Has(mask, ErrorBit) ==> Has(r.flags, ErrorBit)
    ensures r == Settled(m).(desired := r.desired, flags := r.flags)
  {
    AddDesired(m, mask, PlainExpected(msg))
  }

  /** SetDesiredFailureMsgRegex; `undesired` is empty for the overload
      without an undesired regex. */
  function SetDesiredFailureMsgRegex(m: Monitor, mask: Flags, vuid: string, regex: string, undesired: string): (r: Monitor)
    ensures r.desired == Settled(m).desired + [Expected(vuid, ByRegex, regex, undesired)]
    ensures r.flags == Settled(m).flags | mask
    ensures r == Settled(m).(desired := r.desired, flags := r.flags)
  {
    AddDesired(m, mask, Expected(vuid, ByRegex, regex, undesired))
  }

  /** The counted loop of the SetDesired* family. */
  function AddRepeatedly(m: Monitor, mask: Flags, e: Expected, count: nat): (r: Monitor)
    decreases count
  {
    if count == 0 then m else AddRepeatedly(AddDesired(m, mask, e), mask, e, count - 1)
  }

  /** Whether adding `e` to `b` keeps what `b` expects. Only an empty message
      string added to a monitor that expects and ignores nothing makes it
      ExpectingSuccess, and the next addition then verifies it away. */
  predicate Accumulates(b: Monitor, e: Expected) {
    e.pattern != "" || |b.desired| > 0 || |b.ignore| > 0
  }

  /** SetDesiredError(msg, count): `count` plain entries with the error bit.
      An empty message added more than once to a monitor that expects and
      ignores nothing collapses to a single entry after a reset. */
  function SetDesiredError(m: Monitor, msg: string, count: nat): (r: Monitor)
    ensures count == 0 ==> r == m
    ensures count > 0 && (count == 1 || Accumulates(Settled(m), PlainExpected(msg))) ==>
              r == Extend(Settled(m), ErrorBit, Copies(PlainExpected(msg), count))
    ensures count > 1 && !Accumulates(Settled(m), PlainExpected(msg)) ==>
              r == Extend(VerifyNotFound(AddDesired(m, ErrorBit, PlainExpected(msg))), ErrorBit, [PlainExpected(msg)])
    ensures count > 1 && !Accumulates(Settled(m), PlainExpected(msg)) ==>
              r.desired == [PlainExpected(msg)] && r.flags == ErrorBit && r.allowed == [] && r.ignore == [] && !r.messageFound
  {
    AddRepeatedlyCloses(m, ErrorBit, PlainExpected(msg), count);
    AddRepeatedly(m, ErrorBit, PlainExpected(msg), count)
  }

  function SetDesiredWarning(m: Monitor, msg: string, count: nat): (r: Monitor)
    ensures count == 0 ==> r == m
    ensures count > 0 && (count == 1 || Accumulates(Settled(m), PlainExpected(msg))) ==>
              r == Extend(Settled(m), WarningBit, Copies(PlainExpected(msg), count))
    ensures count > 1 && !Accumulates(Settled(m), PlainExpected(msg)) ==>
              r == Extend(VerifyNotFound(AddDesired(m, WarningBit, PlainExpected(msg))), WarningBit, [PlainExpected(msg)])
    ensures count > 1 && !Accumulates(Settled(m), PlainExpected(msg)) ==>
              r.desired == [PlainExpected(msg)] && r.flags == ErrorBit | WarningBit && r.allowed == [] && r.ignore == [] && !r.messageFound
  {
    AddRepeatedlyCloses(m, WarningBit, PlainExpected(msg), count);
    AddRepeatedly(m, WarningBit, PlainExpected(msg), count)
  }

  function SetDesiredInfo(m: Monitor, msg: string, count: nat): (r: Monitor)
    ensures count == 0 ==> r == m
    ensures count > 0 && (count == 1 || Accumulates(Settled(m), PlainExpected(msg))) ==>
              r == Extend(Settled(m), InformationBit, Copies(PlainExpected(msg), count))
    ensures count > 1 && !Accumulates(Settled(m), PlainExpected(msg)) ==>
              r == Extend(VerifyNotFound(AddDesired(m, InformationBit, PlainExpected(msg))), InformationBit, [PlainExpected(msg)])
    ensures count > 1 && !Accumulates(Settled(m), PlainExpected(msg)) ==>
              r.desired == [PlainExpected(msg)] && r.flags == ErrorBit | InformationBit && r.allowed == [] && r.ignore == [] && !r.messageFound
  {
    AddRepeatedlyCloses(m, InformationBit, PlainExpected(msg), count);
    AddRepeatedly(m, InformationBit, PlainExpected(msg), count)
  }

  function SetDesiredErrorRegex(m: Monitor, vuid: string, regex: string, count: nat): (r: Monitor)
    ensures count == 0 ==> r == m
    ensures count > 0 && (count == 1 || Accumulates(Settled(m), Expected(vuid, ByRegex, regex, ""))) ==>
              r == Extend(Settled(m), ErrorBit, Copies(Expected(vuid, ByRegex, regex, ""), count))
    ensures count > 1 && !Accumulates(Settled(m), Expected(vuid, ByRegex, regex, "")) ==>
              r == Extend(VerifyNotFound(AddDesired(m, ErrorBit, Expected(vuid, ByRegex, regex, ""))), ErrorBit, [Expected(vuid, ByRegex, regex, "")])
    ensures count > 1 && !Accumulates(Settled(m), Expected(vuid, ByRegex, regex, "")) ==>
              r.desired == [Expected(vuid, ByRegex, regex, "")] && r.flags == ErrorBit && r.allowed == [] && r.ignore == [] && !r.messageFound
  {
    AddRepeatedlyCloses(m, ErrorBit, Expected(vuid, ByRegex, regex, ""), count);
    AddRepeatedly(m, ErrorBit, Expected(vuid, ByRegex, regex, ""), count)
  }

  function SetDesiredWarningRegex(m: Monitor, vuid: string, regex: string, count: nat): (r: Monitor)
    ensures count == 0 ==> r == m
    ensures count > 0 && (count == 1 || Accumulates(Settled(m), Expected(vuid, ByRegex, regex, ""))) ==>
              r == Extend(Settled(m), WarningBit, Copies(Expected(vuid, ByRegex, regex, ""), count))
    ensures count > 1 && !Accumulates(Settled(m), Expected(vuid, ByRegex, regex, "")) ==>
              r == Extend(VerifyNotFound(AddDesired(m, WarningBit, Expected(vuid, ByRegex, regex, ""))), WarningBit, [Expected(vuid, ByRegex, regex, "")])
    ensures count > 1 && !Accumulates(Settled(m), Expected(vuid, ByRegex, regex, "")) ==>
              r.desired == [Expected(vuid, ByRegex, regex, "")] && r.flags == ErrorBit | WarningBit && r.allowed == [] && r.ignore == [] && !r.messageFound
  {
    AddRepeatedlyCloses(m, WarningBit, Expected(vuid, ByRegex, regex, ""), count);
    AddRepeatedly(m, WarningBit, Expected(vuid, ByRegex, regex, ""), count)
  }

  /** `count` copies of `e`. */
  function Copies(e: Expected, count: nat): (r: seq<Expected>)
    ensures |r| == count && forall i :: 0 <= i < count ==> r[i] == e
  {
    seq(count, _ => e)
  }

  /** `b` with `es` appended to its expected messages and `mask` added. */
  function Extend(b: Monitor, mask: Flags, es: seq<Expected>): Monitor {
    b.(desired := b.desired + es, flags := b.flags | mask)
  }

  lemma ExtendTwice(b: Monitor, mask: Flags, x: seq<Expected>, y: seq<Expected>)
    ensures Extend(Extend(b, mask, x), mask, y) == Extend(b, mask, x + y)
  {
    assert (b.flags | mask) | mask == b.flags | mask;
    assert b.desired + x + y == b.desired + (x + y);
  }

  /** When the additions accumulate, adding an expectation `count` times
      appends exactly `count` copies to the list the first call settles on,
      and adds the kinds to its mask; nothing else changes. */
  lemma {:induction false} AddRepeatedlyAppends(m: Monitor, mask: Flags, e: Expected, count: nat)
    requires count > 0 && (count == 1 || Accumulates(Settled(m), e))
    ensures AddRepeatedly(m, mask, e, count) == Extend(Settled(m), mask, Copies(e, count))
    decreases count
  {
    var a := AddDesired(m, mask, e);
    assert a == Extend(Settled(m), mask, [e]);
    if count > 1 {
      AddDesiredSettles(m, mask, e);
      assert |a.desired| > 0;
      AddRepeatedlyAppends(a, mask, e, count - 1);
      ExtendTwice(Settled(m), mask, [e], Copies(e, count - 1));
      assert [e] + Copies(e, count - 1) == Copies(e, count);
    } else {
      assert Copies(e, 1) == [e];
      assert AddRepeatedly(a, mask, e, 0) == a;
    }
  }

  /** One step of the collapse: after the first addition the monitor is
      ExpectingSuccess, so the next addition verifies and resets it; the
      monitor verified that way is the same one again. */
  lemma CollapseStep(m: Monitor, mask: Flags, e: Expected)
    requires !Accumulates(Settled(m), e)
    ensures var a := AddDesired(m, mask, e);
            && !Accumulates(Settled(a), e)
            && AddDesired(a, mask, e) == Extend(VerifyNotFound(a), mask, [e])
            && VerifyNotFound(AddDesired(a, mask, e)) == VerifyNotFound(a)
  {
    var a := AddDesired(m, mask, e);
    assert a.desired == [e] && a.ignore == [];
    assert ExpectingSuccess(a);
    var a2 := AddDesired(a, mask, e);
    assert !a2.messageFound && a2.failures == VerifyNotFound(a).failures;
  }

  /** When they do not, the first addition makes the monitor ExpectingSuccess
      and every later one verifies it (logging the messages found so far,
      once), resets every field but the failure log, and adds `e` again. */
  lemma {:induction false} AddRepeatedlyCollapses(m: Monitor, mask: Flags, e: Expected, count: nat)
    requires count > 1 && !Accumulates(Settled(m), e)
    ensures AddRepeatedly(m, mask, e, count) == Extend(VerifyNotFound(AddDesired(m, mask, e)), mask, [e])
    decreases count
  {
    var a := AddDesired(m, mask, e);
    CollapseStep(m, mask, e);
    var a2 := AddDesired(a, mask, e);
    if count == 2 {
      assert AddRepeatedly(a2, mask, e, 0) == a2;
    } else {
      AddRepeatedlyCollapses(a, mask, e, count - 1);
    }
  }

  /** The closed form of the counted loop, in all three cases. */
  lemma AddRepeatedlyCloses(m: Monitor, mask: Flags, e: Expected, count: nat)
    ensures count == 0 ==> AddRepeatedly(m, mask, e, count) == m
    ensures count > 0 && (count == 1 || Accumulates(Settled(m), e)) ==>
              AddRepeatedly(m, mask, e, count) == Extend(Settled(m), mask, Copies(e, count))
    ensures count > 1 && !Accumulates(Settled(m), e) ==>
              AddRepeatedly(m, mask, e, count) == Extend(VerifyNotFound(AddDesired(m, mask, e)), mask, [e])
  {
    if count > 0 && (count == 1 || Accumulates(Settled(m), e)) {
      AddRepeatedlyAppends(m, mask, e, count);
    } else if count > 1 {
      AddRepeatedlyCollapses(m, mask, e, count);
    }
  }

  /** After an addition that accumulates, the monitor is not ExpectingSuccess,
      so the next addition does not verify it away. */
  lemma AddDesiredSettles(m: Monitor, mask: Flags, e: Expected)
    requires Accumulates(Settled(m), e)
    ensures Settled(AddDesired(m, mask, e)) == AddDesired(m, mask, e)
  {
    var b := Settled(m);
    var a := AddDesired(m, mask, e);
    assert a.desired == b.desired + [e];
    if |b.desired| == 0 {
      assert a.desired[0] == e;
    }
  }

  /** SetDesiredError(msg, n) with a non-empty msg appends n plain entries
      and makes errors reported. */
  lemma SetDesiredErrorAppends(m: Monitor, msg: string, count: nat)
    requires msg != "" && count > 0
    ensures var r := SetDesiredError(m, msg, count);
            && r.desired == Settled(m).desired + Copies(PlainExpected(msg), count)
            && Has(r.flags, ErrorBit)
            && r == Settled(m).(desired := r.desired, flags := r.flags)
  {
    AddRepeatedlyAppends(m, ErrorBit, PlainExpected(msg), count);
  }

  /** An empty expected message is the ExpectingSuccess marker: asking for
      it twice verifies the first request away and keeps one entry. */
  lemma EmptyExpectationCollapses()
    ensures SetDesiredError(NewMonitor(), "", 2).desired == [PlainExpected("")]
  {
    var m1 := AddDesired(NewMonitor(), ErrorBit, PlainExpected(""));
    assert ExpectingSuccess(m1);
  }

  /** Once something is expected, an empty message is appended like any
      other. */
  lemma EmptyExpectationAppendsAfterOthers(x: string)
    requires x != ""
    ensures |SetDesiredError(SetDesiredError(NewMonitor(), x, 1), "", 2).desired| == 3
  {
    var m1 := SetDesiredError(NewMonitor(), x, 1);
    assert m1.desired == [PlainExpected(x)];
    assert Settled(m1) == m1;
  }

  /** ExpectSuccess empties the list, so it does not by itself make the
      monitor ExpectingSuccess. */
  lemma ExpectSuccessIsNotExpectingSuccess(m: Monitor, mask: Flags)
    ensures !ExpectingSuccess(ExpectSuccess(m, mask))
  {
  }

  /** SetAllowedFailureMsg: from now on every message containing `msg` is
      allowed; the strings allowed before stay allowed. */
  function SetAllowedFailureMsg(m: Monitor, msg: string): (r: Monitor)
    ensures r == m.(allowed := r.allowed)
    ensures |r.allowed| == |m.allowed| + 1 && r.allowed[..|m.allowed|] == m.allowed
    ensures forall text :: Contains(text, msg) ==> ContainsAny(text, r.allowed)
  {
    var r := m.(allowed := m.allowed + [msg]);
    assert r.allowed[|m.allowed|] == msg;
    r
  }

  /** SetUnexpectedError: the message is ignored from now on. */
  function SetUnexpectedError(m: Monitor, msg: string): (r: Monitor)
    ensures r.ignore == Settled(m).ignore + [msg] && !ExpectingSuccess(r)
    ensures r == Settled(m).(ignore := r.ignore)
  {
    var b := Settled(m);
    b.(ignore := b.ignore + [msg])
  }

  /** SetError: records a message as found, so that a later VerifyNotFound
      reports it last. */
  function SetError(m: Monitor, msg: string): (r: Monitor)
    ensures r == m.(messageFound := r.messageFound, failureStrings := r.failureStrings)
    ensures r.messageFound && |r.failureStrings| == |m.failureStrings| + 1 &&
            r.failureStrings[..|m.failureStrings|] == m.failureStrings
    ensures |SuccessFailures(r)| == |m.failureStrings| + 1 &&
            SuccessFailures(r)[|m.failureStrings|] == ExpectedSuccessButGot(msg)
  {
    m.(messageFound := true, failureStrings := m.failureStrings + [msg])
  }

  /** IgnoreMessage: some ignore string is a substring of the message. */
  function IgnoreMessage(m: Monitor, msg: string): (r: bool)
    ensures r <==> exists k :: 0 <= k < |m.ignore| && Contains(msg, m.ignore[k])
    ensures |m.ignore| == 0 ==> !r
  {
    if |m.ignore| == 0 then false else ContainsAny(msg, m.ignore)
  }

  /** The first expected message the scan stops at: its undesired regex or
      its search matches. */
  function FirstHit(desired: seq<Expected>, vuid: string, msg: string, re: RegexSearch): (r: Option<nat>)
    ensures r.None? <==> forall k :: 0 <= k < |desired| ==> !Hit(desired[k], vuid, msg, re)
    ensures r.Some? ==> r.value < |desired| && Hit(desired[r.value], vuid, msg, re) &&
                        forall k :: 0 <= k < r.value ==> !Hit(desired[k], vuid, msg, re)
    decreases |desired|
  {
    if |desired| == 0 then None
    else if Hit(desired[0], vuid, msg, re) then Some(0)
    else
      var rest := FirstHit(desired[1..], vuid, msg, re);
      assert forall k :: 1 <= k < |desired| ==> desired[k] == desired[1..][k - 1];
      match rest
      case None => None
      case Some(k) => Some(k + 1)
  }

  /** Removal by swapping with the last element and dropping the last. */
  function SwapRemove(s: seq<Expected>, k: nat): (r: seq<Expected>)
    requires k < |s|
    ensures |r| == |s| - 1
    ensures k == |s| - 1 ==> r == s[..k]
    ensures k < |s| - 1 ==> r == s[..k] + [s[|s| - 1]] + s[k + 1..|s| - 1]
  {
    var t := s[k := s[|s| - 1]][|s| - 1 := s[k]];
    t[..|t| - 1]
  }

  /** Swap-removal takes exactly the one entry out: the remaining multiset is
      the original minus that entry. */
  lemma SwapRemoveMultiset(s: seq<Expected>, k: nat)
    requires k < |s|
    ensures multiset(SwapRemove(s, k)) == multiset(s) - multiset{s[k]}
  {
    var n := |s| - 1;
    var r := SwapRemove(s, k);
    if k == n {
      assert s == r + [s[k]];
    } else {
      var a, b := s[..k], s[k + 1..n];
      assert s == a + [s[k]] + b + [s[n]];
      assert r == a + [s[n]] + b;
      assert multiset(s) == multiset(a) + multiset{s[k]} + multiset(b) + multiset{s[n]};
      assert multiset(r) == multiset(a) + multiset{s[n]} + multiset(b);
    }
  }

  /** What a delivered message does to the monitor, and the callback's
      return value (true aborts the reporting call). */
  datatype Checked = Checked(m: Monitor, result: bool)

  function RaiseBailout(b: Bailout): (r: Bailout)
    ensures b.NoBailout? <==> r.NoBailout?
    ensures r.BailoutFlag? ==> r.raised
  {
    if b.BailoutFlag? then BailoutFlag(true) else NoBailout
  }

  /** CheckForDesiredMsg. The bailout flag is raised first. An ignored
      message stops there with false. Otherwise the expected messages are
      scanned in order: an undesired-regex match is a failure (true); a
      search match is consumed by swap-removal and recorded (true). With no
      entry hit, an allowed message gives false and any other message is a
      failure (true). */
  function CheckForDesiredMsg(m: Monitor, vuid: string, msg: string, re: RegexSearch): (r: Checked)
    ensures r.m.flags == m.flags && r.m.ignore == m.ignore && r.m.allowed == m.allowed
    ensures r.m.bailout == RaiseBailout(m.bailout)
    ensures !r.result <==>
              IgnoreMessage(m, msg) ||
              ((forall k :: 0 <= k < |m.desired| ==> !Hit(m.desired[k], vuid, msg, re)) &&
               exists k :: 0 <= k < |m.allowed| && Contains(msg, m.allowed[k]))
    ensures !r.result ==> r.m == m.(bailout := RaiseBailout(m.bailout))
    ensures r.m.desired == m.desired ||
            exists k :: 0 <= k < |m.desired| && Search(m.desired[k], vuid, msg, re) &&
                        multiset(r.m.desired) == multiset(m.desired) - multiset{m.desired[k]}
    ensures |m.failures| <= |r.m.failures| <= |m.failures| + 1 && r.m.failures[..|m.failures|] == m.failures
  {
    var m1 := m.(bailout := RaiseBailout(m.bailout));
    if IgnoreMessage(m, msg) then Checked(m1, false)
    else
      match FirstHit(m.desired, vuid, msg, re)
      case Some(k) =>
        var e := m.desired[k];
        if SearchUndesired(e, msg, re) then
          Checked(m1.(failures := m.failures + [UndesiredReceived(e.undesired, msg)]), true)
        else
          SwapRemoveMultiset(m.desired, k);
          Checked(m1.(failureStrings := m.failureStrings + [msg], messageFound := true,
                      desired := SwapRemove(m.desired, k)), true)
      case None =>
        if ContainsAny(msg, m.allowed) then Checked(m1, false)
        else Checked(m1.(failures := m.failures + [UnexpectedMessage(msg)]), true)
  }

  /** An ignored message only raises the bailout flag: no entry is consumed,
      nothing is recorded, no failure is logged, and the result is false. */
  lemma IgnoredMessageChangesNothing(m: Monitor, vuid: string, msg: string, re: RegexSearch, k: nat)
    requires k < |m.ignore| && Contains(msg, m.ignore[k])
    ensures CheckForDesiredMsg(m, vuid, msg, re) == Checked(m.(bailout := RaiseBailout(m.bailout)), false)
  {
  }

  /** A message whose first hit `k` is a search match consumes entry `k` and
      only it: the last entry takes its place, the message is recorded, the
      found flag is set and the result is true. */
  lemma MatchConsumesFirstMatch(m: Monitor, vuid: string, msg: string, re: RegexSearch, k: nat)
    requires !IgnoreMessage(m, msg)
    requires k < |m.desired| && Search(m.desired[k], vuid, msg, re) && !SearchUndesired(m.desired[k], msg, re)
    requires forall j :: 0 <= j < k ==> !Hit(m.desired[j], vuid, msg, re)
    ensures var r := CheckForDesiredMsg(m, vuid, msg, re);
            && r.result
            && r.m.desired == SwapRemove(m.desired, k)
            && multiset(r.m.desired) == multiset(m.desired) - multiset{m.desired[k]}
            && r.m.failureStrings == m.failureStrings + [msg] && r.m.messageFound
            && r.m.failures == m.failures
  {
    var h := FirstHit(m.desired, vuid, msg, re);
    assert h == Some(k);
    SwapRemoveMultiset(m.desired, k);
  }

  /** A message that matches the undesired regex of its first hit is a
      failure: no entry is consumed and nothing is recorded. */
  lemma UndesiredIsFailure(m: Monitor, vuid: string, msg: string, re: RegexSearch, k: nat)
    requires !IgnoreMessage(m, msg)
    requires k < |m.desired| && SearchUndesired(m.desired[k], msg, re)
    requires forall j :: 0 <= j < k ==> !Hit(m.desired[j], vuid, msg, re)
    ensures var r := CheckForDesiredMsg(m, vuid, msg, re);
            && r.result
            && r.m == m.(bailout := RaiseBailout(m.bailout),
                         failures := m.failures + [UndesiredReceived(m.desired[k].undesired, msg)])
  {
    var h := FirstHit(m.desired, vuid, msg, re);
    assert h == Some(k);
  }

  /** A message no entry takes is accepted silently when it contains an
      allowed string, and otherwise logged as unexpected. */
  lemma UnmatchedMessage(m: Monitor, vuid: string, msg: string, re: RegexSearch)
    requires !IgnoreMessage(m, msg)
    requires forall k :: 0 <= k < |m.desired| ==> !Hit(m.desired[k], vuid, msg, re)
    ensures var r := CheckForDesiredMsg(m, vuid, msg, re);
            && (ContainsAny(msg, m.allowed) ==> !r.result && r.m == m.(bailout := RaiseBailout(m.bailout)))
            && (!ContainsAny(msg, m.allowed) ==>
                  r.result && r.m == m.(bailout := RaiseBailout(m.bailout), failures := m.failures + [UnexpectedMessage(msg)]))
  {
  }

  /** DebugCallback after formatting: messages of kinds outside the mask are
      dropped with false. */
  function DebugCallback(m: Monitor, severity: Flags, msgType: Flags, vuid: string, msg: string, re: RegexSearch): (r: Checked)
    ensures !PassesFilter(m.flags, severity, msgType) ==> r == Checked(m, false)
    ensures PassesFilter(m.flags, severity, msgType) ==> r == CheckForDesiredMsg(m, vuid, msg, re)
  {
    if PassesFilter(m.flags, severity, msgType) then CheckForDesiredMsg(m, vuid, msg, re) else Checked(m, false)
  }

  /** A reset forgets everything but the failure log. */
  lemma ResetForgets(m1: Monitor, m2: Monitor)
    requires m1.failures == m2.failures
    ensures MonitorReset(m1) == MonitorReset(m2)
    ensures MonitorReset(MonitorReset(m1)) == MonitorReset(m1)
  {
  }

  /** VerifyFound reports each pending expectation once: a second call logs
      nothing more. */
  lemma VerifyFoundTwice(m: Monitor)
    ensures VerifyFound(VerifyFound(m)).failures == VerifyFound(m).failures
    ensures VerifyFound(VerifyFound(m)) == VerifyFound(m)
  {
  }

  /** The basic test pattern: expect one error, receive it, verify. The
      message is consumed and no failure is logged. */
  lemma ExpectedErrorArrives(msg: string, vuid: string, prefix: string, suffix: string, re: RegexSearch)
    requires msg != ""
    ensures var m1 := SetDesiredError(NewMonitor(), msg, 1);
            var c := DebugCallback(m1, SeverityError, 0, vuid, prefix + msg + suffix, re);
            && c.result
            && c.m.desired == []
            && VerifyFound(c.m).failures == []
  {
    var m1 := SetDesiredError(NewMonitor(), msg, 1);
    SetDesiredErrorAppends(NewMonitor(), msg, 1);
    assert m1.desired == [PlainExpected(msg)];
    ContainsPieces(prefix, msg);
    ContainsPieces(prefix + msg, suffix);
    var text := prefix + msg + suffix;
    assert (prefix + msg + suffix)[|prefix|..|prefix| + |msg|] == msg;
    assert OccursAt(text, msg, |prefix|);
    assert Search(PlainExpected(msg), vuid, text, re);
    assert PassesFilter(m1.flags, SeverityError, 0);
    MatchConsumesFirstMatch(m1, vuid, text, re, 0);
  }

  /** An allowed string silences a message nothing else takes: the result
      is false and no failure is logged. */
  lemma AllowedSilencesUnmatched(m: Monitor, allowed: string, vuid: string, msg: string, re: RegexSearch)
    requires !IgnoreMessage(m, msg)
    requires forall k :: 0 <= k < |m.desired| ==> !Hit(m.desired[k], vuid, msg, re)
    requires Contains(msg, allowed)
    ensures var c := CheckForDesiredMsg(SetAllowedFailureMsg(m, allowed), vuid, msg, re);
            !c.result && c.m.failures == m.failures
  {
    var a := SetAllowedFailureMsg(m, allowed);
    assert ContainsAny(msg, a.allowed);
    UnmatchedMessage(a, vuid, msg, re);
  }

  /** A message recorded with SetError is reported by VerifyNotFound as the
      last failure. */
  lemma SetErrorIsReported(m: Monitor, msg: string)
    ensures var f := VerifyNotFound(SetError(m, msg)).failures;
            |f| > |m.failures| && f[..|m.failures|] == m.failures && f[|f| - 1] == ExpectedSuccessButGot(msg)
  {
    var r := SetError(m, msg);
    var f := VerifyNotFound(r).failures;
    assert f == m.failures + SuccessFailures(r);
  }

  /** The expect-success pattern: a monitor asked for an empty error message
      takes any error as found, and VerifyNotFound reports it. */
  lemma ExpectSuccessCatchesMessage(vuid: string, msg: string, re: RegexSearch)
    ensures var m1 := SetDesiredError(NewMonitor(), "", 1);
            var c := DebugCallback(m1, SeverityError, 0, vuid, msg, re);
            VerifyNotFound(c.m).failures == [ExpectedSuccessButGot(msg)]
  {
    var m1 := SetDesiredError(NewMonitor(), "", 1);
    assert m1.desired == [PlainExpected("")];
    assert OccursAt(msg, "", 0);
    assert Search(PlainExpected(""), vuid, msg, re);
    assert PassesFilter(m1.flags, SeverityError, 0);
    MatchConsumesFirstMatch(m1, vuid, msg, re, 0);
  }
}
