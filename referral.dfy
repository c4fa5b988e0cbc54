/** The referral-code validation of the registration page (src/pages/Register.js):
    the record shown next to the referral field, how one validation cycle moves it,
    the 500 ms debounce over edits, and how replies are applied. */
module Referral {
  import opened Wrappers
  import opened JsStrings

  /** `referralValidation`. */
  datatype ReferralValidation = ReferralValidation(isValidating: bool, isValid: bool,
                                                   referrerInfo: Option<string>, error: Option<string>)

  const InvalidCodeMessage := "Invalid referral code"
  const UnknownReferrer := "N/A"
  const QuietMs := 500

  /** The initial record, and the one an empty (after trimming) code resets to. */
  const Untouched := ReferralValidation(false, false, None, None)

  /** The record both an invalid reply and a failed call settle to. */
  const Rejected := ReferralValidation(false, false, None, Some(InvalidCodeMessage))

  /** How `api.validateReferralCode` ends, seen from the page: a reply whose `isValid`
      is truthy (with its `userName`, absent when null or undefined), a reply whose
      `isValid` is falsy, or a thrown error. */
  datatype Outcome = Valid(userName: Option<string>) | Invalid | Failed

  /** The first step of `validateReferralCode` for the field's raw value: the new
      record, and the code sent to the backend if any. */
  function Begin(prev: ReferralValidation, raw: string): (r: (ReferralValidation, Option<string>))
    ensures AllWhite(raw) <==> r.1.None?
    ensures r.1.None? ==> r.0 == Untouched
    ensures r.1.Some? ==>
      r.0.isValidating && r.0.isValid == prev.isValid &&
      r.0.referrerInfo == prev.referrerInfo && r.0.error == prev.error
    ensures r.1.Some? ==> r.1.value == Trim(raw) && !IsWhite(r.1.value[0]) && !IsWhite(r.1.value[|r.1.value| - 1])
  {
    TrimShape(raw);
    var code := Trim(raw);
    if code == "" then (Untouched, None)
    else (prev.(isValidating := true), Some(code))
  }

  /** The record a finished call leaves. */
  function Settled(o: Outcome): (v: ReferralValidation)
    ensures !v.isValidating
    ensures v.isValid <==> o.Valid?
    ensures v.error.None? <==> o.Valid?
    ensures v.error.Some? ==> v.error.value == InvalidCodeMessage
    ensures v.referrerInfo.Some? <==> o.Valid?
    ensures o.Valid? ==> v.referrerInfo == Some(o.userName.GetOr(UnknownReferrer))
  {
    match o
    case Valid(name) => ReferralValidation(false, true, Some(name.GetOr(UnknownReferrer)), None)
    case Invalid => Rejected
    case Failed => Rejected
  }

  /** A failed call cannot be told apart from an invalid code. */
  lemma FailedLooksInvalid()
    ensures Settled(Failed) == Settled(Invalid) == Rejected
  {
  }

  /** The records a finished cycle can leave: untouched, rejected, or valid with a
      referrer and no error. */
  predicate SettledShape(v: ReferralValidation) {
    v == Untouched || v == Rejected ||
    (!v.isValidating && v.isValid && v.referrerInfo.Some? && v.error.None?)
  }

  /** Every reachable record: a settled one, possibly with `isValidating` raised over it
      while a new cycle is in flight. (Raising the flag keeps the previous cycle's
      fields, so "validating" and "valid" can show together.) */
  predicate WellFormed(v: ReferralValidation) {
    SettledShape(v.(isValidating := false))
  }

  /** Both steps of a cycle keep the record well-formed. */
  lemma CycleKeepsWellFormed(prev: ReferralValidation, raw: string, o: Outcome)
    requires WellFormed(prev)
    ensures WellFormed(Begin(prev, raw).0)
    ensures SettledShape(Settled(o)) && WellFormed(Settled(o))
  {
    var r := Begin(prev, raw);
    if r.1.Some? {
      assert r.0.(isValidating := false) == prev.(isValidating := false);
    }
  }

  // ---------------------------------------------------------------- debounce

  /** A render in which `formData.referralId` changed, at time `at` (ms), to `value`;
      the effect then clears the previous timer and schedules a new one. */
  datatype Edit = Edit(at: int, value: string)

  /** The timer of edit `i` fires when the next event (the next edit, or the page's
      unmount) comes at least `QuietMs` later; a later event clears it otherwise. An
      event at exactly the due time comes after the timer. */
  predicate Survives(edits: seq<Edit>, i: nat, unmountAt: Option<int>)
    requires i < |edits|
  {
    if i + 1 < |edits| then edits[i + 1].at - edits[i].at >= QuietMs
    else unmountAt.None? || unmountAt.value - edits[i].at >= QuietMs
  }

  /** The values whose timers the first `n` edits have decided: edit `j` is decided by
      edit `j + 1`. */
  function Decided(edits: seq<Edit>, n: nat): (r: seq<string>)
    requires n <= |edits|
    ensures |r| <= if n == 0 then 0 else n - 1
  {
    if n <= 1 then []
    else Decided(edits, n - 1) + (if edits[n - 1].at - edits[n - 2].at >= QuietMs then [edits[n - 2].value] else [])
  }

  /** The values `validateReferralCode` runs with, in order, over the page's life. */
  function Fired(edits: seq<Edit>, unmountAt: Option<int>): (r: seq<string>)
    ensures |r| <= |edits|
    ensures unmountAt.None? && edits != [] ==> r != [] && r[|r| - 1] == edits[|edits| - 1].value
  {
    if edits == [] then []
    else Decided(edits, |edits|) + (if Survives(edits, |edits| - 1, unmountAt) then [edits[|edits| - 1].value] else [])
  }

  lemma {:induction false} DecidedIff(edits: seq<Edit>, n: nat, unmountAt: Option<int>, x: string)
    requires n <= |edits|
    ensures x in Decided(edits, n) <==> exists i :: 0 <= i && i + 1 < n && Survives(edits, i, unmountAt) && edits[i].value == x
  {
    if n > 1 {
      DecidedIff(edits, n - 1, unmountAt, x);
      assert Survives(edits, n - 2, unmountAt) <==> edits[n - 1].at - edits[n - 2].at >= QuietMs;
    }
  }

  /** A value is validated exactly when it was held by an edit that nothing cleared within
      the quiet period. */
  lemma FiredIff(edits: seq<Edit>, unmountAt: Option<int>, x: string)
    ensures x in Fired(edits, unmountAt) <==>
      exists i :: 0 <= i < |edits| && Survives(edits, i, unmountAt) && edits[i].value == x
  {
    if edits != [] {
      DecidedIff(edits, |edits|, unmountAt, x);
    }
  }

  lemma {:induction false} DecidedInBurst(edits: seq<Edit>, n: nat)
    requires n <= |edits|
    requires forall i :: 0 < i < |edits| ==> edits[i].at - edits[i - 1].at < QuietMs
    ensures Decided(edits, n) == []
  {
    if n > 1 {
      DecidedInBurst(edits, n - 1);
    }
  }

  /** In a burst of edits less than 500 ms apart, only the last value is validated
      (once nothing cancels its timer). */
  lemma BurstValidatesLast(edits: seq<Edit>, unmountAt: Option<int>)
    requires edits != []
    requires forall i :: 0 < i < |edits| ==> edits[i].at - edits[i - 1].at < QuietMs
    requires unmountAt.None? || unmountAt.value - edits[|edits| - 1].at >= QuietMs
    ensures Fired(edits, unmountAt) == [edits[|edits| - 1].value]
  {
    DecidedInBurst(edits, |edits|);
  }

  /** Unmounting within the quiet period cancels exactly the pending validation: the
      page validates what it would have validated, minus the last edit's value. */
  lemma UnmountCancelsPending(edits: seq<Edit>, t: int)
    requires edits != [] && t - edits[|edits| - 1].at < QuietMs
    ensures Fired(edits, None) == Fired(edits, Some(t)) + [edits[|edits| - 1].value]
  {
  }

  /** Edits at 0, 100, 200 and 600 ms: one call, with the value as of 600 ms. */
  lemma DebounceExample()
    ensures Fired([Edit(0, "A"), Edit(100, "AB"), Edit(200, "ABC"), Edit(600, "ABCD")], None) == ["ABCD"]
  {
    BurstValidatesLast([Edit(0, "A"), Edit(100, "AB"), Edit(200, "ABC"), Edit(600, "ABCD")], None);
  }

  // ---------------------------------------------------------------- replies

  /** A reply to the request of validation cycle `cycle`. */
  datatype Reply = Reply(cycle: nat, outcome: Outcome)

  /** The page as written: each reply, whenever it arrives, overwrites the record. */
  function ApplyAsWritten(v: ReferralValidation, replies: seq<Reply>): (r: ReferralValidation)
    ensures replies == [] ==> r == v
    ensures replies != [] ==> r == Settled(replies[|replies| - 1].outcome)
    decreases |replies|
  {
    if replies == [] then v else ApplyAsWritten(Settled(replies[0].outcome), replies[1..])
  }

  /** Edits "OLD" at 0 ms and "NEW" at 600 ms start cycles 1 and 2; if cycle 2's valid
      reply arrives first and cycle 1's invalid reply after it, the page as written
      ends up showing the stale rejection for the code "NEW". */
  lemma StaleReplyOverwritesNewer()
    ensures Fired([Edit(0, "OLD"), Edit(600, "NEW")], None) == ["OLD", "NEW"]
    ensures ApplyAsWritten(Untouched, [Reply(2, Valid(Some("Jane"))), Reply(1, Invalid)]) == Rejected
    ensures Rejected != Settled(Valid(Some("Jane")))
  {
  }

  /** With a cycle guard: a reply is applied only when it belongs to the latest cycle. */
  function ApplyLatest(v: ReferralValidation, latest: nat, replies: seq<Reply>): (r: ReferralValidation)
    ensures r == v || exists i :: 0 <= i < |replies| && replies[i].cycle == latest && r == Settled(replies[i].outcome)
    decreases |replies|
  {
    if replies == [] then v
    else ApplyLatest(if replies[0].cycle == latest then Settled(replies[0].outcome) else v, latest, replies[1..])
  }

  /** With the guard, whatever order the replies arrive in, the record is settled by the
      latest cycle's reply if it has arrived, and is left alone otherwise; stale
      replies never show. */
  lemma {:induction false} LatestReplyWins(v: ReferralValidation, latest: nat, o: Outcome, replies: seq<Reply>)
    requires forall i :: 0 <= i < |replies| && replies[i].cycle == latest ==> replies[i].outcome == o
    ensures ApplyLatest(v, latest, replies) ==
      if exists i :: 0 <= i < |replies| && replies[i].cycle == latest then Settled(o) else v
    decreases |replies|
  {
    if replies != [] {
      var rest := replies[1..];
      assert forall i :: 0 <= i < |rest| ==> rest[i] == replies[i + 1];
      var v' := if replies[0].cycle == latest then Settled(o) else v;
      LatestReplyWins(v', latest, o, rest);
      if replies[0].cycle == latest {
        LatestReplyIsStable(o, latest, rest);
      } else if exists i :: 0 <= i < |replies| && replies[i].cycle == latest {
        var i :| 0 <= i < |replies| && replies[i].cycle == latest;
        assert rest[i - 1].cycle == latest;
      }
    }
  }

  /** Once the latest cycle's outcome is shown, the remaining replies keep it. */
  lemma {:induction false} LatestReplyIsStable(o: Outcome, latest: nat, replies: seq<Reply>)
    requires forall i :: 0 <= i < |replies| && replies[i].cycle == latest ==> replies[i].outcome == o
    ensures ApplyLatest(Settled(o), latest, replies) == Settled(o)
    decreases |replies|
  {
    if replies != [] {
      var rest := replies[1..];
      assert forall i :: 0 <= i < |rest| ==> rest[i] == replies[i + 1];
      LatestReplyIsStable(o, latest, rest);
    }
  }

  /** The same arrival order as in `StaleReplyOverwritesNewer`, with the guard: the newer
      cycle's result stays. */
  lemma GuardKeepsNewer()
    ensures ApplyLatest(Untouched, 2, [Reply(2, Valid(Some("Jane"))), Reply(1, Invalid)]) == Settled(Valid(Some("Jane")))
  {
  }
}
