/**
  The insight publisher: a sliding-window cap and a window of repeated subjects,
  with the model call between the check and the record.
 */
module Insights {
  const HOUR: real := 3600.0
  const DEDUP_WINDOW: real := 7200.0

  // One attempt. The clock is read when the cap is checked, when the subject is
  // checked, and twice when the insight is recorded. An empty subject is none.
  datatype Attempt = Attempt(ready: bool, cap: int, subject: string, produced: bool,
                             capChecked: real, subjectChecked: real, recorded: real, signed: real)

  datatype Publication = Publication(at: real, signed: real, subject: string)

  datatype State = State(times: seq<real>, signatures: map<string, real>)

  // ----- one attempt

  function DropOld(times: seq<real>, now: real): (r: seq<real>)
    ensures |r| <= |times| && r == times[|times| - |r|..]
  {
    if times != [] && now - times[0] > HOUR then DropOld(times[1..], now) else times
  }

  function Pruned(signatures: map<string, real>, now: real): map<string, real> {
    map k | k in signatures && now - signatures[k] < DEDUP_WINDOW :: signatures[k]
  }

  function CapChecked(s: State, a: Attempt): State {
    if a.ready && a.cap > 0 then s.(times := DropOld(s.times, a.capChecked)) else s
  }

  predicate PassesCap(s: State, a: Attempt) {
    a.ready && a.cap > 0 && |CapChecked(s, a).times| < a.cap
  }

  function SubjectChecked(s: State, a: Attempt): State {
    if PassesCap(s, a) && a.subject != "" then
      CapChecked(s, a).(signatures := Pruned(s.signatures, a.subjectChecked))
    else CapChecked(s, a)
  }

  predicate Publishes(s: State, a: Attempt) {
    && PassesCap(s, a)
    && (a.subject != "" ==> a.subject !in SubjectChecked(s, a).signatures)
    && a.produced
  }

  function Attempted(s: State, a: Attempt): State {
    var c := SubjectChecked(s, a);
    if !Publishes(s, a) then c
    else State(c.times + [a.recorded], if a.subject == "" then c.signatures else c.signatures[a.subject := a.signed])
  }

  // ----- runs

  function Initial(): State {
    State([], map[])
  }

  predicate Ordered(clock: real, a: Attempt) {
    clock <= a.capChecked <= a.subjectChecked <= a.recorded <= a.signed
  }

  // The clock never goes back, from one attempt to the next.
  predicate ClockRuns(clock: real, attempts: seq<Attempt>)
    decreases |attempts|
  {
    attempts == [] || (Ordered(clock, attempts[0]) && ClockRuns(attempts[0].signed, attempts[1..]))
  }

  predicate FixedCap(attempts: seq<Attempt>, cap: int) {
    forall i :: 0 <= i < |attempts| ==> attempts[i].cap == cap
  }

  // A run with its history: the publications, and the latest clock reading.
  datatype History = History(state: State, log: seq<Publication>, clock: real)

  function Step(h: History, a: Attempt): History {
    History(Attempted(h.state, a),
            if Publishes(h.state, a) then h.log + [Publication(a.recorded, a.signed, a.subject)] else h.log,
            a.signed)
  }

  function Run(h: History, attempts: seq<Attempt>): History
    decreases |attempts|
  {
    if attempts == [] then h else Run(Step(h, attempts[0]), attempts[1..])
  }

  // ----- the invariant

  predicate InOrder(log: seq<Publication>, clock: real) {
    && (forall i, j :: 0 <= i <= j < |log| ==> log[i].at <= log[j].at)
    && (forall i :: 0 <= i < |log| ==> log[i].at <= log[i].signed <= clock)
  }

  // The times are the end of the log, and what was dropped is over an hour old.
  predicate TimesAreRecent(h: History) {
    && |h.state.times| <= |h.log|
    && var dropped := |h.log| - |h.state.times|;
       && (forall i :: 0 <= i < |h.state.times| ==> h.state.times[i] == h.log[dropped + i].at)
       && (forall i :: 0 <= i < dropped ==> h.clock - h.log[i].at > HOUR)
  }

  // The signatures are of real publications; those without one are old enough.
  predicate SignaturesAreLatest(h: History) {
    && (forall k :: k in h.state.signatures ==>
          exists i :: 0 <= i < |h.log| && h.log[i].subject == k && h.log[i].signed == h.state.signatures[k])
    && (forall i :: 0 <= i < |h.log| && h.log[i].subject != "" ==>
          || h.clock - h.log[i].signed >= DEDUP_WINDOW
          || (h.log[i].subject in h.state.signatures && h.log[i].signed <= h.state.signatures[h.log[i].subject]))
  }

  // A publication and the cap-th one before it are more than an hour apart.
  predicate Spaced(log: seq<Publication>, cap: int) {
    forall i, j :: 0 <= i <= j < |log| && j - i >= cap ==> log[j].at - log[i].at > HOUR
  }

  predicate SubjectsAreSpaced(log: seq<Publication>) {
    forall i, j :: 0 <= i < j < |log| && log[i].subject == log[j].subject != "" ==>
      log[j].at - log[i].at >= 7200.0
  }

  predicate Invariant(h: History, cap: int) {
    && InOrder(h.log, h.clock)
    && TimesAreRecent(h)
    && SignaturesAreLatest(h)
    && SubjectsAreSpaced(h.log)
    && Spaced(h.log, cap)
  }

  lemma {:induction false} DropOldDropsExpired(times: seq<real>, now: real)
    ensures forall i :: 0 <= i < |times| - |DropOld(times, now)| ==> now - times[i] > HOUR
    ensures DropOld(times, now) != [] ==> now - DropOld(times, now)[0] <= HOUR
  {
    if times != [] && now - times[0] > HOUR {
      DropOldDropsExpired(times[1..], now);
      forall i | 0 <= i < |times| - |DropOld(times, now)| ensures now - times[i] > HOUR {
        if i > 0 {
          assert times[i] == times[1..][i - 1];
        }
      }
    }
  }

  lemma CheckedTimes(s: State, a: Attempt)
    ensures
      var times, now := CapChecked(s, a).times, a.capChecked;
      && |times| <= |s.times| && times == s.times[|s.times| - |times|..]
      && (forall i :: 0 <= i < |s.times| - |times| ==> now - s.times[i] > HOUR)
  {
    DropOldDropsExpired(s.times, a.capChecked);
  }

  // After the check, the dropped part of the log is over an hour old.
  lemma CapCheckKeepsTimes(h: History, a: Attempt)
    requires InOrder(h.log, h.clock) && TimesAreRecent(h) && Ordered(h.clock, a)
    ensures TimesAreRecent(History(CapChecked(h.state, a), h.log, a.capChecked))
  {
    hide DropOld, CapChecked;
    CheckedTimes(h.state, a);
    var was, dropped := |h.log| - |h.state.times|, |h.log| - |CapChecked(h.state, a).times|;
    forall i | 0 <= i < dropped ensures a.capChecked - h.log[i].at > HOUR {
      if i >= was {
        assert h.state.times[i - was] == h.log[i].at;
      }
    }
  }

  lemma StepKeepsTimes(h: History, a: Attempt)
    requires InOrder(h.log, h.clock) && TimesAreRecent(h) && Ordered(h.clock, a)
    ensures TimesAreRecent(Step(h, a)) && InOrder(Step(h, a).log, Step(h, a).clock)
  {
    hide DropOld, Pruned;
    CapCheckKeepsTimes(h, a);
    var c, h' := CapChecked(h.state, a), Step(h, a);
    if Publishes(h.state, a) {
      assert h'.state.times == c.times + [a.recorded];
    } else {
      assert h'.state.times == c.times && h'.log == h.log;
    }
  }

  lemma StepKeepsSpacing(h: History, a: Attempt)
    requires InOrder(h.log, h.clock) && TimesAreRecent(h) && Ordered(h.clock, a) && Spaced(h.log, a.cap)
    ensures Spaced(Step(h, a).log, a.cap)
  {
    hide DropOld, Pruned;
    CapCheckKeepsTimes(h, a);
  }

  // The signatures after an attempt: the old ones that are recent, and the new one.
  lemma SignaturesAfter(s: State, a: Attempt, k: string)
    ensures
      var s' := Attempted(s, a).signatures;
      && (Publishes(s, a) && a.subject != "" && k == a.subject ==> k in s' && s'[k] == a.signed)
      && (!(Publishes(s, a) && a.subject != "" && k == a.subject) ==>
            && (k in s' ==> k in s.signatures && s'[k] == s.signatures[k])
            && (k in s.signatures && k !in s' ==> a.subjectChecked - s.signatures[k] >= DEDUP_WINDOW))
  {
    hide DropOld;
  }

  lemma StepKeepsSignatures(h: History, a: Attempt)
    requires InOrder(h.log, h.clock) && SignaturesAreLatest(h) && Ordered(h.clock, a)
    ensures SignaturesAreLatest(Step(h, a))
  {
    hide Attempted, Publishes;
    var h', s' := Step(h, a), Attempted(h.state, a).signatures;
    forall k | k in s'
      ensures exists i :: 0 <= i < |h'.log| && h'.log[i].subject == k && h'.log[i].signed == s'[k]
    {
      SignaturesAfter(h.state, a, k);
      if Publishes(h.state, a) && k == a.subject && k != "" {
        assert h'.log[|h.log|].subject == k;
      } else {
        var i :| 0 <= i < |h.log| && h.log[i].subject == k && h.log[i].signed == h.state.signatures[k];
        assert h'.log[i] == h.log[i];
      }
    }
    forall i | 0 <= i < |h'.log| && h'.log[i].subject != ""
      ensures h'.clock - h'.log[i].signed >= DEDUP_WINDOW
           || (h'.log[i].subject in s' && h'.log[i].signed <= s'[h'.log[i].subject])
    {
      SignaturesAfter(h.state, a, h'.log[i].subject);
      if i < |h.log| {
        assert h'.log[i] == h.log[i];
      }
    }
  }

  lemma StepKeepsSubjectsSpaced(h: History, a: Attempt)
    requires InOrder(h.log, h.clock) && SignaturesAreLatest(h) && SubjectsAreSpaced(h.log) && Ordered(h.clock, a)
    ensures SubjectsAreSpaced(Step(h, a).log)
  {
    hide DropOld;
  }

  lemma StepKeepsInvariant(h: History, a: Attempt)
    requires Invariant(h, a.cap) && Ordered(h.clock, a)
    ensures Invariant(Step(h, a), a.cap)
  {
    StepKeepsTimes(h, a);
    StepKeepsSpacing(h, a);
    StepKeepsSignatures(h, a);
    StepKeepsSubjectsSpaced(h, a);
  }

  lemma {:induction false} InvariantHoldsAfter(h: History, attempts: seq<Attempt>, cap: int)
    requires Invariant(h, cap) && ClockRuns(h.clock, attempts) && FixedCap(attempts, cap)
    ensures Invariant(Run(h, attempts), cap)
    decreases |attempts|
  {
    hide Invariant, Step, Ordered;
    if attempts != [] {
      StepKeepsInvariant(h, attempts[0]);
      assert Step(h, attempts[0]).clock == attempts[0].signed by { StepClock(h, attempts[0]); }
      InvariantHoldsAfter(Step(h, attempts[0]), attempts[1..], cap);
    }
  }

  lemma StepClock(h: History, a: Attempt)
    ensures Step(h, a).clock == a.signed
  {
  }

  // ----- the limits over every run

  // Publications in the closed window [from, to].
  function CountIn(log: seq<Publication>, from: real, to: real): nat {
    if log == [] then 0
    else CountIn(log[..|log| - 1], from, to) + if from <= log[|log| - 1].at <= to then 1 else 0
  }

  // A log whose front lies before the window.
  lemma {:induction false} CountAfterOld(log: seq<Publication>, dropped: nat, from: real, to: real)
    requires dropped <= |log| && forall i :: 0 <= i < dropped ==> log[i].at < from
    ensures CountIn(log, from, to) <= |log| - dropped
    ensures (forall i :: dropped <= i < |log| ==> from <= log[i].at <= to) ==> CountIn(log, from, to) == |log| - dropped
  {
    if log != [] {
      CountAfterOld(log[..|log| - 1], if dropped == |log| then dropped - 1 else dropped, from, to);
    }
  }

  lemma {:induction false} SpacedLogMeetsCap(log: seq<Publication>, cap: nat, from: real)
    requires forall i, j :: 0 <= i <= j < |log| ==> log[i].at <= log[j].at
    requires Spaced(log, cap)
    ensures CountIn(log, from, from + HOUR) <= cap
  {
    if log != [] {
      var last := |log| - 1;
      if from <= log[last].at <= from + HOUR {
        CountAfterOld(log, if last >= cap then last - cap + 1 else 0, from, from + HOUR);
      } else {
        SpacedLogMeetsCap(log[..last], cap, from);
      }
    }
  }

  // No closed hour holds more publications than the cap, and a subject returns
  // only after the dedup window.
  lemma LimitsHoldInEveryRun(attempts: seq<Attempt>, cap: nat, start: real, from: real)
    requires ClockRuns(start, attempts) && FixedCap(attempts, cap)
    ensures
      var log := Run(History(Initial(), [], start), attempts).log;
      CountIn(log, from, from + 3600.0) <= cap && SubjectsAreSpaced(log)
  {
    hide Run;
    InvariantHoldsAfter(History(Initial(), [], start), attempts, cap);
    SpacedLogMeetsCap(Run(History(Initial(), [], start), attempts).log, cap, from);
  }

  // The limits turn away nothing else: an attempt is published exactly when it is
  // ready and produces text, the last hour holds fewer publications than the cap,
  // and its subject was not signed within the dedup window.
  lemma PublishesIffWithinLimits(h: History, a: Attempt, cap: int)
    requires Invariant(h, cap) && Ordered(h.clock, a)
    ensures Publishes(h.state, a) <==>
      && a.ready && a.produced
      && CountIn(h.log, a.capChecked - 3600.0, a.capChecked) < a.cap
      && (a.subject != "" ==>
            forall i :: 0 <= i < |h.log| && h.log[i].subject == a.subject ==>
              a.subjectChecked - h.log[i].signed >= 7200.0)
  {
    hide CountIn, DropOld, Pruned;
    if a.ready && a.cap > 0 {
      LengthIsCount(h, a);
      if a.subject != "" {
        SubjectIsFreeIff(h, a);
      }
    }
  }

  lemma LengthIsCount(h: History, a: Attempt)
    requires InOrder(h.log, h.clock) && TimesAreRecent(h) && Ordered(h.clock, a) && a.ready && a.cap > 0
    ensures |CapChecked(h.state, a).times| == CountIn(h.log, a.capChecked - HOUR, a.capChecked)
  {
    hide DropOld, CountIn, TimesAreRecent;
    CapCheckKeepsTimes(h, a);
    DropOldDropsExpired(h.state.times, a.capChecked);
    RecentTimesAreTheWindow(History(CapChecked(h.state, a), h.log, a.capChecked));
  }

  lemma RecentTimesAreTheWindow(h: History)
    requires InOrder(h.log, h.clock) && TimesAreRecent(h)
    requires h.state.times != [] ==> h.clock - h.state.times[0] <= HOUR
    ensures |h.state.times| == CountIn(h.log, h.clock - HOUR, h.clock)
  {
    hide CountIn;
    var dropped := |h.log| - |h.state.times|;
    if h.state.times != [] {
      assert h.state.times[0] == h.log[dropped].at;
      forall i | dropped <= i < |h.log| ensures h.clock - HOUR <= h.log[i].at <= h.clock {
        assert h.log[dropped].at <= h.log[i].at;
      }
    }
    CountAfterOld(h.log, dropped, h.clock - HOUR, h.clock);
  }

  lemma SubjectIsFreeIff(h: History, a: Attempt)
    requires SignaturesAreLatest(h) && Ordered(h.clock, a) && a.subject != ""
    ensures a.subject !in Pruned(h.state.signatures, a.subjectChecked) <==>
      forall i :: 0 <= i < |h.log| && h.log[i].subject == a.subject ==>
        a.subjectChecked - h.log[i].signed >= DEDUP_WINDOW
  {
  }

  // ----- the engine

  class InsightEngine {
    var times: seq<real>
    var signatures: map<string, real>

    constructor ()
      ensures times == [] && signatures == map[]
    {
      times, signatures := [], map[];
    }

    method CapReached(cap: int, now: real) returns (reached: bool)
      modifies this
      ensures times == DropOld(old(times), now) && signatures == old(signatures)
      ensures reached <==> |times| >= cap
    {
      while times != [] && now - times[0] > HOUR
        invariant DropOld(times, now) == DropOld(old(times), now) && signatures == old(signatures)
        decreases |times|
      {
        times := times[1..];
      }
      reached := |times| >= cap;
    }

    method PruneSignatures(now: real)
      modifies this
      ensures signatures == Pruned(old(signatures), now) && times == old(times)
    {
      var expired := set k | k in signatures && now - signatures[k] >= DEDUP_WINDOW;
      while expired != {}
        invariant expired <= signatures.Keys && times == old(times)
        invariant forall k :: k in expired ==> now - signatures[k] >= DEDUP_WINDOW
        invariant forall k :: k in signatures && now - signatures[k] >= DEDUP_WINDOW ==> k in expired
        invariant Pruned(signatures, now) == Pruned(old(signatures), now)
        decreases |expired|
      {
        var k :| k in expired;
        expired := expired - {k};
        signatures := signatures - {k};
      }
      assert Pruned(signatures, now) == signatures;
    }

    method MaybeGenerate(a: Attempt) returns (published: bool)
      modifies this
      ensures published <==> Publishes(State(old(times), old(signatures)), a)
      ensures State(times, signatures) == Attempted(State(old(times), old(signatures)), a)
    {
      hide DropOld;
      if !a.ready || a.cap <= 0 {
        return false;
      }
      var reached := CapReached(a.cap, a.capChecked);
      if reached {
        return false;
      }
      if a.subject != "" {
        PruneSignatures(a.subjectChecked);
        if a.subject in signatures && a.subjectChecked - signatures[a.subject] < DEDUP_WINDOW {
          return false;
        }
      }
      if !a.produced {
        return false;
      }
      times := times + [a.recorded];
      if a.subject != "" {
        signatures := signatures[a.subject := a.signed];
      }
      return true;
    }
  }
}
