/** The admin PIN: verification and the lockout after repeated failures. */
module PinLockout {

  const LOCKOUT_AFTER_FAILURES := 3
  const LOCKOUT_SECONDS := 300.0

  datatype Lock = Lock(failures: nat, lockedUntil: real, failedAt: seq<real>)

  const RESET := Lock(0, 0.0, [])

  /** The stored hash: absent, matching the PIN, or not (a malformed hash never matches). */
  datatype Stored = NoHash | Matches | Differs

  /** One PIN entry, with the clock readings the code makes in this order: the lockout test,
      the hash comparison, the note of the failure, and the start of the lockout. */
  datatype Attempt = Attempt(wellFormed: bool, stored: Stored, tested: real, compared: real, noted: real, locked: real)

  predicate LockedOut(l: Lock, now: real) {
    now < l.lockedUntil
  }

  function RecordFailure(l: Lock, a: Attempt): Lock {
    var n := l.failures + 1;
    Lock(n, if n >= LOCKOUT_AFTER_FAILURES then a.locked + LOCKOUT_SECONDS else l.lockedUntil, l.failedAt + [a.noted])
  }

  /** Whether the attempt gets as far as comparing hashes. */
  predicate Compares(l: Lock, a: Attempt) {
    a.wellFormed && !LockedOut(l, a.tested) && a.stored != NoHash
  }

  function Verify(l: Lock, a: Attempt): (Lock, bool) {
    if !a.wellFormed then (RecordFailure(l, a), false)
    else if !Compares(l, a) then (l, false)
    else if a.stored == Matches then (RESET, true)
    else (RecordFailure(l, a), false)
  }

  class LockoutState {
    var failures: nat
    var lockedUntil: real
    var failedAt: seq<real>

    constructor ()
      ensures Now() == RESET
    {
      failures, lockedUntil, failedAt := 0, 0.0, [];
    }

    function Now(): Lock
      reads this
    {
      Lock(failures, lockedUntil, failedAt)
    }

    method ResetLockout()
      modifies this
      ensures Now() == RESET
    {
      failures, lockedUntil, failedAt := 0, 0.0, [];
    }

    method NoteFailure(a: Attempt)
      modifies this
      ensures Now() == RecordFailure(old(Now()), a)
    {
      failures := failures + 1;
      failedAt := failedAt + [a.noted];
      if failures >= LOCKOUT_AFTER_FAILURES {
        lockedUntil := a.locked + LOCKOUT_SECONDS;
      }
    }

    method VerifyPin(a: Attempt) returns (ok: bool)
      modifies this
      ensures (Now(), ok) == Verify(old(Now()), a)
      ensures ok <==> a.wellFormed && a.tested >= old(lockedUntil) && a.stored == Matches
      ensures ok ==> failures == 0 && lockedUntil == 0.0 && failedAt == []
    {
      if !a.wellFormed {
        NoteFailure(a);
        return false;
      }
      if LockedOut(Now(), a.tested) || a.stored == NoHash {
        return false;
      }
      ok := a.stored == Matches;
      if ok {
        ResetLockout();
      } else {
        NoteFailure(a);
      }
    }
  }

  // ---- One attempt ----

  /** A PIN is accepted exactly if it is well formed, matches the hash, and is entered when no
      lockout is on; that clears everything. A malformed PIN, or a wrong one outside a lockout,
      is one more failure, which from the third on locks for 300 seconds. Anything else
      changes nothing. */
  lemma AnswersExactly(l: Lock, a: Attempt)
    ensures
      var (l', ok) := Verify(l, a);
      && (ok <==> a.wellFormed && a.tested >= l.lockedUntil && a.stored == Matches)
      && (ok ==> l' == Lock(0, 0.0, []))
      && (!a.wellFormed || (a.tested >= l.lockedUntil && a.stored == Differs) ==>
            l' == Lock(l.failures + 1, if l.failures >= 2 then a.locked + 300.0 else l.lockedUntil,
                       l.failedAt + [a.noted]))
      && (a.wellFormed && (a.tested < l.lockedUntil || a.stored == NoHash) ==> l' == l)
      && (Compares(l, a) <==> a.wellFormed && a.tested >= l.lockedUntil && a.stored != NoHash)
  {
  }

  // ---- Runs ----

  function After(l: Lock, attempts: seq<Attempt>): Lock {
    if attempts == [] then l else Verify(After(l, attempts[..|attempts| - 1]), attempts[|attempts| - 1]).0
  }

  /** When the wrong hash comparisons of a run were made. */
  function WrongComparisons(l: Lock, attempts: seq<Attempt>): seq<real> {
    if attempts == [] then []
    else
      var (before, a) := (attempts[..|attempts| - 1], attempts[|attempts| - 1]);
      WrongComparisons(l, before)
      + if Compares(After(l, before), a) && a.stored == Differs then [a.compared] else []
  }

  /** A monotonic clock, within each attempt and from one to the next. */
  ghost predicate Monotonic(attempts: seq<Attempt>) {
    && (forall i | 0 <= i < |attempts| ::
          attempts[i].tested <= attempts[i].compared <= attempts[i].noted <= attempts[i].locked)
    && (forall i, j | 0 <= i < j < |attempts| :: attempts[i].locked <= attempts[j].tested)
  }

  /** Attempt i is a correct PIN entered outside a lockout. */
  ghost predicate Correct(l: Lock, attempts: seq<Attempt>, i: int)
    requires 0 <= i < |attempts|
  {
    attempts[i].wellFormed && attempts[i].stored == Matches && attempts[i].tested >= After(l, attempts[..i]).lockedUntil
  }

  /** No attempt is; a correct PIN entered during a lockout may be among them. */
  ghost predicate NeverCorrect(attempts: seq<Attempt>) {
    forall i | 0 <= i < |attempts| :: !Correct(RESET, attempts, i)
  }

  lemma NeverCorrectBefore(attempts: seq<Attempt>)
    requires attempts != [] && NeverCorrect(attempts)
    ensures NeverCorrect(attempts[..|attempts| - 1])
    ensures !Verify(After(RESET, attempts[..|attempts| - 1]), attempts[|attempts| - 1]).1
  {
    var before := attempts[..|attempts| - 1];
    forall i | 0 <= i < |before| ensures !Correct(RESET, before, i) {
      assert before[..i] == attempts[..i] && !Correct(RESET, attempts, i);
    }
    assert !Correct(RESET, attempts, |attempts| - 1);
    AnswersExactly(After(RESET, before), attempts[|attempts| - 1]);
  }

  /** The answers of a run. */
  function Answers(l: Lock, attempts: seq<Attempt>): seq<bool> {
    if attempts == [] then []
    else
      var (before, a) := (attempts[..|attempts| - 1], attempts[|attempts| - 1]);
      Answers(l, before) + [Verify(After(l, before), a).1]
  }

  /** Over every run, from any state, exactly the correct PINs entered outside a lockout are
      accepted. */
  lemma {:induction false} AcceptedExactly(l: Lock, attempts: seq<Attempt>)
    ensures |Answers(l, attempts)| == |attempts|
    ensures forall i | 0 <= i < |attempts| :: Answers(l, attempts)[i] <==> Correct(l, attempts, i)
  {
    if attempts != [] {
      var before, n := attempts[..|attempts| - 1], |attempts| - 1;
      AcceptedExactly(l, before);
      AnswersExactly(After(l, before), attempts[n]);
      forall i | 0 <= i < |attempts| ensures Answers(l, attempts)[i] <==> Correct(l, attempts, i) {
        if i < n {
          assert before[..i] == attempts[..i];
          assert Answers(l, before)[i] <==> Correct(l, before, i);
        }
      }
    }
  }

  lemma {:induction false} RunsConcatenate(l: Lock, a: seq<Attempt>, b: seq<Attempt>)
    ensures After(l, a + b) == After(After(l, a), b)
    ensures WrongComparisons(l, a + b) == WrongComparisons(l, a) + WrongComparisons(After(l, a), b)
  {
    if b == [] {
      assert a + b == a;
    } else {
      RunsConcatenate(l, a, b[..|b| - 1]);
      assert (a + b)[..|a + b| - 1] == a + b[..|b| - 1];
    }
  }

  /** After an accepted PIN there are no failures and no lockout, and everything that follows is
      as from a reset, the wrong comparisons included: all the bounds below start anew. */
  lemma AcceptanceStartsAnew(l: Lock, attempts: seq<Attempt>, i: nat)
    requires i < |attempts| && Correct(l, attempts, i)
    ensures After(l, attempts[..i + 1]) == Lock(0, 0.0, [])
    ensures After(l, attempts) == After(RESET, attempts[i + 1..])
    ensures WrongComparisons(l, attempts)
         == WrongComparisons(l, attempts[..i + 1]) + WrongComparisons(RESET, attempts[i + 1..])
  {
    assert attempts[..i + 1][..i] == attempts[..i];
    AnswersExactly(After(l, attempts[..i]), attempts[i]);
    assert attempts == attempts[..i + 1] + attempts[i + 1..];
    RunsConcatenate(l, attempts[..i + 1], attempts[i + 1..]);
  }

  /** From the third wrong comparison on, each locks out everything for 300 seconds. */
  lemma {:induction false} WrongComparisonsLock(attempts: seq<Attempt>)
    requires Monotonic(attempts) && NeverCorrect(attempts)
    ensures
      var (times, l) := (WrongComparisons(RESET, attempts), After(RESET, attempts));
      && l.failures >= |times|
      && (|times| >= 3 ==> l.lockedUntil >= times[|times| - 1] + 300.0)
      && (times != [] ==> attempts != [] && times[|times| - 1] <= attempts[|attempts| - 1].locked)
      && (forall i | 3 <= i < |times| :: times[i] >= times[i - 1] + 300.0)
  {
    if attempts != [] {
      NeverCorrectBefore(attempts);
      WrongComparisonsLock(attempts[..|attempts| - 1]);
    }
  }

  lemma {:induction false} SpacedFromTheThird(times: seq<real>, i: nat, j: nat)
    requires forall k | 3 <= k < |times| :: times[k] >= times[k - 1] + LOCKOUT_SECONDS
    requires 2 <= i <= j < |times|
    ensures times[j] - times[i] >= LOCKOUT_SECONDS * (j - i) as real
    decreases j - i
  {
    if i < j {
      SpacedFromTheThird(times, i, j - 1);
    }
  }

  /** From a reset, with no PIN accepted, the n-th wrong comparison for n > 3 comes at least
      300 (n - 3) seconds after the third. */
  lemma GuessesAreSlow(attempts: seq<Attempt>, n: nat)
    requires Monotonic(attempts) && NeverCorrect(attempts) && 3 < n <= |WrongComparisons(RESET, attempts)|
    ensures
      var times := WrongComparisons(RESET, attempts);
      times[n - 1] - times[2] >= 300.0 * (n - 3) as real
  {
    WrongComparisonsLock(attempts);
    SpacedFromTheThird(WrongComparisons(RESET, attempts), 2, n - 1);
  }

  lemma {:induction false} TimesAscend(attempts: seq<Attempt>, i: nat, j: nat)
    requires Monotonic(attempts) && i <= j < |WrongComparisons(RESET, attempts)|
    ensures WrongComparisons(RESET, attempts)[i] <= WrongComparisons(RESET, attempts)[j]
    ensures attempts != [] && WrongComparisons(RESET, attempts)[j] <= attempts[|attempts| - 1].locked
  {
    var before := attempts[..|attempts| - 1];
    var times := WrongComparisons(RESET, before);
    if j < |times| {
      TimesAscend(before, i, j);
      assert before[|before| - 1].locked <= attempts[|attempts| - 1].tested;
    } else if i < |times| {
      TimesAscend(before, i, |times| - 1);
      assert before[|before| - 1].locked <= attempts[|attempts| - 1].tested;
    }
  }

  /** A stretch of T seconds allows at most 3 + floor(T / 300) wrong comparisons. */
  lemma GuessRateIsBounded(attempts: seq<Attempt>, span: real, i: nat, j: nat)
    requires Monotonic(attempts) && NeverCorrect(attempts) && i <= j < |WrongComparisons(RESET, attempts)|
    requires WrongComparisons(RESET, attempts)[j] - WrongComparisons(RESET, attempts)[i] <= span
    ensures j - i + 1 <= 3 + (span / 300.0).Floor
  {
    var times := WrongComparisons(RESET, attempts);
    WrongComparisonsLock(attempts);
    TimesAscend(attempts, i, j);
    var from := if i < 2 then 2 else i;
    if from <= j {
      SpacedFromTheThird(times, from, j);
      TimesAscend(attempts, i, from);
      FloorOfSpan(j - from, span);
    } else {
      FloorOfSpan(0, span);
    }
  }

  lemma FloorOfSpan(k: nat, span: real)
    requires 300.0 * k as real <= span
    ensures k <= (span / 300.0).Floor
  {
    assert k as real <= span / 300.0;
  }
}
