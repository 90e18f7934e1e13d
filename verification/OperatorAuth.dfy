/** The operator PIN with its lockout. Time is counted in ticks of a clock that never runs backwards. */
module OperatorAuth {
  import opened Options

  /** `hash` stands for the keyed hash of a PIN under a salt. */
  datatype Config = Config(hash: (string, string) -> string, pinHash: string, salt: string, maxAttempts: int, lockout: int) {
    predicate IsRight(pin: string) {
      hash(pin, salt) == pinHash
    }
  }

  datatype State = State(failedAttempts: nat, lockedUntil: Option<int>) {
    predicate IsLockedOut(now: int) {
      lockedUntil.Some? && now < lockedUntil.value
    }
  }

  const INITIAL := State(0, None)

  datatype Attempt = Attempt(pin: string, now: int)

  datatype Verdict = Refused | Accepted | Wrong

  function Judge(c: Config, s: State, a: Attempt): Verdict {
    if s.IsLockedOut(a.now) then Refused else if c.IsRight(a.pin) then Accepted else Wrong
  }

  function Step(c: Config, s: State, a: Attempt): State {
    match Judge(c, s, a)
    case Refused => s
    case Accepted => State(0, None)
    case Wrong =>
      State(s.failedAttempts + 1,
            if s.failedAttempts + 1 >= c.maxAttempts then Some(a.now + c.lockout) else s.lockedUntil)
  }

  function After(c: Config, attempts: seq<Attempt>): State {
    if attempts == [] then INITIAL else Step(c, After(c, attempts[..|attempts| - 1]), attempts[|attempts| - 1])
  }

  function Verdicts(c: Config, attempts: seq<Attempt>): seq<Verdict> {
    if attempts == [] then []
    else
      var front := attempts[..|attempts| - 1];
      Verdicts(c, front) + [Judge(c, After(c, front), attempts[|attempts| - 1])]
  }

  ghost predicate InOrder(attempts: seq<Attempt>) {
    forall i, j | 0 <= i < j < |attempts| :: attempts[i].now <= attempts[j].now
  }

  // ---- The history, from the verdicts alone ----

  /** The wrong PINs that were compared since the last success. */
  function WrongSinceSuccess(verdicts: seq<Verdict>): nat {
    if verdicts == [] then 0
    else
      var before := WrongSinceSuccess(verdicts[..|verdicts| - 1]);
      match verdicts[|verdicts| - 1]
      case Refused => before
      case Accepted => 0
      case Wrong => before + 1
  }

  /** When the lockouts since the last success began: at the wrong PIN that used up the attempts. */
  function FirstLock(c: Config, attempts: seq<Attempt>, verdicts: seq<Verdict>): Option<int>
    requires |attempts| == |verdicts|
  {
    if verdicts == [] then None
    else
      var n := |verdicts| - 1;
      var before := FirstLock(c, attempts[..n], verdicts[..n]);
      match verdicts[n]
      case Refused => before
      case Accepted => None
      case Wrong =>
        if before.None? && WrongSinceSuccess(verdicts) >= c.maxAttempts then Some(attempts[n].now) else before
  }

  lemma {:induction false} OneVerdictEach(c: Config, attempts: seq<Attempt>)
    ensures |Verdicts(c, attempts)| == |attempts|
  {
    if attempts != [] {
      OneVerdictEach(c, attempts[..|attempts| - 1]);
    }
  }

  /** How a state agrees with what its history shows: the wrong PINs, the first lock, the last time. */
  ghost predicate Matches(c: Config, s: State, wrong: nat, first: Option<int>, last: int) {
    && s.failedAttempts == wrong
    && (first.None? <==> s.lockedUntil.None?)
    && (first.None? <==> wrong < c.maxAttempts)
    && (first.Some? ==>
          && s.lockedUntil.value - c.lockout <= last
          && (wrong - c.maxAttempts) * c.lockout <= s.lockedUntil.value - c.lockout - first.value)
  }

  /** When the last attempt was made; before any, `now`. */
  function LastTime(attempts: seq<Attempt>, now: int): int {
    if attempts == [] then now else attempts[|attempts| - 1].now
  }

  /** How the state after a history shows in it. */
  ghost predicate StateOk(c: Config, attempts: seq<Attempt>)
    requires |Verdicts(c, attempts)| == |attempts|
  {
    var verdicts := Verdicts(c, attempts);
    var first := FirstLock(c, attempts, verdicts);
    && (attempts == [] ==> first == None)
    && Matches(c, After(c, attempts), WrongSinceSuccess(verdicts), first, LastTime(attempts, 0))
  }

  /** A wrong PIN keeps the state and the history matched: it was compared after the last lockout had ended. */
  lemma WrongKeepsMatch(c: Config, s: State, a: Attempt, wrong: nat, first: Option<int>, last: int)
    requires Matches(c, s, wrong, first, last) && last <= a.now && Judge(c, s, a) == Wrong
    requires c.maxAttempts >= 1 && c.lockout >= 0
    ensures Matches(c, Step(c, s, a), wrong + 1,
                    if first.None? && wrong + 1 >= c.maxAttempts then Some(a.now) else first, a.now)
  {
  }

  lemma {:induction false} HistoryIsKept(c: Config, attempts: seq<Attempt>)
    requires InOrder(attempts) && c.maxAttempts >= 1 && c.lockout >= 0
    ensures |Verdicts(c, attempts)| == |attempts| && StateOk(c, attempts)
    decreases |attempts|
  {
    OneVerdictEach(c, attempts);
    if attempts != [] {
      var n := |attempts| - 1;
      var front, verdicts := attempts[..n], Verdicts(c, attempts);
      HistoryIsKept(c, front);
      assert verdicts[..n] == Verdicts(c, front);
      if verdicts[n] == Wrong {
        WrongKeepsMatch(c, After(c, front), attempts[n], WrongSinceSuccess(Verdicts(c, front)),
                        FirstLock(c, front, Verdicts(c, front)), LastTime(front, attempts[n].now));
      }
    }
  }

  lemma OneMore(k: int, lockout: int)
    ensures (k + 1) * lockout == k * lockout + lockout
  {
  }

  /** However the attempts are timed, the wrong PINs compared since the last success up to time `t` are fewer than the
      allowed attempts before the first lockout, and from then on exceed them by at most one for each full lockout
      that has passed since. */
  lemma GuessingIsSlow(c: Config, attempts: seq<Attempt>, t: int)
    requires InOrder(attempts) && c.maxAttempts >= 1 && c.lockout >= 0
    requires forall a <- attempts :: a.now <= t
    ensures |Verdicts(c, attempts)| == |attempts|
    ensures var verdicts := Verdicts(c, attempts);
            var wrong, first := WrongSinceSuccess(verdicts), FirstLock(c, attempts, verdicts);
            && (first.None? ==> wrong < c.maxAttempts)
            && (first.Some? ==> (wrong - c.maxAttempts) * c.lockout <= t - first.value)
  {
    HistoryIsKept(c, attempts);
    var verdicts := Verdicts(c, attempts);
    var wrong, first := WrongSinceSuccess(verdicts), FirstLock(c, attempts, verdicts);
    if first.Some? {
      assert attempts[|attempts| - 1] in attempts;
    }
  }

  lemma {:induction false} FirstLockIsAnAttempt(c: Config, attempts: seq<Attempt>, verdicts: seq<Verdict>)
    requires |attempts| == |verdicts|
    ensures FirstLock(c, attempts, verdicts).Some? ==>
              exists a <- attempts :: a.now == FirstLock(c, attempts, verdicts).value
    decreases |attempts|
  {
    if attempts != [] {
      var n := |attempts| - 1;
      FirstLockIsAnAttempt(c, attempts[..n], verdicts[..n]);
      assert attempts[n] in attempts;
      assert forall a <- attempts[..n] :: a in attempts;
    }
  }

  /** No attempts remain exactly when a lockout has begun since the last success; until then nothing is ever refused. */
  lemma RemainingAttemptsTell(c: Config, attempts: seq<Attempt>, now: int)
    requires InOrder(attempts) && c.maxAttempts >= 1 && c.lockout >= 0
    ensures |Verdicts(c, attempts)| == |attempts|
    ensures RemainingAttempts(c, After(c, attempts)) == 0 <==> FirstLock(c, attempts, Verdicts(c, attempts)).Some?
    ensures RemainingAttempts(c, After(c, attempts)) > 0 ==> !After(c, attempts).IsLockedOut(now)
  {
    HistoryIsKept(c, attempts);
  }

  function RemainingAttempts(c: Config, s: State): nat {
    if c.maxAttempts - s.failedAttempts > 0 then c.maxAttempts - s.failedAttempts else 0
  }

  // ---- What each attempt is told, from the attempts and the verdicts before it ----

  /** The `j`-th verdict began a lockout, and nobody has succeeded since. */
  ghost predicate LocksAt(c: Config, verdicts: seq<Verdict>, j: nat) {
    && j < |verdicts| && verdicts[j] == Wrong
    && WrongSinceSuccess(verdicts[..j + 1]) >= c.maxAttempts
    && Accepted !in verdicts[j..]
  }

  lemma LockGoesOn(c: Config, verdicts: seq<Verdict>, v: Verdict, j: nat)
    requires j < |verdicts|
    ensures LocksAt(c, verdicts + [v], j) <==> LocksAt(c, verdicts, j) && v != Accepted
  {
    var more := verdicts + [v];
    assert more[..j + 1] == verdicts[..j + 1];
    assert more[j..] == verdicts[j..] + [v];
  }

  lemma LockBegins(c: Config, verdicts: seq<Verdict>, v: Verdict)
    ensures LocksAt(c, verdicts + [v], |verdicts|) <==> v == Wrong && WrongSinceSuccess(verdicts + [v]) >= c.maxAttempts
  {
    var more := verdicts + [v];
    assert more[..|more|] == more;
    assert more[|verdicts|..] == [v];
  }

  lemma LocksAtOneMore(c: Config, verdicts: seq<Verdict>, v: Verdict, j: nat)
    ensures LocksAt(c, verdicts + [v], j)
            <==> if j == |verdicts| then v == Wrong && WrongSinceSuccess(verdicts + [v]) >= c.maxAttempts
                 else LocksAt(c, verdicts, j) && v != Accepted
  {
    if j < |verdicts| {
      LockGoesOn(c, verdicts, v, j);
    } else if j == |verdicts| {
      LockBegins(c, verdicts, v);
    }
  }

  /** The lock that is set is the last that began. */
  ghost predicate IsLastLock(c: Config, attempts: seq<Attempt>, verdicts: seq<Verdict>, lockedUntil: Option<int>)
    requires |attempts| == |verdicts|
  {
    if lockedUntil.None? then forall j: nat :: !LocksAt(c, verdicts, j)
    else
      exists j: nat ::
        LocksAt(c, verdicts, j) && lockedUntil.value == attempts[j].now + c.lockout && NoneAfter(c, verdicts, j)
  }

  ghost predicate NoneAfter(c: Config, verdicts: seq<Verdict>, j: nat) {
    forall k: nat :: LocksAt(c, verdicts, k) ==> k <= j
  }

  lemma LastLockStays(c: Config, attempts: seq<Attempt>, verdicts: seq<Verdict>, lockedUntil: Option<int>, a: Attempt, v: Verdict)
    requires |attempts| == |verdicts| && IsLastLock(c, attempts, verdicts, lockedUntil)
    requires v == Refused || (v == Wrong && WrongSinceSuccess(verdicts + [v]) < c.maxAttempts)
    ensures IsLastLock(c, attempts + [a], verdicts + [v], lockedUntil)
  {
    forall k: nat ensures LocksAt(c, verdicts + [v], k) <==> LocksAt(c, verdicts, k) {
      LocksAtOneMore(c, verdicts, v, k);
    }
    if lockedUntil.Some? {
      var j: nat :| LocksAt(c, verdicts, j) && lockedUntil.value == attempts[j].now + c.lockout && NoneAfter(c, verdicts, j);
      assert LocksAt(c, verdicts + [v], j) && (attempts + [a])[j] == attempts[j] && NoneAfter(c, verdicts + [v], j);
    }
  }

  lemma LastLockBegins(c: Config, attempts: seq<Attempt>, verdicts: seq<Verdict>, a: Attempt)
    requires |attempts| == |verdicts| && WrongSinceSuccess(verdicts + [Wrong]) >= c.maxAttempts
    ensures IsLastLock(c, attempts + [a], verdicts + [Wrong], Some(a.now + c.lockout))
  {
    LocksAtOneMore(c, verdicts, Wrong, |verdicts|);
    assert NoneAfter(c, verdicts + [Wrong], |verdicts|) && (attempts + [a])[|verdicts|] == a;
  }

  lemma LastLockEnds(c: Config, attempts: seq<Attempt>, verdicts: seq<Verdict>, a: Attempt)
    requires |attempts| == |verdicts|
    ensures IsLastLock(c, attempts + [a], verdicts + [Accepted], None)
  {
    forall j: nat ensures !LocksAt(c, verdicts + [Accepted], j) {
      LocksAtOneMore(c, verdicts, Accepted, j);
    }
  }

  /** The state tells the wrong PINs since the last success, and the last lock since then. */
  lemma {:induction false} StateTellsHistory(c: Config, attempts: seq<Attempt>)
    ensures |Verdicts(c, attempts)| == |attempts|
    ensures After(c, attempts).failedAttempts == WrongSinceSuccess(Verdicts(c, attempts))
    ensures IsLastLock(c, attempts, Verdicts(c, attempts), After(c, attempts).lockedUntil)
    decreases |attempts|
  {
    if attempts != [] {
      var front, a := attempts[..|attempts| - 1], attempts[|attempts| - 1];
      StateTellsHistory(c, front);
      var s, verdicts := After(c, front), Verdicts(c, front);
      assert attempts == front + [a] && (verdicts + [Wrong])[..|verdicts|] == verdicts;
      match Judge(c, s, a)
      case Accepted => LastLockEnds(c, front, verdicts, a);
      case Refused => LastLockStays(c, front, verdicts, s.lockedUntil, a, Refused);
      case Wrong =>
        if s.failedAttempts + 1 >= c.maxAttempts {
          LastLockBegins(c, front, verdicts, a);
        } else {
          LastLockStays(c, front, verdicts, s.lockedUntil, a, Wrong);
        }
    }
  }

  /** Some lockout since the last success has not ended. */
  ghost predicate InLockout(c: Config, attempts: seq<Attempt>, verdicts: seq<Verdict>, now: int)
    requires |attempts| == |verdicts|
  {
    exists j: nat :: LocksAt(c, verdicts, j) && now < attempts[j].now + c.lockout
  }

  lemma EarlierLockEndsFirst(c: Config, attempts: seq<Attempt>, verdicts: seq<Verdict>, j: nat, k: nat)
    requires |attempts| == |verdicts| && InOrder(attempts)
    requires LocksAt(c, verdicts, j) && LocksAt(c, verdicts, k) && NoneAfter(c, verdicts, j)
    ensures attempts[k].now <= attempts[j].now
  {
    assert k <= j;
  }

  lemma LastLockDecides(c: Config, attempts: seq<Attempt>, verdicts: seq<Verdict>, s: State, now: int)
    requires |attempts| == |verdicts| && InOrder(attempts) && IsLastLock(c, attempts, verdicts, s.lockedUntil)
    ensures s.IsLockedOut(now) <==> InLockout(c, attempts, verdicts, now)
  {
    if s.lockedUntil.Some? {
      var j: nat :|
        LocksAt(c, verdicts, j) && s.lockedUntil.value == attempts[j].now + c.lockout && NoneAfter(c, verdicts, j);
      if InLockout(c, attempts, verdicts, now) {
        var k: nat :| LocksAt(c, verdicts, k) && now < attempts[k].now + c.lockout;
        EarlierLockEndsFirst(c, attempts, verdicts, j, k);
      }
    }
  }

  lemma LockedOutIs(c: Config, attempts: seq<Attempt>, now: int)
    requires InOrder(attempts)
    ensures |Verdicts(c, attempts)| == |attempts|
    ensures After(c, attempts).IsLockedOut(now) <==> InLockout(c, attempts, Verdicts(c, attempts), now)
  {
    StateTellsHistory(c, attempts);
    LastLockDecides(c, attempts, Verdicts(c, attempts), After(c, attempts), now);
  }

  /** An attempt is refused exactly while a lockout lasts that began since the last success; otherwise its hash under the
      salt decides. The attempts that remain are the allowed ones less the wrong PINs since the last success. */
  lemma VerdictIs(c: Config, attempts: seq<Attempt>, a: Attempt)
    requires InOrder(attempts)
    ensures |Verdicts(c, attempts)| == |attempts|
    ensures Verdicts(c, attempts + [a])
            == Verdicts(c, attempts) + [if InLockout(c, attempts, Verdicts(c, attempts), a.now) then Refused
                                        else if c.hash(a.pin, c.salt) == c.pinHash then Accepted else Wrong]
    ensures var left := c.maxAttempts - WrongSinceSuccess(Verdicts(c, attempts));
            RemainingAttempts(c, After(c, attempts)) == if left > 0 then left else 0
  {
    LockedOutIs(c, attempts, a.now);
    StateTellsHistory(c, attempts);
    assert (attempts + [a])[..|attempts|] == attempts;
  }

  /** When the fastest guesser makes the `n`-th guess: all allowed attempts at once, then one whenever a lockout ends. */
  function GuessTime(c: Config, n: nat): int {
    if n == 0 || n <= c.maxAttempts then 0 else GuessTime(c, n - 1) + c.lockout
  }

  function FastestRun(c: Config, pin: string, n: nat): seq<Attempt> {
    if n == 0 then [] else FastestRun(c, pin, n - 1) + [Attempt(pin, GuessTime(c, n))]
  }

  lemma {:induction false} GuessTimeIs(c: Config, n: nat)
    requires c.maxAttempts >= 1 && n >= c.maxAttempts
    ensures GuessTime(c, n) == (n - c.maxAttempts) * c.lockout
  {
    if n > c.maxAttempts {
      GuessTimeIs(c, n - 1);
      OneMore(n - 1 - c.maxAttempts, c.lockout);
    }
  }

  lemma AfterAppend(c: Config, attempts: seq<Attempt>, a: Attempt)
    ensures After(c, attempts + [a]) == Step(c, After(c, attempts), a)
    ensures InOrder(attempts) && (forall b <- attempts :: b.now <= a.now) ==> InOrder(attempts + [a])
  {
  }

  /** The state after `n` guesses of the fastest guesser. */
  function Guessed(c: Config, n: nat): State {
    State(n, if n < c.maxAttempts then None else Some(GuessTime(c, n) + c.lockout))
  }

  lemma GuessedStep(c: Config, pin: string, n: nat)
    requires c.maxAttempts >= 1 && c.lockout >= 0 && !c.IsRight(pin) && 0 < n
    ensures Step(c, Guessed(c, n - 1), Attempt(pin, GuessTime(c, n))) == Guessed(c, n)
    ensures GuessTime(c, n - 1) <= GuessTime(c, n)
  {
  }

  /** `attempts` is a fastest run of `n` guesses, begun at time 0. */
  ghost predicate IsFastestRun(c: Config, n: nat, attempts: seq<Attempt>) {
    && InOrder(attempts) && After(c, attempts) == Guessed(c, n)
    && forall a <- attempts :: 0 <= a.now <= GuessTime(c, n)
  }

  lemma {:induction false} GuessTimeIsNotNegative(c: Config, n: nat)
    requires c.lockout >= 0
    ensures GuessTime(c, n) >= 0
  {
    if 0 < n {
      GuessTimeIsNotNegative(c, n - 1);
    }
  }

  lemma FastestRunGoesOn(c: Config, pin: string, n: nat, attempts: seq<Attempt>)
    requires c.maxAttempts >= 1 && c.lockout >= 0 && !c.IsRight(pin) && 0 < n
    requires IsFastestRun(c, n - 1, attempts)
    ensures IsFastestRun(c, n, attempts + [Attempt(pin, GuessTime(c, n))])
  {
    GuessedStep(c, pin, n);
    GuessTimeIsNotNegative(c, n);
    AfterAppend(c, attempts, Attempt(pin, GuessTime(c, n)));
  }

  lemma {:induction false} FastestRunIs(c: Config, pin: string, n: nat)
    requires c.maxAttempts >= 1 && c.lockout >= 0 && !c.IsRight(pin)
    ensures IsFastestRun(c, n, FastestRun(c, pin, n))
  {
    if 0 < n {
      FastestRunIs(c, pin, n - 1);
      FastestRunGoesOn(c, pin, n, FastestRun(c, pin, n - 1));
    }
  }

  lemma FastestRunCounts(c: Config, pin: string, n: nat)
    requires c.maxAttempts >= 1 && c.lockout >= 0 && !c.IsRight(pin)
    ensures WrongSinceSuccess(Verdicts(c, FastestRun(c, pin, n))) == n
  {
    FastestRunIs(c, pin, n);
    HistoryIsKept(c, FastestRun(c, pin, n));
  }

  /** The bound is tight: for every number of lockouts there is a run that locks first at time 0 and compares, by the
      end of that many lockouts, exactly as many wrong PINs as the bound allows. */
  lemma BoundIsReached(c: Config, pin: string, lockouts: nat)
    requires c.maxAttempts >= 1 && c.lockout >= 0 && !c.IsRight(pin)
    ensures exists attempts: seq<Attempt> :: ReachesBound(c, attempts, lockouts)
  {
    var n := c.maxAttempts + lockouts;
    var attempts := FastestRun(c, pin, n);
    FastestRunIs(c, pin, n);
    FastestRunCounts(c, pin, n);
    GuessTimeIs(c, n);
    LocksAtStart(c, attempts, lockouts, GuessTime(c, n));
    assert ReachesBound(c, attempts, lockouts);
  }

  /** As many wrong PINs as the bound allows, compared from time 0 on, can only have locked at time 0. */
  lemma LocksAtStart(c: Config, attempts: seq<Attempt>, lockouts: nat, end: int)
    requires c.maxAttempts >= 1 && c.lockout >= 0 && InOrder(attempts)
    requires end == lockouts * c.lockout && forall a <- attempts :: 0 <= a.now <= end
    requires WrongSinceSuccess(Verdicts(c, attempts)) == c.maxAttempts + lockouts
    ensures |Verdicts(c, attempts)| == |attempts|
    ensures FirstLock(c, attempts, Verdicts(c, attempts)) == Some(0)
  {
    GuessingIsSlow(c, attempts, end);
    FirstLockIsAnAttempt(c, attempts, Verdicts(c, attempts));
  }

  /** All attempts lie between time 0 and the end of this many lockouts, the first lock is at time 0, and the wrong PINs
      compared are the allowed attempts and one for each lockout. */
  ghost predicate ReachesBound(c: Config, attempts: seq<Attempt>, lockouts: nat) {
    && InOrder(attempts)
    && (forall a <- attempts :: 0 <= a.now <= lockouts * c.lockout)
    && |Verdicts(c, attempts)| == |attempts|
    && FirstLock(c, attempts, Verdicts(c, attempts)) == Some(0)
    && WrongSinceSuccess(Verdicts(c, attempts)) == c.maxAttempts + lockouts
  }

  class Authenticator {
    const config: Config
    var failedAttempts: nat
    var lockedUntil: Option<int>

    ghost function View(): State reads this {
      State(failedAttempts, lockedUntil)
    }

    constructor (config: Config)
      ensures this.config == config && View() == INITIAL
    {
      this.config := config;
      failedAttempts, lockedUntil := 0, None;
    }

    /** Inside a lockout nothing is compared and nothing changes; a right PIN outside of it clears the count. */
    method Verify(pin: string, now: int) returns (ok: bool)
      modifies this
      ensures View() == Step(config, old(View()), Attempt(pin, now))
      ensures ok <==> !old(View()).IsLockedOut(now) && config.hash(pin, config.salt) == config.pinHash
      ensures old(View()).IsLockedOut(now) ==> !ok && View() == old(View())
      ensures ok ==> View() == INITIAL
    {
      if lockedUntil.Some? && now < lockedUntil.value {
        return false;
      }
      if config.hash(pin, config.salt) == config.pinHash {
        failedAttempts := 0;
        lockedUntil := None;
        return true;
      }
      failedAttempts := failedAttempts + 1;
      if failedAttempts >= config.maxAttempts {
        lockedUntil := Some(now + config.lockout);
      }
      return false;
    }
  }
}
