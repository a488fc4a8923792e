/** Customer login: the counter of failed attempts and the temporary lock. */
module Lockout {
  import opened Wrappers

  const MAX_FAILED_ATTEMPTS := 5
  const LOCKOUT_MS: int := 15 * 60 * 1000

  datatype Customer = Customer(
    hasPassword: bool, emailVerified: bool, failedAttempts: int, lockedUntil: Option<int>)

  /** The answers a client can tell apart, and the two failures that evaluated a wrong password. */
  datatype LoginResult = LoggedIn | BadCredentials | Locked | Unverified | NowLocked

  /** One login against the row of a customer. A wrong password past the fifth keeps locking. */
  function Login(c: Customer, now: int, passwordOk: bool): (Customer, LoginResult) {
    if !c.hasPassword then (c, BadCredentials)
    else if c.lockedUntil.Some? && c.lockedUntil.value > now then (c, Locked)
    else if !c.emailVerified then (c, Unverified)
    else if !passwordOk then
      var attempts := c.failedAttempts + 1;
      if attempts >= MAX_FAILED_ATTEMPTS
      then (c.(failedAttempts := attempts, lockedUntil := Some(now + LOCKOUT_MS)), NowLocked)
      else (c.(failedAttempts := attempts, lockedUntil := None), BadCredentials)
    else if c.failedAttempts > 0 || c.lockedUntil.Some? then (c.(failedAttempts := 0, lockedUntil := None), LoggedIn)
    else (c, LoggedIn)
  }

  /** The password was compared at all. */
  predicate Evaluates(c: Customer, now: int) {
    c.hasPassword && !(c.lockedUntil.Some? && c.lockedUntil.value > now) && c.emailVerified
  }

  // ── Runs of one customer row ──────────────────────────────────────────────

  /** A login, the passing of time, or the verification of the address (by mail or through the OAuth sync). */
  datatype Step = TryLogin(passwordOk: bool) | Wait(ms: nat) | VerifyEmail

  datatype Clocked = Clocked(customer: Customer, now: int)

  function Apply(s: Clocked, st: Step): Clocked {
    match st
    case TryLogin(ok) => s.(customer := Login(s.customer, s.now, ok).0)
    case Wait(ms) => s.(now := s.now + ms)
    case VerifyEmail => s.(customer := s.customer.(emailVerified := true))
  }

  function Run(s: Clocked, run: seq<Step>): Clocked {
    if run == [] then s else Apply(Run(s, run[..|run| - 1]), run[|run| - 1])
  }

  predicate WrongPassword(s: Clocked, st: Step) {
    st == TryLogin(false) && Evaluates(s.customer, s.now)
  }

  predicate Succeeds(s: Clocked, st: Step) {
    st.TryLogin? && Login(s.customer, s.now, st.passwordOk).1 == LoggedIn
  }

  /** The instants at which a wrong password was compared. */
  function WrongTimes(s: Clocked, run: seq<Step>): seq<int> {
    if run == [] then []
    else
      var init, last := run[..|run| - 1], run[|run| - 1];
      WrongTimes(s, init) + (if WrongPassword(Run(s, init), last) then [Run(s, init).now] else [])
  }

  predicate NoSuccess(s: Clocked, run: seq<Step>) {
    if run == [] then true
    else NoSuccess(s, run[..|run| - 1]) && !Succeeds(Run(s, run[..|run| - 1]), run[|run| - 1])
  }

  /** The lock is set exactly from the fifth failed attempt on. */
  predicate RowOk(c: Customer) {
    0 <= c.failedAttempts && (c.lockedUntil.Some? <==> c.failedAttempts >= MAX_FAILED_ATTEMPTS)
  }

  /** What one login does: it succeeds exactly with the right password on a verified account that is not locked now,
      and then forgives every failed attempt; a wrong password compared counts one more, and from the fifth on locks
      for 15 minutes from now; a login refused before the comparison changes nothing. */
  lemma LoginEffect(c: Customer, now: int, passwordOk: bool)
    requires RowOk(c)
    ensures var locked := c.lockedUntil.Some? && now < c.lockedUntil.value;
            var after, r := Login(c, now, passwordOk).0, Login(c, now, passwordOk).1;
            && (r == LoggedIn <==> c.hasPassword && !locked && c.emailVerified && passwordOk)
            && (r == LoggedIn ==> after == c.(failedAttempts := 0, lockedUntil := None))
            && (r in {Locked, Unverified} || !c.hasPassword ==> after == c)
            && (r == Locked <==> c.hasPassword && locked)
            && (r == Unverified <==> c.hasPassword && !locked && !c.emailVerified)
            && (c.hasPassword && !locked && c.emailVerified && !passwordOk ==>
                  && after == c.(failedAttempts := c.failedAttempts + 1, lockedUntil := after.lockedUntil)
                  && after.lockedUntil == (if after.failedAttempts >= 5 then Some(now + 900_000) else None)
                  && r == (if after.failedAttempts >= 5 then NowLocked else BadCredentials))
  {}

  /** The wrong passwords compared since the last success, those counted before the run included. */
  function WrongSinceSuccess(s: Clocked, run: seq<Step>): int {
    if run == [] then s.customer.failedAttempts
    else
      var init, last := run[..|run| - 1], run[|run| - 1];
      if Succeeds(Run(s, init), last) then 0
      else WrongSinceSuccess(s, init) + (if WrongPassword(Run(s, init), last) then 1 else 0)
  }

  /** In every run the counter is the number of wrong passwords compared since the last success, and the account has a
      lock exactly when there are five or more of them. */
  lemma {:induction false} CounterIsWrongSinceSuccess(s: Clocked, run: seq<Step>)
    requires RowOk(s.customer)
    ensures var t := Run(s, run);
            && t.customer.failedAttempts == WrongSinceSuccess(s, run)
            && (t.customer.lockedUntil.Some? <==> WrongSinceSuccess(s, run) >= 5)
  {
    LockedFromFifth(s, run);
    if run != [] {
      var init, last := run[..|run| - 1], run[|run| - 1];
      CounterIsWrongSinceSuccess(s, init);
      LockedFromFifth(s, init);
      if last.TryLogin? {
        LoginEffect(Run(s, init).customer, Run(s, init).now, last.passwordOk);
      }
    }
  }

  lemma {:induction false} LockedFromFifth(s: Clocked, run: seq<Step>)
    requires RowOk(s.customer)
    ensures RowOk(Run(s, run).customer)
  {
    if run != [] {
      LockedFromFifth(s, run[..|run| - 1]);
    }
  }

  /** Without a success the counter adds up, and from the fifth wrong password on consecutive ones are at least
      a lockout apart. */
  lemma {:induction false} WrongPasswordsAreSpaced(s: Clocked, run: seq<Step>)
    requires RowOk(s.customer) && NoSuccess(s, run)
    ensures var t, log := Run(s, run), WrongTimes(s, run);
            && RowOk(t.customer) && s.now <= t.now
            && t.customer.failedAttempts == s.customer.failedAttempts + |log|
            && (log != [] ==> s.now <= log[|log| - 1] <= t.now)
            && (log != [] && t.customer.failedAttempts >= MAX_FAILED_ATTEMPTS ==>
                  t.customer.lockedUntil == Some(log[|log| - 1] + LOCKOUT_MS))
            && (|log| >= 5 ==> s.now + (|log| - 5) * LOCKOUT_MS <= log[|log| - 1])
  {
    if run != [] {
      WrongPasswordsAreSpaced(s, run[..|run| - 1]);
    }
  }

  /** Over any stretch without a successful login, however it starts, at most 5 + floor(T / 15 min) wrong
      passwords are compared, T being the length of the stretch. Attempts refused by the lock do not count. */
  lemma GuessesAreBounded(s: Clocked, run: seq<Step>)
    requires RowOk(s.customer) && NoSuccess(s, run)
    ensures |WrongTimes(s, run)| <= 5 + (Run(s, run).now - s.now) / LOCKOUT_MS
  {
    hide Run, WrongTimes, NoSuccess, RowOk;
    WrongPasswordsAreSpaced(s, run);
    var n, t := |WrongTimes(s, run)|, Run(s, run).now - s.now;
    if n >= 5 {
      assert (n - 5) * LOCKOUT_MS <= t;
      Divide(n - 5, t);
    }
  }

  lemma Divide(n: int, t: int)
    requires 0 <= n && n * LOCKOUT_MS <= t
    ensures n <= t / LOCKOUT_MS
  {}

  // ── The service ───────────────────────────────────────────────────────────

  datatype Account = Account(tenant: nat, email: nat)

  class CustomerAuthService {
    var now: int
    var customers: map<Account, Customer>

    constructor (now: int)
      ensures this.now == now && customers == map[]
    {
      this.now, customers := now, map[];
    }

    /** An unknown account answers like a wrong password and touches nothing. */
    method LogIn(tenant: nat, email: nat, passwordOk: bool) returns (r: LoginResult)
      modifies this
      ensures now == old(now)
      ensures var account := Account(tenant, email);
              if account !in old(customers) then customers == old(customers) && r == BadCredentials
              else
                && customers == old(customers)[account := Login(old(customers)[account], now, passwordOk).0]
                && r == Login(old(customers)[account], now, passwordOk).1
    {
      var account := Account(tenant, email);
      if account !in customers || !customers[account].hasPassword {
        return BadCredentials;
      }
      var customer := customers[account];
      if customer.lockedUntil.Some? && customer.lockedUntil.value > now {
        return Locked;
      }
      if !customer.emailVerified {
        return Unverified;
      }
      if !passwordOk {
        var attempts := customer.failedAttempts + 1;
        var isNowLocked := attempts >= MAX_FAILED_ATTEMPTS;
        var lockedUntil := None;
        if isNowLocked {
          lockedUntil := Some(now + LOCKOUT_MS);
        }
        customers := customers[account := customer.(failedAttempts := attempts, lockedUntil := lockedUntil)];
        if isNowLocked {
          return NowLocked;
        }
        return BadCredentials;
      }
      if customer.failedAttempts > 0 || customer.lockedUntil.Some? {
        customers := customers[account := customer.(failedAttempts := 0, lockedUntil := None)];
      }
      return LoggedIn;
    }
  }
}
