/**
 * Start-up: the connection retry loop that `setup_db` (dependencies.py) and
 * the `lifespan` hook (app.py) both run, each over its own module-level
 * `database`; the `get_db` session dependency; and the switch that adds
 * middleware and instrumentation outside tests.
 *
 * What each attempt meets is given as an outcome: the `Database(Base)`
 * constructor raising, the `SELECT 1` probe raising, or both succeeding.
 * Sleeping is recorded as the list of delays slept, not performed.
 */
module Startup {
  import opened Values

  const MaxRetries: nat := 5
  const RetryDelay: nat := 2

  /** What one connection attempt meets. `I` is a constructed `Database` instance. */
  datatype Attempt<I> =
    | ConstructFails(error: string)
    | ProbeFails(instance: I, error: string)
    | Connected(instance: I)

  /** How the loop ends: it breaks after a connection, or it re-raises the last attempt's error. */
  datatype Outcome = Started | Raised(error: string)

  /** The index of the first attempt that connects, or `|attempts|` when none does. */
  function FirstConnected<I>(attempts: seq<Attempt<I>>): (k: nat)
    ensures k <= |attempts|
    ensures k < |attempts| ==> attempts[k].Connected?
    ensures forall i :: 0 <= i < k ==> !attempts[i].Connected?
  {
    if attempts == [] then 0
    else if attempts[0].Connected? then 0
    else 1 + FirstConnected(attempts[1..])
  }

  /**
   * The `database` global after the attempts `attempts`, none of which
   * connected: `database` is assigned as soon as the constructor returns, so
   * it holds the instance of the last attempt that reached the probe, or its
   * former value when every constructor raised.
   */
  function LastAssigned<I>(attempts: seq<Attempt<I>>, database: Option<I>): (r: Option<I>)
    ensures |attempts| > 0 && !attempts[|attempts| - 1].ConstructFails? ==> r == Some(attempts[|attempts| - 1].instance)
    ensures (forall i :: 0 <= i < |attempts| ==> attempts[i].ConstructFails?) ==> r == database
    ensures r != database ==> exists i :: 0 <= i < |attempts| && !attempts[i].ConstructFails? && r == Some(attempts[i].instance)
  {
    if attempts == [] then database
    else
      var last := attempts[|attempts| - 1];
      if last.ConstructFails? then LastAssigned(attempts[..|attempts| - 1], database) else Some(last.instance)
  }

  /** `n` sleeps of the fixed retry delay. */
  function Naps(n: nat): (r: seq<nat>)
    ensures |r| == n && forall i :: 0 <= i < n ==> r[i] == RetryDelay
  {
    seq(n, _ => RetryDelay)
  }

  /** The module-level state the start-up code writes, and the sessions `get_db` has opened and closed. */
  class Globals<I> {
    var database: Option<I>
    var naps: seq<nat>
    var sessionsOpened: nat
    var sessionsClosed: nat

    constructor ()
      ensures database == None && naps == [] && sessionsOpened == 0 && sessionsClosed == 0
    {
      database := None;
      naps := [];
      sessionsOpened := 0;
      sessionsClosed := 0;
    }

    /**
     * At most `MaxRetries` attempts; the first that connects ends the loop,
     * every failure but the last sleeps `RetryDelay` and retries, and a
     * failure of the last attempt re-raises its error without sleeping.
     */
    method ConnectWithRetry(attempts: seq<Attempt<I>>) returns (r: Outcome)
      requires |attempts| >= MaxRetries
      modifies this`database, this`naps
      ensures FirstConnected(attempts[..MaxRetries]) < MaxRetries ==>
        && r == Started
        && database == Some(attempts[FirstConnected(attempts[..MaxRetries])].instance)
        && naps == old(naps) + Naps(FirstConnected(attempts[..MaxRetries]))
      ensures FirstConnected(attempts[..MaxRetries]) == MaxRetries ==>
        && !attempts[MaxRetries - 1].Connected?
        && r == Raised(attempts[MaxRetries - 1].error)
        && database == LastAssigned(attempts[..MaxRetries], old(database))
        && naps == old(naps) + Naps(MaxRetries - 1)
    {
      for attempt := 0 to MaxRetries
        invariant attempt < MaxRetries
        invariant forall i :: 0 <= i < attempt ==> !attempts[i].Connected?
        invariant database == LastAssigned(attempts[..attempt], old(database))
        invariant naps == old(naps) + Naps(attempt)
      {
        assert attempts[..attempt + 1] == attempts[..attempt] + [attempts[attempt]];
        var outcome := attempts[attempt];
        if outcome.Connected? {
          database := Some(outcome.instance);
          FirstConnectedAt(attempts[..MaxRetries], attempt);
          return Started;
        }
        if outcome.ProbeFails? {
          database := Some(outcome.instance);
        }
        if attempt == MaxRetries - 1 {
          FirstConnectedAt(attempts[..MaxRetries], MaxRetries);
          return Raised(outcome.error);
        }
        assert Naps(attempt + 1) == Naps(attempt) + [RetryDelay];
        naps := naps + [RetryDelay];
      }
      assert false;
    }

    /**
     * `get_db`: no session when `database` is unset; otherwise one fresh
     * session, which is closed however the request using it ends.
     */
    method GetDb() returns (session: Option<nat>)
      modifies this`sessionsOpened, this`sessionsClosed
      ensures database.None? ==> session == None && sessionsOpened == old(sessionsOpened) && sessionsClosed == old(sessionsClosed)
      ensures database.Some? ==> session == Some(old(sessionsOpened)) && sessionsOpened == old(sessionsOpened) + 1 && sessionsClosed == old(sessionsClosed) + 1
      ensures sessionsOpened - sessionsClosed == old(sessionsOpened) - old(sessionsClosed)
    {
      session := None;
      if database.Some? {
        session := Some(sessionsOpened);
        sessionsOpened := sessionsOpened + 1;
      }
      if session.Some? {
        sessionsClosed := sessionsClosed + 1;
      }
    }
  }

  /** The first connecting attempt of a prefix with no earlier connection is where `FirstConnected` stops. */
  lemma {:induction false} FirstConnectedAt<I>(attempts: seq<Attempt<I>>, k: nat)
    requires k <= |attempts|
    requires forall i :: 0 <= i < k ==> !attempts[i].Connected?
    requires k < |attempts| ==> attempts[k].Connected?
    ensures FirstConnected(attempts) == k
  {
    if k > 0 {
      FirstConnectedAt(attempts[1..], k - 1);
    }
  }

  /** Whether middleware and instrumentation are installed, given the `TESTING` variable. */
  predicate Instrumented(testing: Option<string>) {
    testing != Some("true")
  }

  /** The application object, as far as start-up configures it. */
  class App {
    var middleware: seq<string>
    var instrumented: bool

    constructor ()
      ensures middleware == [] && !instrumented
    {
      middleware := [];
      instrumented := false;
    }

    /** Adds each of `appMiddleware` in turn, and the instrumentation when enabled, unless `TESTING` is `"true"`. */
    method Configure(testing: Option<string>, appMiddleware: seq<string>, otelEnabled: bool)
      modifies this
      ensures Instrumented(testing) ==> middleware == old(middleware) + appMiddleware
      ensures !Instrumented(testing) ==> middleware == old(middleware)
      ensures instrumented == (old(instrumented) || (Instrumented(testing) && otelEnabled))
    {
      if testing != Some("true") {
        for i := 0 to |appMiddleware|
          invariant middleware == old(middleware) + appMiddleware[..i]
          invariant instrumented == old(instrumented)
        {
          middleware := middleware + [appMiddleware[i]];
          assert appMiddleware[..i + 1] == appMiddleware[..i] + [appMiddleware[i]];
        }
        assert appMiddleware[..|appMiddleware|] == appMiddleware;
        if otelEnabled {
          instrumented := true;
        }
      }
    }
  }
}
